/**
 * The XPath 1.0 string function `normalize-space` (section 4.2 of XPath 1.0),
 * which `get_node_from_name` applies to each candidate's `name` attribute:
 * leading and trailing white space is stripped and every run of white space
 * inside becomes one space. White space is the XML `S` production: space, tab,
 * carriage return and line feed.
 */
module XPathText {

  predicate IsXmlSpace(c: char) {
    c == ' ' || c == '\t' || c == '\r' || c == '\n'
  }

  /** Where the scan stands: before the first word, inside a word, or after white space that follows a word. */
  datatype Scan = Start | InWord | AfterSpace

  function Collapse(s: string, st: Scan): string
    decreases |s|
  {
    if s == [] then ""
    else if IsXmlSpace(s[0]) then Collapse(s[1..], if st == Start then Start else AfterSpace)
    else (if st == AfterSpace then " " else "") + [s[0]] + Collapse(s[1..], InWord)
  }

  function NormalizeSpace(s: string): string {
    Collapse(s, Start)
  }

  /** No tab, CR or LF, no trailing space and no two spaces in a row. */
  ghost predicate Collapsed(r: string) {
    && (forall i :: 0 <= i < |r| ==> IsXmlSpace(r[i]) ==> r[i] == ' ')
    && (forall i :: 0 <= i < |r| - 1 ==> r[i] == ' ' ==> r[i + 1] != ' ')
    && (|r| > 0 ==> r[|r| - 1] != ' ')
  }

  /** What normalize-space promises: no leading space and the properties of `Collapsed`. */
  ghost predicate Normalized(r: string) {
    Collapsed(r) && (|r| > 0 ==> r[0] != ' ')
  }

  lemma {:induction false} CollapseShape(s: string, st: Scan)
    ensures Collapsed(Collapse(s, st))
    ensures st == Start && |Collapse(s, st)| > 0 ==> Collapse(s, st)[0] != ' '
    decreases |s|
  {
    if s != [] {
      if IsXmlSpace(s[0]) {
        CollapseShape(s[1..], if st == Start then Start else AfterSpace);
      } else {
        var tail := Collapse(s[1..], InWord);
        CollapseShape(s[1..], InWord);
        var head := (if st == AfterSpace then " " else "") + [s[0]];
        var r := head + tail;
        assert r == Collapse(s, st);
        forall i | 0 <= i < |r| - 1 ensures r[i] == ' ' ==> r[i + 1] != ' ' {
          if i >= |head| {
            assert r[i] == tail[i - |head|] && r[i + 1] == tail[i + 1 - |head|];
          } else if i == |head| - 1 {
            assert r[i] == s[0];
          } else {
            assert r[i + 1] == s[0];
          }
        }
        forall i | 0 <= i < |r| ensures IsXmlSpace(r[i]) ==> r[i] == ' ' {
          if i >= |head| {
            assert r[i] == tail[i - |head|];
          }
        }
        if |tail| > 0 {
          assert r[|r| - 1] == tail[|tail| - 1];
        }
      }
    }
  }

  /** The result of normalize-space has no leading, trailing, doubled or non-space white space. */
  lemma NormalizeSpaceNormalized(s: string)
    ensures Normalized(NormalizeSpace(s))
  {
    CollapseShape(s, Start);
  }

  /** A collapsed string is left unchanged by a scan that starts inside a word. */
  lemma {:induction false} CollapseFixpoint(r: string)
    requires Collapsed(r)
    ensures Collapse(r, InWord) == r
    decreases |r|
  {
    if r != [] {
      assert Collapsed(r[1..]);
      if IsXmlSpace(r[0]) {
        assert |r| > 1 && r[1] != ' ' && !IsXmlSpace(r[1]);
        var rest := r[2..];
        assert Collapsed(rest) by {
          assert forall i :: 0 <= i < |rest| ==> rest[i] == r[i + 2];
        }
        CollapseFixpoint(rest);
        assert r[1..][1..] == rest;
        assert Collapse(r[1..], AfterSpace) == " " + [r[1]] + rest;
        assert r == [r[0]] + [r[1]] + rest;
      } else {
        CollapseFixpoint(r[1..]);
        assert r == [r[0]] + r[1..];
      }
    }
  }

  // ---------------------------------------------------------------------------
  // What normalize-space keeps: the words of its argument, in order

  /** The string without its leading white space. */
  function SkipSpace(s: string): (r: string)
    ensures |r| <= |s| && r == s[|s| - |r|..]
    ensures |r| == 0 || !IsXmlSpace(r[0])
    decreases |s|
  {
    if |s| > 0 && IsXmlSpace(s[0]) then SkipSpace(s[1..]) else s
  }

  /** The longest prefix of the string holding no white space. */
  function WordPrefix(s: string): (r: string)
    ensures |r| <= |s| && r == s[..|r|]
    ensures forall i :: 0 <= i < |r| ==> !IsXmlSpace(r[i])
    ensures |r| == |s| || IsXmlSpace(s[|r|])
    decreases |s|
  {
    if |s| == 0 || IsXmlSpace(s[0]) then [] else [s[0]] + WordPrefix(s[1..])
  }

  /** A non-empty run of characters none of which is white space. */
  predicate IsWord(w: string) {
    |w| > 0 && forall i :: 0 <= i < |w| ==> !IsXmlSpace(w[i])
  }

  /** The maximal runs of non-white-space characters, left to right. */
  function Words(s: string): seq<string>
    decreases |s|
  {
    var t := SkipSpace(s);
    if |t| == 0 then []
    else
      var w := WordPrefix(t);
      [w] + Words(t[|w|..])
  }

  /** Every word is non-empty and free of white space. */
  lemma {:induction false} WordsAreWords(s: string)
    ensures forall k :: 0 <= k < |Words(s)| ==> IsWord(Words(s)[k])
    decreases |s|
  {
    var t := SkipSpace(s);
    if |t| > 0 {
      var w := WordPrefix(t);
      var rest := Words(t[|w|..]);
      WordsAreWords(t[|w|..]);
      WordsCons(s);
      assert IsWord(w);
      forall k | 0 < k < |Words(s)| ensures IsWord(Words(s)[k]) {
        assert Words(s)[k] == rest[k - 1];
      }
    }
  }

  /** The words, one space between each two. */
  function Join(ws: seq<string>): string
    decreases |ws|
  {
    if |ws| == 0 then "" else ws[0] + (if |ws| == 1 then "" else " " + Join(ws[1..]))
  }

  /** The words after a separating space, or nothing when there are none. */
  function Separated(ws: seq<string>): string {
    if |ws| == 0 then "" else " " + Join(ws)
  }

  /** Leading white space only decides whether a separator is owed. */
  lemma {:induction false} CollapseSkip(s: string, st: Scan)
    ensures Collapse(s, st) ==
            Collapse(SkipSpace(s), if st == Start || |SkipSpace(s)| == |s| then st else AfterSpace)
    decreases |s|
  {
    if |s| > 0 && IsXmlSpace(s[0]) {
      CollapseSkip(s[1..], if st == Start then Start else AfterSpace);
    }
  }

  /** Inside a word, the rest of the word is copied whole. */
  lemma {:induction false} CollapseWord(t: string)
    requires |t| > 0 && !IsXmlSpace(t[0])
    ensures Collapse(t, InWord) == WordPrefix(t) + Collapse(t[|WordPrefix(t)|..], InWord)
    decreases |t|
  {
    var w := WordPrefix(t);
    var tail := t[1..];
    assert w == [t[0]] + WordPrefix(tail);
    assert Collapse(t, InWord) == [t[0]] + Collapse(tail, InWord);
    if |tail| > 0 && !IsXmlSpace(tail[0]) {
      CollapseWord(tail);
      assert tail[|WordPrefix(tail)|..] == t[|w|..];
    } else {
      assert tail == t[|w|..];
    }
  }

  /** A word starts the same in every state, after a space only when one is owed. */
  lemma CollapseWordStart(t: string)
    requires |t| > 0 && !IsXmlSpace(t[0])
    ensures Collapse(t, Start) == Collapse(t, InWord)
    ensures Collapse(t, AfterSpace) == " " + Collapse(t, InWord)
  {
    var x := Collapse(t[1..], InWord);
    assert Collapse(t, InWord) == "" + [t[0]] + x;
    assert Collapse(t, Start) == "" + [t[0]] + x;
    assert Collapse(t, AfterSpace) == " " + [t[0]] + x;
    assert "" + [t[0]] + x == [t[0]] + x;
    assert " " + [t[0]] + x == " " + ([t[0]] + x);
  }

  /**
   * The scan spells out the words of what is left, each after one space
   * except for the first word of the string.
   */
  lemma {:induction false} CollapseWords(s: string)
    ensures Collapse(s, Start) == Join(Words(s))
    ensures Collapse(s, AfterSpace) == Separated(Words(s))
    ensures |s| == 0 || IsXmlSpace(s[0]) ==> Collapse(s, InWord) == Separated(Words(s))
    decreases |s|
  {
    var t := SkipSpace(s);
    CollapseSkip(s, Start);
    CollapseSkip(s, AfterSpace);
    assert Collapse(s, Start) == Collapse(t, Start);
    assert Collapse(s, AfterSpace) == Collapse(t, AfterSpace);
    if |s| > 0 && IsXmlSpace(s[0]) {
      CollapseSkip(s[1..], AfterSpace);
      assert SkipSpace(s[1..]) == t;
      assert Collapse(s, InWord) == Collapse(s[1..], AfterSpace);
    }
    if |t| == 0 {
      assert Words(s) == [];
    } else {
      var w := WordPrefix(t);
      var rest := t[|w|..];
      assert |rest| == 0 || IsXmlSpace(rest[0]);
      CollapseWords(rest);
      var after := Separated(Words(rest));
      CollapseWord(t);
      assert Collapse(t, InWord) == w + after;
      CollapseWordStart(t);
      WordsCons(s);
      JoinCons(w, Words(rest));
    }
  }

  lemma WordsCons(s: string)
    requires |SkipSpace(s)| > 0
    ensures var t := SkipSpace(s); var w := WordPrefix(t);
            Words(s) == [w] + Words(t[|w|..])
  {
  }

  lemma JoinCons(w: string, ws: seq<string>)
    ensures Join([w] + ws) == w + Separated(ws)
    ensures Separated([w] + ws) == " " + w + Separated(ws)
  {
    assert ([w] + ws)[0] == w;
    assert ([w] + ws)[1..] == ws;
  }

  /**
   * normalize-space keeps exactly the words of its argument, in order, and
   * puts one space between each two.
   */
  lemma NormalizeSpaceWords(s: string)
    ensures NormalizeSpace(s) == Join(Words(s))
  {
    CollapseWords(s);
  }

  /** normalize-space leaves a normalized string as it is; hence it is idempotent. */
  lemma {:induction false} NormalizeSpaceFixpoint(r: string)
    requires Normalized(r)
    ensures NormalizeSpace(r) == r
  {
    if r != [] {
      assert !IsXmlSpace(r[0]);
      assert Collapsed(r[1..]);
      CollapseFixpoint(r[1..]);
      assert r == [r[0]] + r[1..];
    }
  }

  lemma NormalizeSpaceIdempotent(s: string)
    ensures NormalizeSpace(NormalizeSpace(s)) == NormalizeSpace(s)
  {
    NormalizeSpaceNormalized(s);
    NormalizeSpaceFixpoint(NormalizeSpace(s));
  }
}
