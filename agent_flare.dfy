/**
 * The answer the flare command accepts before it uploads the archive:
 * `Agent.flare` reads a line, strips it, lowers it, and goes on only for
 * "yes", "y" or an empty answer.
 */
module AgentFlare {
  /** The characters `str.strip()` removes, as far as this model goes: space, tab, LF, CR, VT and FF. */
  predicate IsSpace(c: char) {
    c == ' ' || c == '\t' || c == '\n' || c == '\r' || c == '\U{000B}' || c == '\U{000C}'
  }

  /** `s.lstrip()`: the suffix of `s` left once its leading white space is removed. */
  function StripStart(s: string): (r: string)
    ensures |r| <= |s| && r == s[|s| - |r|..]
    ensures forall i :: 0 <= i < |s| - |r| ==> IsSpace(s[i])
    ensures |r| == 0 || !IsSpace(r[0])
  {
    if |s| > 0 && IsSpace(s[0]) then
      StripStart(s[1..])
    else s
  }

  /** `s.rstrip()`: the prefix of `s` left once its trailing white space is removed. */
  function StripEnd(s: string): (r: string)
    ensures |r| <= |s| && r == s[..|r|]
    ensures forall i :: |r| <= i < |s| ==> IsSpace(s[i])
    ensures |r| == 0 || !IsSpace(r[|r| - 1])
  {
    if |s| > 0 && IsSpace(s[|s| - 1]) then
      StripEnd(s[..|s| - 1])
    else s
  }

  /**
   * `s.strip()`: what is left of `s` once white space is removed from both
   * ends (`StripStart` and `StripEnd` say which slice that is).
   */
  function Strip(s: string): (r: string)
    ensures |r| <= |s|
    ensures |r| == 0 || (!IsSpace(r[0]) && !IsSpace(r[|r| - 1]))
  {
    var left := StripStart(s);
    var r := StripEnd(left);
    assert |r| > 0 ==> r[0] == left[0];
    r
  }

  function LowerChar(c: char): char {
    if 'A' <= c <= 'Z' then (c as int - 'A' as int + 'a' as int) as char else c
  }

  /** `s.lower()`, for ASCII letters. */
  function Lower(s: string): (r: string)
    ensures |r| == |s| && forall i {:trigger r[i]} :: 0 <= i < |s| ==> r[i] == LowerChar(s[i])
  {
    if |s| == 0 then [] else [LowerChar(s[0])] + Lower(s[1..])
  }

  /** The answer to "Do you want to continue [Y/n]?" that lets the flare be uploaded. */
  predicate FlareConfirmed(choice: string) {
    Lower(Strip(choice)) in ["yes", "y", ""]
  }

  /** Lowering leaves white space where it is, so it commutes with stripping. */
  lemma {:induction false} StripLower(s: string)
    ensures Strip(Lower(s)) == Lower(Strip(s))
  {
    StripStartLower(s);
    StripEndLower(StripStart(s));
  }

  lemma {:induction false} StripStartLower(s: string)
    ensures StripStart(Lower(s)) == Lower(StripStart(s))
    decreases |s|
  {
    if |s| > 0 {
      var l := Lower(s);
      LowerCharSpace(s[0]);
      if IsSpace(s[0]) {
        LowerTail(s);
        StripStartLower(s[1..]);
      }
    }
  }

  lemma LowerTail(s: string)
    requires |s| > 0
    ensures Lower(s)[1..] == Lower(s[1..])
  {
    assert Lower(s) == [LowerChar(s[0])] + Lower(s[1..]);
  }

  lemma {:induction false} StripEndLower(s: string)
    ensures StripEnd(Lower(s)) == Lower(StripEnd(s))
    decreases |s|
  {
    if |s| > 0 {
      var l := Lower(s);
      LowerCharSpace(s[|s| - 1]);
      if IsSpace(s[|s| - 1]) {
        LowerInit(s);
        StripEndLower(s[..|s| - 1]);
      }
    }
  }

  lemma {:induction false} LowerInit(s: string)
    requires |s| > 0
    ensures Lower(s)[..|s| - 1] == Lower(s[..|s| - 1])
    decreases |s|
  {
    if |s| > 1 {
      var rest := s[1..];
      LowerInit(rest);
      assert s[..|s| - 1] == [s[0]] + rest[..|rest| - 1];
      LowerTail(s[..|s| - 1]);
      assert s[..|s| - 1][1..] == rest[..|rest| - 1];
      assert Lower(s) == [LowerChar(s[0])] + Lower(rest);
    }
  }

  /** Lowering maps white space to itself and anything else to something else. */
  lemma LowerCharSpace(c: char)
    ensures IsSpace(LowerChar(c)) == IsSpace(c)
  {
  }

  lemma LowerIdempotent(s: string)
    ensures Lower(Lower(s)) == Lower(s)
  {
  }

  /**
   * The confirmation ignores case and surrounding white space: an answer is
   * accepted exactly when its lowered form is.
   */
  lemma FlareConfirmedIgnoresCase(choice: string)
    ensures FlareConfirmed(Lower(choice)) <==> FlareConfirmed(choice)
  {
    StripLower(choice);
    LowerIdempotent(Strip(choice));
  }

  /** An answer of nothing but white space, pressing enter among them, confirms. */
  lemma BlankAnswerConfirms(choice: string)
    requires forall i :: 0 <= i < |choice| ==> IsSpace(choice[i])
    ensures FlareConfirmed(choice)
  {
    assert |StripStart(choice)| == 0;
    assert Lower(Strip(choice)) == [];
  }

  /** An answer whose first visible letter is an n, in either case, aborts. */
  lemma NoAnswerAborts(choice: string)
    requires |Strip(choice)| > 0 && (Strip(choice)[0] == 'n' || Strip(choice)[0] == 'N')
    ensures !FlareConfirmed(choice)
  {
    assert Lower(Strip(choice))[0] == 'n';
  }

  /** Stripping an answer that is already stripped changes nothing. */
  lemma StripIdempotent(s: string)
    ensures Strip(Strip(s)) == Strip(s)
  {
    var r := Strip(s);
    assert StripStart(r) == r;
    assert StripEnd(r) == r;
  }

  /** The confirmation ignores white space around the answer. */
  lemma FlareConfirmedIgnoresSpace(choice: string)
    ensures FlareConfirmed(Strip(choice)) <==> FlareConfirmed(choice)
  {
    StripIdempotent(choice);
  }
}
