/**
 * Python's `str.isspace` and `str.strip()` (no argument), which the command
 * line tool applies to every session token it accepts.
 */
module PyText {

  /** The characters Python 3 treats as whitespace: the ASCII controls TAB to
      CR, the four separators 0x1C-0x1F, SPACE, NEL, NO-BREAK SPACE and the
      Unicode space separators and line/paragraph separators. */
  predicate IsSpace(c: char) {
    var u := c as int;
    || 9 <= u <= 13
    || 28 <= u <= 32
    || u == 0x85 || u == 0xA0 || u == 0x1680
    || 0x2000 <= u <= 0x200A
    || u == 0x2028 || u == 0x2029 || u == 0x202F || u == 0x205F || u == 0x3000
  }

  predicate AllSpace(s: string) {
    forall i :: 0 <= i < |s| ==> IsSpace(s[i])
  }

  /** Neither end of `s` is whitespace: what `strip()` always returns. */
  predicate IsStripped(s: string) {
    s == [] || (!IsSpace(s[0]) && !IsSpace(s[|s| - 1]))
  }

  /** `lstrip()`: the suffix left after the leading whitespace. */
  function StripStart(s: string): (r: string)
    ensures |r| <= |s| && r == s[|s| - |r|..]
    ensures AllSpace(s[..|s| - |r|])
    ensures r == [] || !IsSpace(r[0])
    ensures AllSpace(s) ==> r == []
    decreases |s|
  {
    if s != [] && IsSpace(s[0]) then
      assert AllSpace(s) ==> AllSpace(s[1..]) by {
        if AllSpace(s) {
          forall i | 0 <= i < |s| - 1 ensures IsSpace(s[1..][i]) {
            assert s[1..][i] == s[i + 1];
          }
        }
      }
      StripStart(s[1..])
    else
      s
  }

  /** `rstrip()`: the prefix left before the trailing whitespace. */
  function StripEnd(s: string): (r: string)
    ensures |r| <= |s| && r == s[..|r|]
    ensures AllSpace(s[|r|..])
    ensures r == [] || !IsSpace(r[|r| - 1])
    ensures r == [] <==> AllSpace(s)
    decreases |s|
  {
    if s != [] && IsSpace(s[|s| - 1]) then
      var r := StripEnd(s[..|s| - 1]);
      assert AllSpace(s) <==> AllSpace(s[..|s| - 1]) by {
        if AllSpace(s[..|s| - 1]) {
          forall i | 0 <= i < |s| ensures IsSpace(s[i]) {
            if i < |s| - 1 { assert s[i] == s[..|s| - 1][i]; }
          }
        }
      }
      r
    else
      s
  }

  /** `strip()`: both ends are non-blank afterwards, only an all-blank string
      strips to nothing, and a string already stripped is returned as is. */
  function Strip(s: string): (r: string)
    ensures |r| <= |s|
    ensures IsStripped(r)
    ensures r == [] <==> AllSpace(s)
    ensures IsStripped(s) ==> r == s
  {
    StripBlankIff(s);
    StripKeepsStripped(s);
    StripEnd(StripStart(s))
  }

  lemma StripBlankIff(s: string)
    ensures StripEnd(StripStart(s)) == [] <==> AllSpace(s)
  {
    var t := StripStart(s);
    assert AllSpace(t) ==> t == [];
    assert t == [] ==> s[..|s|] == s;
  }

  lemma StripKeepsStripped(s: string)
    ensures IsStripped(StripEnd(StripStart(s)))
    ensures IsStripped(s) ==> StripEnd(StripStart(s)) == s
  {
  }

  /** What `strip()` removes is whitespace and nothing else: the input is the
      result with a blank prefix and a blank suffix around it. */
  lemma StripDecomposes(s: string) returns (lead: string, trail: string)
    ensures s == lead + Strip(s) + trail
    ensures AllSpace(lead) && AllSpace(trail)
  {
    var t := StripStart(s);
    var r := StripEnd(t);
    lead, trail := s[..|s| - |t|], t[|r|..];
    SplitJoin(s, |s| - |t|);
    SplitJoin(t, |r|);
    JoinThree(lead, r, trail);
  }

  lemma SplitJoin(s: string, k: nat)
    requires k <= |s|
    ensures s[..k] + s[k..] == s
  {
  }

  lemma JoinThree(a: string, b: string, c: string)
    ensures a + (b + c) == a + b + c
  {
  }

  /** Stripping twice is stripping once. */
  lemma StripIdempotent(s: string)
    ensures Strip(Strip(s)) == Strip(s)
  {
  }
}
