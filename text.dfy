/** Python's str.strip() with no argument, which the serial listener applies to every decoded line. */
module Text {

  /** The characters Python 3 classes as whitespace (str.isspace()), i.e. those str.strip() removes. */
  predicate IsSpace(c: char) {
    ('\t' <= c <= '\r') || ('\U{1C}' <= c <= '\U{1F}') || c == ' '
    || c == '\U{85}' || c == '\U{A0}' || c == '\U{1680}'
    || ('\U{2000}' <= c <= '\U{200A}') || c == '\U{2028}' || c == '\U{2029}'
    || c == '\U{202F}' || c == '\U{205F}' || c == '\U{3000}'
  }

  predicate AllSpace(s: string) {
    forall i :: 0 <= i < |s| ==> IsSpace(s[i])
  }

  /** Drops whitespace from the front: what is left is a suffix of `s` that does not start with whitespace. */
  function StripLeading(s: string): (r: string)
    ensures |r| <= |s| && r == s[|s| - |r|..]
    ensures AllSpace(s[..|s| - |r|])
    ensures r != [] ==> !IsSpace(r[0])
  {
    if s != [] && IsSpace(s[0]) then StripLeading(s[1..]) else s
  }

  /** Drops whitespace from the back: what is left is a prefix of `s` that does not end with whitespace. */
  function StripTrailing(s: string): (r: string)
    ensures |r| <= |s| && r == s[..|r|]
    ensures AllSpace(s[|r|..])
    ensures r != [] ==> !IsSpace(r[|r| - 1])
  {
    if s != [] && IsSpace(s[|s| - 1]) then
      var r := StripTrailing(s[..|s| - 1]);
      assert s[|r|..] == s[..|s| - 1][|r|..] + [s[|s| - 1]];
      r
    else s
  }

  /** str.strip(): the longest slice of `s` that neither starts nor ends with whitespace,
      with only whitespace cut away on either side. */
  function Strip(s: string): (r: string)
    ensures r != [] ==> !IsSpace(r[0]) && !IsSpace(r[|r| - 1])
    ensures r == [] <==> AllSpace(s)
    ensures exists k :: 0 <= k <= |s| - |r| && r == s[k..k + |r|] && AllSpace(s[..k]) && AllSpace(s[k + |r|..])
  {
    var front := StripLeading(s);
    var r := StripTrailing(front);
    TrimmedBothEnds(s, front, r);
    r
  }

  /** Cutting whitespace off the front of `s` (leaving `front`) and then off the back of `front`
      (leaving `r`) leaves a slice of `s` with whitespace only around it. */
  lemma TrimmedBothEnds(s: string, front: string, r: string)
    requires |front| <= |s| && front == s[|s| - |front|..] && AllSpace(s[..|s| - |front|])
    requires front != [] ==> !IsSpace(front[0])
    requires |r| <= |front| && r == front[..|r|] && AllSpace(front[|r|..])
    ensures r != [] ==> !IsSpace(r[0])
    ensures r == s[|s| - |front|..|s| - |front| + |r|]
    ensures AllSpace(s[|s| - |front| + |r|..])
    ensures r == [] <==> AllSpace(s)
  {
    var k := |s| - |front|;
    assert s[k..k + |r|] == front[..|r|];
    assert s[k + |r|..] == front[|r|..];
    AllSpaceSplit(s, k);
    AllSpaceSplit(front, |r|);
    if r != [] {
      assert r[0] == front[0];
      assert !AllSpace(r);
    }
  }

  /** A string is all whitespace exactly when both parts of any split are. */
  lemma AllSpaceSplit(s: string, k: nat)
    requires k <= |s|
    ensures AllSpace(s) <==> AllSpace(s[..k]) && AllSpace(s[k..])
  {
    if AllSpace(s[..k]) && AllSpace(s[k..]) {
      forall i | 0 <= i < |s| ensures IsSpace(s[i]) {
        if i < k { assert s[i] == s[..k][i]; } else { assert s[i] == s[k..][i - k]; }
      }
    }
  }

  /** Stripping a stripped line changes nothing. */
  lemma StripIdempotent(s: string)
    ensures Strip(Strip(s)) == Strip(s)
  {
  }
}
