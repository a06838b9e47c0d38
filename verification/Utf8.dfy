/** UTF-8 validity (section 3 of RFC 3629) and the replacement that JSON encoding
    makes of bytes that are not UTF-8. */
module Utf8 {
  import opened Bytes

  const REPLACEMENT: bytes := [0xEF, 0xBF, 0xBD]

  predicate Continues(b: byte) {
    0x80 <= b <= 0xBF
  }

  /** The length of the well-formed character at the start, or 0. */
  function RuneSize(s: bytes): (n: nat)
    ensures n <= |s| && n <= 4
  {
    if s == [] then 0
    else if s[0] < 0x80 then 1
    else if |s| >= 2 && 0xC2 <= s[0] <= 0xDF && Continues(s[1]) then 2
    else if |s| >= 3 && 0xE0 <= s[0] <= 0xEF && Continues(s[1]) && Continues(s[2])
            && (s[0] == 0xE0 ==> s[1] >= 0xA0) && (s[0] == 0xED ==> s[1] <= 0x9F) then 3
    else if |s| >= 4 && 0xF0 <= s[0] <= 0xF4 && Continues(s[1]) && Continues(s[2]) && Continues(s[3])
            && (s[0] == 0xF0 ==> s[1] >= 0x90) && (s[0] == 0xF4 ==> s[1] <= 0x8F) then 4
    else 0
  }

  predicate Valid(s: bytes)
    decreases |s|
  {
    s == [] || (RuneSize(s) > 0 && Valid(s[RuneSize(s)..]))
  }

  /** Each byte that starts no well-formed character becomes U+FFFD. */
  function Sanitize(s: bytes): bytes
    decreases |s|
  {
    if s == [] then []
    else if RuneSize(s) == 0 then REPLACEMENT + Sanitize(s[1..])
    else s[..RuneSize(s)] + Sanitize(s[RuneSize(s)..])
  }

  lemma {:induction false} SanitizeGrows(s: bytes)
    ensures |Sanitize(s)| >= |s|
    decreases |s|
  {
    if s != [] {
      SanitizeGrows(if RuneSize(s) == 0 then s[1..] else s[RuneSize(s)..]);
    }
  }

  /** Sanitizing changes nothing exactly on valid UTF-8. */
  lemma {:induction false} SanitizeIsIdentityIffValid(s: bytes)
    ensures Sanitize(s) == s <==> Valid(s)
    decreases |s|
  {
    if s != [] {
      var n := RuneSize(s);
      if n == 0 {
        assert Sanitize(s)[0] == 0xEF && Sanitize(s)[1] == 0xBF && Sanitize(s)[2] == 0xBD;
        assert |s| < 3 || s[0] != 0xEF || s[1] != 0xBF || s[2] != 0xBD;
      } else {
        SanitizeIsIdentityIffValid(s[n..]);
        assert s == s[..n] + s[n..];
        if Sanitize(s) == s { SplitEqual(s[..n], Sanitize(s[n..]), s[..n], s[n..]); }
      }
    }
  }

  /** What sanitizing gives is valid. */
  lemma {:induction false} SanitizeIsValid(s: bytes)
    ensures Valid(Sanitize(s))
    decreases |s|
  {
    if s != [] {
      var n := RuneSize(s);
      var first := if n == 0 then REPLACEMENT else s[..n];
      var rest := if n == 0 then s[1..] else s[n..];
      SanitizeIsValid(rest);
      assert RuneSize(first + Sanitize(rest)) == |first|;
      assert (first + Sanitize(rest))[|first|..] == Sanitize(rest);
    }
  }

  /** An ASCII prefix is there after sanitizing exactly if it was there before. */
  lemma {:induction false} SanitizeKeepsAsciiPrefix(s: bytes, prefix: bytes)
    requires forall i :: 0 <= i < |prefix| ==> prefix[i] < 0x80
    ensures prefix <= Sanitize(s) <==> prefix <= s
    decreases |prefix|
  {
    if prefix != [] {
      assert prefix[0] < 0x80;
      if s != [] && s[0] == prefix[0] {
        assert RuneSize(s) == 1;
        SanitizeKeepsAsciiPrefix(s[1..], prefix[1..]);
        assert Sanitize(s) == [s[0]] + Sanitize(s[1..]);
        Uncons(prefix, Sanitize(s));
        Uncons(prefix, s);
      } else if s != [] {
        assert RuneSize(s) == 0 ==> Sanitize(s)[0] == 0xEF;
        assert RuneSize(s) > 0 ==> Sanitize(s)[0] == s[0];
      }
    }
  }

  lemma Uncons(p: bytes, s: bytes)
    requires p != [] && s != [] && p[0] == s[0]
    ensures p <= s <==> p[1..] <= s[1..]
  {
    assert p == [p[0]] + p[1..] && s == [s[0]] + s[1..];
  }
}
