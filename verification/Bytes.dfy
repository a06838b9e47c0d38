/** Byte strings and the fixed-width big-endian integers every wire format of
    the system is built from. */
module Bytes {

  type byte = x: int | 0 <= x < 256
  type bytes = seq<byte>

  datatype Option<+T> = None | Some(value: T)

  predicate NoDuplicates(s: seq<string>) {
    forall i, j :: 0 <= i < j < |s| ==> s[i] != s[j]
  }

  /** Lexicographic order of strings. */
  predicate AtMost(a: string, b: string) {
    a == [] || (b != [] && (a[0] < b[0] || (a[0] == b[0] && AtMost(a[1..], b[1..]))))
  }

  lemma {:induction false} AtMostTotal(a: string, b: string)
    ensures AtMost(a, b) || AtMost(b, a)
    ensures AtMost(a, b) && AtMost(b, a) ==> a == b
    decreases |a|
  {
    if a != [] && b != [] && a[0] == b[0] {
      AtMostTotal(a[1..], b[1..]);
      assert a == [a[0]] + a[1..] && b == [b[0]] + b[1..];
    }
  }

  lemma {:induction false} AtMostTransitive(a: string, b: string, c: string)
    requires AtMost(a, b) && AtMost(b, c)
    ensures AtMost(a, c)
    decreases |a|
  {
    if a != [] && a[0] == b[0] && b[0] == c[0] { AtMostTransitive(a[1..], b[1..], c[1..]); }
  }

  /** Different names, one for each number. */
  function Name(i: nat): string {
    seq(i + 1, _ => 'x')
  }

  lemma NamesDiffer(i: nat, j: nat)
    ensures Name(i) == Name(j) <==> i == j
  {
    assert |Name(i)| == i + 1 && |Name(j)| == j + 1;
  }

  /** The bytes of an ASCII literal. */
  function Ascii(s: string): (b: bytes)
    ensures |b| == |s|
  {
    seq(|s|, i requires 0 <= i < |s| => s[i] as int % 0x80)
  }

  lemma AsciiIsAscii(s: string)
    ensures forall i :: 0 <= i < |s| ==> Ascii(s)[i] < 0x80
  {
  }

  function Pow256(w: nat): (p: nat)
    ensures p > 0
  {
    if w == 0 then 1 else 256 * Pow256(w - 1)
  }

  /** `n` in `w` big-endian bytes; higher bytes are cut off, as in a Go conversion. */
  function BigEndian(n: nat, w: nat): (b: bytes)
    ensures |b| == w
  {
    if w == 0 then [] else BigEndian(n / 256, w - 1) + [n % 256]
  }

  function Value(b: bytes): (n: nat)
    ensures n < Pow256(|b|)
  {
    if b == [] then 0
    else
      assert Value(b[..|b| - 1]) <= Pow256(|b| - 1) - 1;
      256 * Value(b[..|b| - 1]) + b[|b| - 1]
  }

  lemma {:induction false} ValueOfBigEndian(n: nat, w: nat)
    requires n < Pow256(w)
    ensures Value(BigEndian(n, w)) == n
  {
    if w > 0 {
      ValueOfBigEndian(n / 256, w - 1);
      assert BigEndian(n, w)[..w - 1] == BigEndian(n / 256, w - 1);
    }
  }

  lemma {:induction false} BigEndianOfValue(b: bytes)
    ensures BigEndian(Value(b), |b|) == b
  {
    if b != [] {
      var init, last := b[..|b| - 1], b[|b| - 1];
      BigEndianOfValue(init);
      assert Value(b) == 256 * Value(init) + last;
      assert Value(b) / 256 == Value(init) && Value(b) % 256 == last;
      assert b == init + [last];
    }
  }

  function Flatten(parts: seq<bytes>): bytes {
    if parts == [] then [] else parts[0] + Flatten(parts[1..])
  }

  lemma {:induction false} FlattenAppend(parts: seq<bytes>, p: bytes)
    ensures Flatten(parts + [p]) == Flatten(parts) + p
    decreases |parts|
  {
    if parts == [] {
      assert ([] + [p])[1..] == [];
    } else {
      assert (parts + [p])[0] == parts[0] && (parts + [p])[1..] == parts[1..] + [p];
      FlattenAppend(parts[1..], p);
    }
  }

  lemma BigEndianInjective(m: nat, n: nat, w: nat)
    requires m < Pow256(w) && n < Pow256(w)
    requires BigEndian(m, w) == BigEndian(n, w)
    ensures m == n
  {
    ValueOfBigEndian(m, w);
    ValueOfBigEndian(n, w);
  }

  lemma Powers()
    ensures Pow256(4) == 0x1_0000_0000
    ensures Pow256(8) == 0x1_0000_0000_0000_0000
  {
    assert Pow256(2) == 0x1_0000;
    assert Pow256(4) == 256 * (256 * Pow256(2));
    assert Pow256(6) == 256 * (256 * Pow256(4));
  }

  /** Concatenations whose left parts have equal length agree only part by part. */
  lemma SplitEqual<T>(a: seq<T>, b: seq<T>, c: seq<T>, d: seq<T>)
    requires |a| == |c| && a + b == c + d
    ensures a == c && b == d
  {
    assert a == (a + b)[..|a|] && b == (a + b)[|a|..];
    assert c == (c + d)[..|c|] && d == (c + d)[|c|..];
  }

  function U32(n: nat): bytes {
    BigEndian(n, 4)
  }

  /** A field: its length in 32 bits, higher bits cut off, then its bytes. */
  function Field(v: bytes): bytes {
    U32(|v|) + v
  }

  const FOUR_GIB := 0x1_0000_0000

  /** Fields below 4 GiB can be told apart wherever they are followed by anything. */
  lemma FieldPrefixFree(v: bytes, w: bytes, a: bytes, b: bytes)
    requires |v| < FOUR_GIB && |w| < FOUR_GIB && Field(v) + a == Field(w) + b
    ensures v == w && a == b
  {
    Powers();
    assert Field(v) + a == U32(|v|) + (v + a) && Field(w) + b == U32(|w|) + (w + b);
    SplitEqual(U32(|v|), v + a, U32(|w|), w + b);
    BigEndianInjective(|v|, |w|, 4);
    SplitEqual(v, a, w, b);
  }

  /** Without any bound, fields can be told apart when neither value is a proper prefix
      of the other: at 4 GiB the lengths may clash, but then the values do not. */
  lemma FieldsApart(v: bytes, w: bytes, a: bytes, b: bytes)
    requires Field(v) + a == Field(w) + b && !(v < w) && !(w < v)
    ensures v == w && a == b
  {
    assert Field(v) + a == U32(|v|) + (v + a) && Field(w) + b == U32(|w|) + (w + b);
    SplitEqual(U32(|v|), v + a, U32(|w|), w + b);
    OneContinues(v, a, w, b);
    SplitEqual(v, a, w, b);
  }

  lemma OneContinues(v: bytes, a: bytes, w: bytes, b: bytes)
    requires v + a == w + b
    ensures v <= w || w <= v
  {
    if |v| <= |w| {
      assert v == (v + a)[..|v|] == (w + b)[..|v|] == w[..|v|];
    } else {
      assert w == (w + b)[..|w|] == (v + a)[..|w|] == v[..|w|];
    }
  }
}
