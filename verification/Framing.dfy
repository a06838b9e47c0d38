/** The encoding under domain-separated signing frames (fabric/framing.go): a purpose, a
    zero byte and length-prefixed fields. */
module Framing {
  import opened Bytes

  const MAX_FRAME := 64 * 1024
  const MAX_TEXT := 4 * 1024

  // ---------------------------------------------------------------- fields

  function Packed(fields: seq<bytes>): bytes {
    if fields == [] then [] else Field(fields[0]) + Packed(fields[1..])
  }

  predicate Short(fields: seq<bytes>) {
    forall i :: 0 <= i < |fields| ==> |fields[i]| <= MAX_TEXT
  }

  function Framed(purpose: bytes, fields: seq<bytes>): bytes {
    purpose + [0] + Packed(fields)
  }

  /** A frame can be encoded when each field and the whole are within bounds. */
  predicate Fits(purpose: bytes, fields: seq<bytes>) {
    Short(fields) && |Framed(purpose, fields)| <= MAX_FRAME
  }

  lemma {:induction false} PackedAppend(a: seq<bytes>, f: bytes)
    ensures Packed(a + [f]) == Packed(a) + Field(f)
    decreases |a|
  {
    if a == [] {
      assert ([] + [f])[1..] == [];
    } else {
      assert (a + [f])[0] == a[0] && (a + [f])[1..] == a[1..] + [f];
      PackedAppend(a[1..], f);
    }
  }

  lemma PackedPrefix(fields: seq<bytes>, i: nat)
    requires i < |fields|
    ensures Packed(fields[..i + 1]) == Packed(fields[..i]) + Field(fields[i])
    ensures |Packed(fields[..i + 1])| <= |Packed(fields)|
  {
    assert fields[..i + 1] == fields[..i] + [fields[i]];
    PackedAppend(fields[..i], fields[i]);
    PackedGrows(fields, i + 1);
  }

  lemma {:induction false} PackedGrows(fields: seq<bytes>, i: nat)
    requires i <= |fields|
    ensures |Packed(fields[..i])| <= |Packed(fields)|
    decreases |fields|
  {
    if i > 0 {
      assert fields[..i][1..] == fields[1..][..i - 1];
      PackedGrows(fields[1..], i - 1);
    }
  }

  /** encodeSigningFields: the size loop, then the writing loop. */
  method EncodeFields(purpose: bytes, fields: seq<bytes>) returns (r: Option<bytes>)
    requires |purpose| < MAX_FRAME
    ensures r == if Fits(purpose, fields) then Some(Framed(purpose, fields)) else None
  {
    var size := |purpose| + 1;
    for i := 0 to |fields|
      invariant size == |purpose| + 1 + |Packed(fields[..i])| <= MAX_FRAME && Short(fields[..i])
    {
      PackedPrefix(fields, i);
      if |fields[i]| > MAX_TEXT || |fields[i]| > MAX_FRAME - size - 4 { return None; }
      size := size + 4 + |fields[i]|;
    }
    assert fields[..|fields|] == fields;
    var framed := purpose + [0];
    for i := 0 to |fields|
      invariant framed == purpose + [0] + Packed(fields[..i])
    {
      PackedPrefix(fields, i);
      framed := framed + Field(fields[i]);
    }
    return Some(framed);
  }

  /** Reading `count` fields from the front; what is left must be nothing. */
  function Unpack(raw: bytes, count: nat): Option<seq<bytes>>
    decreases count
  {
    if count == 0 then if raw == [] then Some([]) else None
    else if |raw| < 4 then None
    else
      var size := Value(raw[..4]);
      if size > MAX_TEXT || size > |raw| - 4 then None
      else match Unpack(raw[4 + size..], count - 1)
           case None => None
           case Some(rest) => Some([raw[4..4 + size]] + rest)
  }

  function DecodeFields(raw: bytes, purpose: bytes, count: nat): Option<seq<bytes>> {
    if |raw| > MAX_FRAME || !(purpose + [0] <= raw) then None else Unpack(raw[|purpose| + 1..], count)
  }

  /** What is still to be read decides the whole. */
  function Rest(raw: bytes, offset: nat, count: nat, fields: seq<bytes>): Option<seq<bytes>>
    requires offset <= |raw|
  {
    match Unpack(raw[offset..], count)
    case None => None
    case Some(more) => Some(fields + more)
  }

  /** The length of the field at an offset, if a whole one is there. */
  function FieldSize(raw: bytes, offset: nat): Option<nat>
    requires offset <= |raw|
  {
    if |raw| - offset < 4 then None
    else
      var size := Value(raw[offset..offset + 4]);
      if size > MAX_TEXT || size > |raw| - (offset + 4) then None else Some(size)
  }

  lemma RestStep(raw: bytes, offset: nat, count: nat, fields: seq<bytes>)
    requires offset <= |raw| && count > 0
    ensures match FieldSize(raw, offset)
            case None => Rest(raw, offset, count, fields) == None
            case Some(size) =>
              var next := offset + 4 + size;
              Rest(raw, next, count - 1, fields + [raw[offset + 4..next]]) == Rest(raw, offset, count, fields)
  {
    var rest := raw[offset..];
    if |rest| >= 4 {
      assert rest[..4] == raw[offset..offset + 4];
      var size := Value(rest[..4]);
      if size <= |rest| - 4 {
        var next := offset + 4 + size;
        assert rest[4 + size..] == raw[next..] && rest[4..4 + size] == raw[offset + 4..next];
        var more := Unpack(raw[next..], count - 1);
        assert more.Some? ==> fields + ([raw[offset + 4..next]] + more.value) == fields + [raw[offset + 4..next]] + more.value;
      }
    }
  }

  lemma RestEnds(raw: bytes, offset: nat, fields: seq<bytes>)
    requires offset <= |raw|
    ensures Rest(raw, offset, 0, fields) == if offset == |raw| then Some(fields) else None
  {
    assert fields + [] == fields;
  }

  lemma RestStarts(raw: bytes, offset: nat, count: nat)
    requires offset <= |raw|
    ensures Rest(raw, offset, count, []) == Unpack(raw[offset..], count)
  {
    var more := Unpack(raw[offset..], count);
    assert more.Some? ==> [] + more.value == more.value;
  }

  /** decodeSigningFields: one pass over the buffer with an offset. */
  method DecodeSigningFields(raw: bytes, purpose: bytes, count: nat) returns (r: Option<seq<bytes>>)
    ensures r == DecodeFields(raw, purpose, count)
  {
    var prefix := purpose + [0];
    if |raw| > MAX_FRAME || |raw| < |prefix| || raw[..|prefix|] != prefix { return None; }
    r := ReadFields(raw, |prefix|, count);
  }

  method ReadFields(raw: bytes, start: nat, count: nat) returns (r: Option<seq<bytes>>)
    requires start <= |raw|
    ensures r == Unpack(raw[start..], count)
  {
    var fields: seq<bytes>, offset: nat, i: nat := [], start, 0;
    RestStarts(raw, start, count);
    while i < count
      invariant i <= count && offset <= |raw|
      invariant Rest(raw, offset, count - i, fields) == Unpack(raw[start..], count)
    {
      RestStep(raw, offset, count - i, fields);
      var size := FieldSize(raw, offset);
      if size.None? { return None; }
      fields := fields + [raw[offset + 4..offset + 4 + size.value]];
      offset, i := offset + 4 + size.value, i + 1;
    }
    RestEnds(raw, offset, fields);
    r := if offset == |raw| then Some(fields) else None;
  }

  lemma {:induction false} UnpackOfPacked(fields: seq<bytes>)
    requires Short(fields)
    ensures Unpack(Packed(fields), |fields|) == Some(fields)
    decreases |fields|
  {
    if fields != [] {
      var raw, f := Packed(fields), fields[0];
      UnpackOfPacked(fields[1..]);
      Powers();
      ValueOfBigEndian(|f|, 4);
      assert raw == U32(|f|) + (f + Packed(fields[1..]));
      assert raw[..4] == U32(|f|) && raw[4..4 + |f|] == f && raw[4 + |f|..] == Packed(fields[1..]);
      assert [f] + fields[1..] == fields;
    }
  }

  lemma {:induction false} PackedOfUnpack(raw: bytes, count: nat)
    requires Unpack(raw, count).Some?
    ensures
      var fields := Unpack(raw, count).value;
      |fields| == count && Short(fields) && Packed(fields) == raw
    decreases count
  {
    if count > 0 {
      var size := Value(raw[..4]);
      var f, tail := raw[4..4 + size], raw[4 + size..];
      PackedOfUnpack(tail, count - 1);
      BigEndianOfValue(raw[..4]);
      assert Field(f) == raw[..4] + f;
      assert raw == Field(f) + tail;
      var rest := Unpack(tail, count - 1).value;
      assert ([f] + rest)[1..] == rest;
    }
  }

  /** Decoding accepts exactly the encodings of that purpose with that many fields, and
      returns the fields encoded. */
  lemma DecodeInvertsEncode(raw: bytes, purpose: bytes, fields: seq<bytes>)
    ensures DecodeFields(raw, purpose, |fields|) == Some(fields) <==> raw == Framed(purpose, fields) && Fits(purpose, fields)
  {
    var n := |purpose| + 1;
    if raw == Framed(purpose, fields) && Fits(purpose, fields) {
      assert purpose + [0] <= raw && raw[n..] == Packed(fields);
      UnpackOfPacked(fields);
    }
    if DecodeFields(raw, purpose, |fields|) == Some(fields) {
      PackedOfUnpack(raw[n..], |fields|);
      assert raw == raw[..n] + raw[n..];
    }
  }

  predicate NoZero(purpose: bytes) {
    forall i :: 0 <= i < |purpose| ==> purpose[i] != 0
  }

  /** Equal encodings have equal purposes and equal field lists, even if the numbers of
      fields were to differ. */
  lemma FramedInjective(p: bytes, a: seq<bytes>, q: bytes, b: seq<bytes>)
    requires NoZero(p) && NoZero(q) && Short(a) && Short(b) && Framed(p, a) == Framed(q, b)
    ensures p == q && a == b
  {
    var raw := Framed(p, a);
    assert raw[|p|] == 0 && raw[|q|] == 0;
    assert forall i :: 0 <= i < |p| ==> raw[i] == p[i];
    assert forall i :: 0 <= i < |q| ==> raw[i] == q[i];
    assert |p| == |q|;
    assert raw == p + ([0] + Packed(a)) && raw == q + ([0] + Packed(b));
    SplitEqual(p, [0] + Packed(a), q, [0] + Packed(b));
    SplitEqual([0], Packed(a), [0], Packed(b));
    PackedInjective(a, b);
  }

  lemma {:induction false} PackedInjective(a: seq<bytes>, b: seq<bytes>)
    requires Short(a) && Short(b) && Packed(a) == Packed(b)
    ensures a == b
    decreases |a|
  {
    if a != [] && b != [] {
      FieldPrefixFree(a[0], b[0], Packed(a[1..]), Packed(b[1..]));
      PackedInjective(a[1..], b[1..]);
      assert a == [a[0]] + a[1..] && b == [b[0]] + b[1..];
    }
  }
}
