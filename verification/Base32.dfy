/** Canonical 52-character identities (fabric/ref.go): lower-case base32 without
    padding (section 6 of RFC 4648) of exactly 32 bytes. The bits of the bytes, with
    four zero bits after them, are read in groups of five: the base 32 digits of
    sixteen times the number the bytes stand for. */
module Base32 {
  import opened Bytes

  const ID_LENGTH := 52

  function Pow32(w: nat): (p: nat)
    ensures p > 0
  {
    if w == 0 then 1 else 32 * Pow32(w - 1)
  }

  function Digits(n: nat, w: nat): (d: seq<nat>)
    ensures |d| == w && forall i :: 0 <= i < w ==> d[i] < 32
  {
    if w == 0 then [] else Digits(n / 32, w - 1) + [n % 32]
  }

  function Number(d: seq<nat>): nat {
    if d == [] then 0 else 32 * Number(d[..|d| - 1]) + d[|d| - 1]
  }

  lemma {:induction false} NumberOfDigits(n: nat, w: nat)
    requires n < Pow32(w)
    ensures Number(Digits(n, w)) == n
  {
    if w > 0 {
      NumberOfDigits(n / 32, w - 1);
      assert Digits(n, w)[..w - 1] == Digits(n / 32, w - 1);
    }
  }

  lemma {:induction false} DigitsOfNumber(d: seq<nat>)
    requires forall i :: 0 <= i < |d| ==> d[i] < 32
    ensures Digits(Number(d), |d|) == d && Number(d) < Pow32(|d|)
  {
    if d != [] {
      DigitsOfNumber(d[..|d| - 1]);
      assert d == d[..|d| - 1] + [d[|d| - 1]];
    }
  }

  lemma PowersStep(n: nat)
    ensures Pow32(n + 8) == 0x100_0000_0000 * Pow32(n)
    ensures Pow256(n + 5) == 0x100_0000_0000 * Pow256(n)
  {
    assert Pow32(n + 2) == 1024 * Pow32(n);
    assert Pow32(n + 4) == 1024 * Pow32(n + 2);
    assert Pow32(n + 6) == 1024 * Pow32(n + 4);
    assert Pow32(n + 8) == 1024 * Pow32(n + 6);
    assert Pow256(n + 2) == 0x1_0000 * Pow256(n);
    assert Pow256(n + 4) == 0x1_0000 * Pow256(n + 2);
  }

  lemma {:induction false} PowersMatch(k: nat)
    ensures Pow32(8 * k) == Pow256(5 * k)
  {
    if k > 0 {
      PowersMatch(k - 1);
      PowersStep(8 * (k - 1));
      PowersStep(5 * (k - 1));
    }
  }

  /** 52 digits hold exactly the 256 bits and the four zero bits. */
  lemma IdCapacity()
    ensures Pow32(ID_LENGTH) == 16 * Pow256(32)
  {
    PowersMatch(6);
    assert Pow32(50) == 1024 * Pow32(48);
    assert Pow32(52) == 1024 * Pow32(50);
    assert Pow256(32) == 0x1_0000 * Pow256(30);
  }

  // ---------------------------------------------------------------- letters

  predicate Letter(c: byte) {
    97 <= c <= 122 || 50 <= c <= 55
  }

  function LetterOf(d: nat): (c: byte)
    requires d < 32
    ensures Letter(c)
  {
    if d < 26 then 97 + d else 50 + (d - 26)
  }

  function DigitOf(c: byte): (d: nat)
    requires Letter(c)
    ensures d < 32 && LetterOf(d) == c
  {
    if c >= 97 then c - 97 else c - 50 + 26
  }

  predicate Letters(text: bytes) {
    forall i :: 0 <= i < |text| ==> Letter(text[i])
  }

  function Spell(d: seq<nat>): (text: bytes)
    requires forall i :: 0 <= i < |d| ==> d[i] < 32
    ensures |text| == |d| && Letters(text)
  {
    seq(|d|, i requires 0 <= i < |d| => LetterOf(d[i]))
  }

  function Read(text: bytes): (d: seq<nat>)
    requires Letters(text)
    ensures |d| == |text| && forall i :: 0 <= i < |d| ==> d[i] < 32
  {
    seq(|text|, i requires 0 <= i < |text| => DigitOf(text[i]))
  }

  lemma SpellRead(text: bytes)
    requires Letters(text)
    ensures Spell(Read(text)) == text
  {
  }

  lemma ReadSpell(d: seq<nat>)
    requires forall i :: 0 <= i < |d| ==> d[i] < 32
    ensures Read(Spell(d)) == d
  {
  }

  // ---------------------------------------------------------------- 32 bytes

  function Encode(raw: bytes): (text: bytes)
    requires |raw| == 32
    ensures |text| == ID_LENGTH && Letters(text)
  {
    Spell(Digits(16 * Value(raw), ID_LENGTH))
  }

  /** Decoding drops the four bits after the 32 bytes, whatever they are. */
  function Decode(text: bytes): (raw: bytes)
    requires |text| == ID_LENGTH && Letters(text)
    ensures |raw| == 32
  {
    BigEndian(Number(Read(text)) / 16, 32)
  }

  /** The code's test: right length, right letters, and decoding then encoding gives
      the text back. */
  predicate Canonical(text: bytes) {
    |text| == ID_LENGTH && Letters(text) && Encode(Decode(text)) == text
  }

  method CheckCanonical(text: bytes) returns (ok: bool)
    ensures ok == Canonical(text)
  {
    if |text| != ID_LENGTH { return false; }
    for i := 0 to |text|
      invariant forall j :: 0 <= j < i ==> Letter(text[j])
    {
      if !(97 <= text[i] <= 122 || 50 <= text[i] <= 55) { return false; }
    }
    var raw := Decode(text);
    return Encode(raw) == text;
  }

  lemma NumberOfEncode(raw: bytes)
    requires |raw| == 32
    ensures Number(Read(Encode(raw))) == 16 * Value(raw)
  {
    IdCapacity();
    ReadSpell(Digits(16 * Value(raw), ID_LENGTH));
    NumberOfDigits(16 * Value(raw), ID_LENGTH);
  }

  /** Decoding inverts encoding, so distinct identities have distinct texts. */
  lemma DecodeOfEncode(raw: bytes)
    requires |raw| == 32
    ensures Decode(Encode(raw)) == raw
  {
    NumberOfEncode(raw);
    BigEndianOfValue(raw);
  }

  /** Canonical texts are exactly the images of 32 bytes. */
  lemma CanonicalIffImage(text: bytes)
    ensures Canonical(text) <==> exists raw: bytes :: |raw| == 32 && Encode(raw) == text
  {
    if |text| == ID_LENGTH && Letters(text) && Canonical(text) {
      assert |Decode(text)| == 32 && Encode(Decode(text)) == text;
    }
    if exists raw: bytes :: |raw| == 32 && Encode(raw) == text {
      var raw: bytes :| |raw| == 32 && Encode(raw) == text;
      DecodeOfEncode(raw);
    }
  }

  lemma ValueOfDecode(text: bytes)
    requires |text| == ID_LENGTH && Letters(text)
    ensures Value(Decode(text)) == Number(Read(text)) / 16
  {
    DigitsOfNumber(Read(text));
    IdCapacity();
    ValueOfBigEndian(Number(Read(text)) / 16, 32);
  }

  lemma CanonicalIffZeroBits(text: bytes)
    requires |text| == ID_LENGTH && Letters(text)
    ensures Canonical(text) <==> Number(Read(text)) % 16 == 0
  {
    var d := Read(text);
    var n := Number(d);
    var v := Value(Decode(text));
    ValueOfDecode(text);
    if n % 16 == 0 {
      assert 16 * v == n;
      DigitsOfNumber(d);
      SpellRead(text);
    } else {
      assert 16 * v != n;
      NumberOfEncode(Decode(text));
    }
  }

  /** Seen on the text alone: 52 letters, the last of which is `a` or `q`. */
  lemma CanonicalIffLastLetter(text: bytes)
    ensures Canonical(text) <==> |text| == ID_LENGTH && Letters(text) && (text[51] == 97 || text[51] == 113)
  {
    if |text| == ID_LENGTH && Letters(text) {
      CanonicalIffZeroBits(text);
      LastDigit(Read(text));
      assert DigitOf(text[51]) % 16 == 0 <==> text[51] == 97 || text[51] == 113;
    }
  }

  lemma LastDigit(d: seq<nat>)
    requires d != []
    ensures Number(d) % 16 == d[|d| - 1] % 16
  {
    assert Number(d) == 16 * (2 * Number(d[..|d| - 1])) + d[|d| - 1];
  }
}
