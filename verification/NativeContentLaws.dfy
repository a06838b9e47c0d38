/** The laws that the content model takes as given hold together: a configuration with
    the real JSON text and a simple cipher meets all of them, and it builds. */
module NativeContentLaws {
  import opened Bytes
  import opened NativeContent
  import Json = ManifestJson
  import Utf8

  /** A text that ends itself: a one before each byte and a zero at the end. */
  function Stuff(p: bytes): bytes {
    if p == [] then [0] else [1, p[0]] + Stuff(p[1..])
  }

  function Unstuff(e: bytes): Option<bytes>
    decreases |e|
  {
    if e == [0] then Some([])
    else if |e| < 2 || e[0] != 1 then None
    else match Unstuff(e[2..])
         case None => None
         case Some(rest) => Some([e[1]] + rest)
  }

  lemma {:induction false} UnstuffOfStuff(p: bytes)
    ensures Unstuff(Stuff(p)) == Some(p)
    decreases |p|
  {
    if p != [] {
      UnstuffOfStuff(p[1..]);
      assert Stuff(p)[2..] == Stuff(p[1..]);
      assert [p[0]] + p[1..] == p;
    }
  }

  lemma {:induction false} StuffEndsItself(d: bytes, e: bytes)
    requires Unstuff(d).Some? && Unstuff(e).Some?
    ensures !(d < e)
    decreases |d|
  {
    if d == [0] {
      assert e[0] == 0 ==> e == [0];
    } else if d < e {
      assert e[0] == 1;
      assert d[2..] < e[2..];
      StuffEndsItself(d[2..], e[2..]);
    }
  }

  function Length(e: bytes): Option<nat> {
    match Unstuff(e)
    case None => None
    case Some(p) => Some(|p| + TAG)
  }

  /** A cipher that hides nothing, one epoch, and no further scope rules. */
  function Plain(): Config {
    Config(
      (x: bytes) => seq(32, _ => 0),
      (p: bytes, k: bytes, a: bytes, n: nat) => Stuff(p),
      (e: bytes, k: bytes, a: bytes) => Unstuff(e),
      (e: bytes) => Length(e),
      (e: bytes) => [],
      (a: bytes) => [],
      (a: bytes, i: nat) => a,
      (a: bytes) => true,
      (ref: Reference) => true,
      (m: Manifest) => Json.Text(m),
      (raw: bytes) => Json.Read(raw))
  }

  lemma PlainCipher()
    ensures Plain().CipherLaws()
  {
    forall p: bytes { UnstuffOfStuff(p); }
  }

  lemma PlainJson()
    ensures Plain().TextLaw() && Plain().JsonLaw()
  {
    forall m: Manifest { Json.ReadOfText(m); }
  }

  lemma PlainCanonical()
    ensures Plain().CanonicalLaw()
  {
    forall d: bytes, e: bytes | Length(d).Some? && Length(e).Some? ensures !(d < e) { StuffEndsItself(d, e); }
  }

  function Nil(): bytes {
    seq(36, i => if i in {8, 13, 18, 23} then 0x2D else 0x30)
  }

  function Identity(): Reference {
    Reference(Nil(), Ascii(Purposes()[0]), [], 0, 0, [], [], [])
  }

  lemma IdentityIsValid()
    ensures ValidIdentity(Identity())
  {
    assert Purposes()[0] in Purposes();
  }

  lemma PlainIsValid()
    ensures Plain().Valid()
  {
    PlainCipher();
    PlainJson();
    PlainCanonical();
  }

  function Sample(plain: bytes, mime: bytes): Input {
    Input(plain, [], Identity(), mime, _ => 0, 0)
  }

  lemma SampleIsAccepted(cfg: Config, plain: bytes, mime: bytes)
    requires 1 <= |plain| <= MAX_PLAINTEXT && 1 <= |mime| <= 128 && Utf8.Valid(plain)
    requires (forall a: bytes :: cfg.scope(a)) && (forall ref: Reference :: cfg.referenceScope(ref))
    ensures Buildable(cfg, Sample(plain, mime)) && InScope(cfg, Sample(plain, mime))
  {
    IdentityIsValid();
  }

  lemma PlainHasNoScope()
    ensures (forall a: bytes :: Plain().scope(a)) && (forall ref: Reference :: Plain().referenceScope(ref))
  {
  }

  /** All laws hold at once, and Build succeeds under them. */
  lemma LawsAreMet(cfg: Config, plain: bytes, mime: bytes)
    requires cfg == Plain() && 1 <= |plain| <= MAX_PLAINTEXT && 1 <= |mime| <= 128 && Utf8.Valid(plain)
    ensures cfg.Valid() && BuildTransfer(cfg, Sample(plain, mime)).Some?
  {
    PlainIsValid();
    PlainHasNoScope();
    SampleIsAccepted(cfg, plain, mime);
    BuildsIff(cfg, Sample(plain, mime));
  }
}
