/** The four signing frames (fabric/framing.go): each type's bytes and parser are
    exact inverses, and no frame of one type is a frame of another. */
module Frames {
  import opened Bytes
  import opened EndpointRefs
  import opened Framing
  import Base32
  import Utf8

  datatype Frame =
    | Genesis(namespace: bytes, publicKey: bytes, payload: bytes)
    | Registry(issuer: bytes, keyRevision: nat, audience: bytes, action: bytes, target: EndpointRef, prior: bytes,
               revision: bytes, sequence: nat, head: bytes, payload: bytes)
    | CallerProof(source: bytes, caller: bytes, keyRevision: nat, audience: bytes, operation: bytes, envelopeId: bytes,
                  replayId: bytes, digest: bytes, deadline: bytes)
    | Admission(source: bytes, caller: bytes, audience: bytes, invocation: bytes, attempt: bytes, replayId: bytes,
                digest: bytes, deadline: bytes)

  datatype Kind = GenesisKind | RegistryKind | CallerProofKind | AdmissionKind {
    function Purpose(): bytes {
      match this
      case GenesisKind => Ascii("pagnet.fabric.genesis.v1")
      case RegistryKind => Ascii("pagnet.fabric.registry.v1")
      case CallerProofKind => Ascii("pagnet.fabric.caller-proof.v1")
      case AdmissionKind => Ascii("pagnet.fabric.dispatch-admission.v1")
    }

    function Count(): nat {
      match this
      case GenesisKind => 3
      case RegistryKind => 10
      case CallerProofKind => 9
      case AdmissionKind => 8
    }
  }

  function KindOf(f: Frame): Kind {
    match f
    case Genesis(_, _, _) => GenesisKind
    case Registry(_, _, _, _, _, _, _, _, _, _) => RegistryKind
    case CallerProof(_, _, _, _, _, _, _, _, _) => CallerProofKind
    case Admission(_, _, _, _, _, _, _, _) => AdmissionKind
  }

  const U64 := 0x1_0000_0000_0000_0000

  /** What the Go types guarantee: arrays of 32 bytes, 64-bit counters, and references
      made only by their own constructors. */
  predicate Typed(f: Frame) {
    match f
    case Genesis(_, key, payload) => |key| == 32 && |payload| == 32
    case Registry(_, k, _, _, target, _, _, s, head, payload) =>
      k < U64 && s < U64 && |head| == 32 && |payload| == 32 && (target == ZERO || target.WellFormed())
    case CallerProof(_, _, k, _, _, _, _, digest, _) => k < U64 && |digest| == 32
    case Admission(_, _, _, _, _, _, digest, _) => |digest| == 32
  }

  /** `hash` is SHA-256, `timeOk` the canonical time format. */
  datatype Config = Config(hash: bytes -> bytes, timeOk: bytes -> bool)

  predicate ValidText(text: bytes, optional: bool) {
    |text| <= MAX_TEXT && (optional || text != []) && Utf8.Valid(text)
  }

  predicate ValidDeadline(cfg: Config, text: bytes) {
    text == [] || (ValidText(text, false) && cfg.timeOk(text))
  }

  /** The guards of SigningBytes. */
  predicate Valid(cfg: Config, f: Frame) {
    match f
    case Genesis(namespace, key, _) => Namespace(cfg.hash, key) == Some(namespace)
    case Registry(issuer, k, audience, action, target, prior, revision, s, _, _) =>
      && CanonicalNamespace(issuer) && CanonicalNamespace(audience) && k != 0 && s != 0 && ValidText(action, false)
      && ValidText(prior, true) && ValidText(revision, false) && Parse(target.Text()).Some?
    case CallerProof(source, caller, k, audience, operation, envelopeId, replayId, _, deadline) =>
      && CanonicalNamespace(source) && CanonicalNamespace(audience) && k != 0 && ValidText(caller, false)
      && ValidText(operation, false) && ValidText(envelopeId, false) && ValidText(replayId, false)
      && ValidDeadline(cfg, deadline)
    case Admission(source, caller, audience, invocation, attempt, replayId, _, deadline) =>
      && CanonicalNamespace(source) && CanonicalNamespace(audience) && ValidText(caller, false)
      && ValidText(invocation, false) && ValidText(attempt, false) && ValidText(replayId, false)
      && ValidDeadline(cfg, deadline)
  }

  function Counter(n: nat): bytes {
    BigEndian(n, 8)
  }

  function Fields(f: Frame): (fields: seq<bytes>)
    ensures |fields| == KindOf(f).Count()
  {
    match f
    case Genesis(namespace, key, payload) => [namespace, key, payload]
    case Registry(issuer, k, audience, action, target, prior, revision, s, head, payload) =>
      [issuer, Counter(k), audience, action, target.Text(), prior, revision, Counter(s), head, payload]
    case CallerProof(source, caller, k, audience, operation, envelopeId, replayId, digest, deadline) =>
      [source, caller, Counter(k), audience, operation, envelopeId, replayId, digest, deadline]
    case Admission(source, caller, audience, invocation, attempt, replayId, digest, deadline) =>
      [source, caller, audience, invocation, attempt, replayId, digest, deadline]
  }

  function SigningBytes(cfg: Config, f: Frame): Option<bytes> {
    var purpose := KindOf(f).Purpose();
    if Valid(cfg, f) && Fits(purpose, Fields(f)) then Some(Framed(purpose, Fields(f))) else None
  }

  function ReadCounter(field: bytes): Option<nat> {
    if |field| == 8 && Value(field) > 0 then Some(Value(field)) else None
  }

  /** The frame the fields spell out, before its own validity is checked. */
  function Construct(kind: Kind, fs: seq<bytes>): Option<Frame>
    requires |fs| == kind.Count()
  {
    match kind
    case GenesisKind => if |fs[1]| == 32 && |fs[2]| == 32 then Some(Genesis(fs[0], fs[1], fs[2])) else None
    case RegistryKind =>
      var k, s, target := ReadCounter(fs[1]), ReadCounter(fs[7]), Parse(fs[4]);
      if k.None? || s.None? || target.None? || |fs[8]| != 32 || |fs[9]| != 32 then None
      else Some(Registry(fs[0], k.value, fs[2], fs[3], target.value, fs[5], fs[6], s.value, fs[8], fs[9]))
    case CallerProofKind =>
      var k := ReadCounter(fs[2]);
      if k.None? || |fs[7]| != 32 then None
      else Some(CallerProof(fs[0], fs[1], k.value, fs[3], fs[4], fs[5], fs[6], fs[7], fs[8]))
    case AdmissionKind =>
      if |fs[6]| != 32 then None else Some(Admission(fs[0], fs[1], fs[2], fs[3], fs[4], fs[5], fs[6], fs[7]))
  }

  function ParseFrame(cfg: Config, kind: Kind, raw: bytes): Option<Frame> {
    match DecodeFields(raw, kind.Purpose(), kind.Count())
    case None => None
    case Some(fields) =>
      if |fields| != kind.Count() then None
      else match Construct(kind, fields)
           case None => None
           case Some(f) => if SigningBytes(cfg, f).Some? then Some(f) else None
  }

  // ---------------------------------------------------------------- inverses

  lemma CounterRoundTrip(n: nat)
    requires 0 < n < U64
    ensures ReadCounter(Counter(n)) == Some(n)
  {
    Powers();
    ValueOfBigEndian(n, 8);
  }

  lemma CounterOfRead(field: bytes)
    requires ReadCounter(field).Some?
    ensures Counter(ReadCounter(field).value) == field && 0 < ReadCounter(field).value < U64
  {
    Powers();
    BigEndianOfValue(field);
  }

  /** The fields of a valid frame spell out that frame. */
  lemma ConstructOfFields(cfg: Config, f: Frame)
    requires Typed(f) && Valid(cfg, f)
    ensures Construct(KindOf(f), Fields(f)) == Some(f)
  {
    if f.Registry? {
      TargetRoundTrip(f.target);
      RegistryConstructs(f);
    } else if f.CallerProof? {
      CounterRoundTrip(f.keyRevision);
    }
  }

  lemma RegistryOfFields(f: Frame, text: bytes)
    requires f.Registry? && 0 < f.keyRevision < U64 && 0 < f.sequence < U64 && |f.head| == 32 && |f.payload| == 32
    requires Parse(text) == Some(f.target)
    ensures Construct(RegistryKind, RegistryFields(f, Counter(f.keyRevision), Counter(f.sequence), text)) == Some(f)
  {
    CounterRoundTrip(f.keyRevision);
    CounterRoundTrip(f.sequence);
    RegistryFrom(RegistryFields(f, Counter(f.keyRevision), Counter(f.sequence), text), f.keyRevision, f.sequence, f.target);
  }

  lemma RegistryConstructs(f: Frame)
    requires f.Registry? && 0 < f.keyRevision < U64 && 0 < f.sequence < U64 && |f.head| == 32 && |f.payload| == 32
    requires Parse(f.target.Text()) == Some(f.target)
    ensures Construct(RegistryKind, Fields(f)) == Some(f)
  {
    RegistryOfFields(f, f.target.Text());
    FieldsAre(f);
  }

  function RegistryFields(f: Frame, k: bytes, s: bytes, target: bytes): seq<bytes>
    requires f.Registry?
  {
    [f.issuer, k, f.audience, f.action, target, f.prior, f.revision, s, f.head, f.payload]
  }

  lemma FieldsAre(f: Frame)
    requires f.Registry?
    ensures Fields(f) == RegistryFields(f, Counter(f.keyRevision), Counter(f.sequence), f.target.Text())
  {
  }

  lemma TargetRoundTrip(target: EndpointRef)
    requires (target == ZERO || target.WellFormed()) && Parse(target.Text()).Some?
    ensures Parse(target.Text()) == Some(target)
  {
    if target.WellFormed() { ParseOfText(target); }
  }

  /** What ten fields make once the three that are not bytes are read. */
  lemma RegistryFrom(fs: seq<bytes>, k: nat, s: nat, target: EndpointRef)
    requires |fs| == 10 && ReadCounter(fs[1]) == Some(k) && ReadCounter(fs[7]) == Some(s) && Parse(fs[4]) == Some(target)
    requires |fs[8]| == 32 && |fs[9]| == 32
    ensures Construct(RegistryKind, fs) == Some(Registry(fs[0], k, fs[2], fs[3], target, fs[5], fs[6], s, fs[8], fs[9]))
  {
  }

  /** A constructed frame has exactly the fields it was constructed from. */
  lemma FieldsOfConstruct(kind: Kind, fs: seq<bytes>)
    requires |fs| == kind.Count() && Construct(kind, fs).Some?
    ensures var f := Construct(kind, fs).value; KindOf(f) == kind && Typed(f) && Fields(f) == fs
  {
    if kind.RegistryKind? {
      FieldsOfRegistry(fs);
    } else if kind.CallerProofKind? {
      CounterOfRead(fs[2]);
    }
  }

  lemma FieldsOfRegistry(fs: seq<bytes>)
    requires |fs| == 10 && Construct(RegistryKind, fs).Some?
    ensures var f := Construct(RegistryKind, fs).value; KindOf(f) == RegistryKind && Typed(f) && Fields(f) == fs
  {
    CounterOfRead(fs[1]);
    CounterOfRead(fs[7]);
    TextOfParse(fs[4]);
  }

  /** Parsing the signing bytes of any frame gives that frame back. */
  lemma ParseInvertsSigning(cfg: Config, f: Frame)
    requires Typed(f) && SigningBytes(cfg, f).Some?
    ensures ParseFrame(cfg, KindOf(f), SigningBytes(cfg, f).value) == Some(f)
  {
    DecodeInvertsEncode(SigningBytes(cfg, f).value, KindOf(f).Purpose(), Fields(f));
    ConstructOfFields(cfg, f);
  }

  /** Whatever parses as a frame is exactly that frame's signing bytes. */
  lemma SigningInvertsParse(cfg: Config, kind: Kind, raw: bytes)
    requires ParseFrame(cfg, kind, raw).Some?
    ensures
      var f := ParseFrame(cfg, kind, raw).value;
      KindOf(f) == kind && Typed(f) && SigningBytes(cfg, f) == Some(raw)
  {
    var fields := DecodeFields(raw, kind.Purpose(), kind.Count()).value;
    FieldsOfConstruct(kind, fields);
    DecodeInvertsEncode(raw, kind.Purpose(), fields);
  }

  lemma PurposesDistinct(a: Kind, b: Kind)
    requires a != b
    ensures a.Purpose() != b.Purpose()
  {
    assert |GenesisKind.Purpose()| == 24 && |RegistryKind.Purpose()| == 25;
    assert |CallerProofKind.Purpose()| == 29 && |AdmissionKind.Purpose()| == 35;
  }

  lemma AsciiNoZero(s: string)
    requires forall i :: 0 <= i < |s| ==> 0 < s[i] as int < 0x80
    ensures NoZero(Ascii(s))
  {
  }

  lemma GenesisNoZero()
    ensures NoZero(GenesisKind.Purpose())
  {
    AsciiNoZero("pagnet.fabric.genesis.v1");
  }

  lemma RegistryNoZero()
    ensures NoZero(RegistryKind.Purpose())
  {
    AsciiNoZero("pagnet.fabric.registry.v1");
  }

  lemma CallerProofNoZero()
    ensures NoZero(CallerProofKind.Purpose())
  {
    AsciiNoZero("pagnet.fabric.caller-proof.v1");
  }

  lemma AdmissionNoZero()
    ensures NoZero(AdmissionKind.Purpose())
  {
    AsciiNoZero("pagnet.fabric.dispatch-admission.v1");
  }

  lemma PurposesHaveNoZero(kind: Kind)
    ensures NoZero(kind.Purpose())
  {
    match kind
    case GenesisKind => GenesisNoZero();
    case RegistryKind => RegistryNoZero();
    case CallerProofKind => CallerProofNoZero();
    case AdmissionKind => AdmissionNoZero();
  }

  /** Equal signing bytes come from equal frames: no frame of one type, and no other
      frame of the same type, can stand for another. */
  lemma SigningBytesInjective(cfg: Config, f: Frame, g: Frame)
    requires Typed(f) && Typed(g) && SigningBytes(cfg, f).Some? && SigningBytes(cfg, f) == SigningBytes(cfg, g)
    ensures f == g
  {
    PurposesHaveNoZero(KindOf(f));
    PurposesHaveNoZero(KindOf(g));
    FramedInjective(KindOf(f).Purpose(), Fields(f), KindOf(g).Purpose(), Fields(g));
    if KindOf(f) != KindOf(g) {
      PurposesDistinct(KindOf(f), KindOf(g));
      assert false;
    }
    ParseInvertsSigning(cfg, f);
    ParseInvertsSigning(cfg, g);
  }

  // ---------------------------------------------------------------- every valid frame can be signed

  lemma {:induction false} PackedBound(fields: seq<bytes>, each: nat)
    requires forall i :: 0 <= i < |fields| ==> |fields[i]| <= each
    ensures |Packed(fields)| <= |fields| * (each + 4)
    decreases |fields|
  {
    if fields != [] {
      PackedBound(fields[1..], each);
      assert |fields| * (each + 4) == (|fields| - 1) * (each + 4) + (each + 4);
    }
  }

  lemma RegistryShort(f: Frame)
    requires f.Registry? && |f.issuer| == NAMESPACE_LENGTH && |f.audience| == NAMESPACE_LENGTH && |f.target.Text()| <= OFFER_LENGTH
    requires |f.action| <= MAX_TEXT && |f.prior| <= MAX_TEXT && |f.revision| <= MAX_TEXT && |f.head| == 32 && |f.payload| == 32
    ensures Short(Fields(f))
  {
  }

  lemma FieldsShort(cfg: Config, f: Frame)
    requires !f.Registry? && Typed(f) && Valid(cfg, f)
    ensures Short(Fields(f))
  {
    if f.Genesis? { NamespaceIsCanonical(cfg.hash, f.publicKey); }
  }

  /** The bounds never get in the way: a frame has signing bytes exactly if it is valid. */
  lemma SignableIffValid(cfg: Config, f: Frame)
    requires Typed(f)
    ensures SigningBytes(cfg, f).Some? <==> Valid(cfg, f)
  {
    if Valid(cfg, f) {
      if f.Registry? { RegistryShort(f); } else { FieldsShort(cfg, f); }
      PurposeLength(KindOf(f));
      ShortFits(KindOf(f).Purpose(), Fields(f));
    }
  }

  lemma PurposeLength(kind: Kind)
    ensures |kind.Purpose()| <= 35
  {
  }

  lemma ShortFits(purpose: bytes, fields: seq<bytes>)
    requires |purpose| <= 35 && |fields| <= 10 && Short(fields)
    ensures Fits(purpose, fields)
  {
    PackedBound(fields, MAX_TEXT);
    assert |fields| * (MAX_TEXT + 4) <= 10 * (MAX_TEXT + 4);
  }

  // ---------------------------------------------------------------- what a verifier finds in a frame

  /** The wire layout: which fields, in which order and under which purpose, a reader
      that knows only the length-prefixed form finds in the signing bytes. */
  lemma WireLayout(cfg: Config, f: Frame)
    requires Typed(f) && SigningBytes(cfg, f).Some?
    ensures
      var raw := SigningBytes(cfg, f).value;
      match f
      case Genesis(namespace, key, payload) =>
        DecodeFields(raw, Ascii("pagnet.fabric.genesis.v1"), 3) == Some([namespace, key, payload])
      case Registry(issuer, k, audience, action, target, prior, revision, s, head, payload) =>
        DecodeFields(raw, Ascii("pagnet.fabric.registry.v1"), 10) ==
          Some([issuer, BigEndian(k, 8), audience, action, target.Text(), prior, revision, BigEndian(s, 8), head, payload])
      case CallerProof(source, caller, k, audience, operation, envelopeId, replayId, digest, deadline) =>
        DecodeFields(raw, Ascii("pagnet.fabric.caller-proof.v1"), 9) ==
          Some([source, caller, BigEndian(k, 8), audience, operation, envelopeId, replayId, digest, deadline])
      case Admission(source, caller, audience, invocation, attempt, replayId, digest, deadline) =>
        DecodeFields(raw, Ascii("pagnet.fabric.dispatch-admission.v1"), 8) ==
          Some([source, caller, audience, invocation, attempt, replayId, digest, deadline])
  {
    DecodeInvertsEncode(SigningBytes(cfg, f).value, KindOf(f).Purpose(), Fields(f));
  }

  /** The texts a frame must name, those it may leave out, its namespaces, its counters
      and its deadline, whatever its type. */
  function Names(f: Frame): seq<bytes> {
    match f
    case Genesis(_, _, _) => []
    case Registry(_, _, _, action, _, _, revision, _, _, _) => [action, revision]
    case CallerProof(_, caller, _, _, operation, envelopeId, replayId, _, _) => [caller, operation, envelopeId, replayId]
    case Admission(_, caller, _, invocation, attempt, replayId, _, _) => [caller, invocation, attempt, replayId]
  }

  function Namespaces(f: Frame): seq<bytes> {
    match f
    case Genesis(namespace, _, _) => [namespace]
    case Registry(issuer, _, audience, _, _, _, _, _, _, _) => [issuer, audience]
    case CallerProof(source, _, _, audience, _, _, _, _, _) => [source, audience]
    case Admission(source, _, audience, _, _, _, _, _) => [source, audience]
  }

  function Counters(f: Frame): seq<nat> {
    match f
    case Registry(_, k, _, _, _, _, _, s, _, _) => [k, s]
    case CallerProof(_, _, k, _, _, _, _, _, _) => [k]
    case _ => []
  }

  predicate ReadableText(text: bytes) {
    |text| <= 4096 && Utf8.Valid(text)
  }

  function DomainPreimage(key: bytes): bytes {
    Ascii("pagnet.fabric.domain.v1") + [0] + key
  }

  predicate NamesFine(f: Frame) {
    && (forall name :: name in Names(f) ==> name != [] && ReadableText(name))
    && (forall namespace :: namespace in Namespaces(f) ==> CanonicalNamespace(namespace))
    && (forall n :: n in Counters(f) ==> n >= 1)
  }

  lemma GenesisValidIff(cfg: Config, f: Frame)
    requires f.Genesis? && Typed(f)
    ensures Valid(cfg, f) <==>
      && NamesFine(f) && |cfg.hash(DomainPreimage(f.publicKey))| == 32
      && f.namespace == NamespaceMark() + Base32.Encode(cfg.hash(DomainPreimage(f.publicKey)))
  {
    if Namespace(cfg.hash, f.publicKey).Some? { NamespaceIsCanonical(cfg.hash, f.publicKey); }
  }

  lemma RegistryValidIff(cfg: Config, f: Frame)
    requires f.Registry? && Typed(f)
    ensures Valid(cfg, f) <==> NamesFine(f) && ReadableText(f.prior) && f.target != ZERO
  {
    TargetParses(f.target);
    assert Names(f) == [f.action, f.revision] && Namespaces(f) == [f.issuer, f.audience];
    assert Counters(f) == [f.keyRevision, f.sequence];
    assert f.action in Names(f) && f.revision in Names(f) && f.issuer in Namespaces(f) && f.audience in Namespaces(f);
    assert f.keyRevision in Counters(f) && f.sequence in Counters(f);
  }

  lemma TargetParses(target: EndpointRef)
    requires target == ZERO || target.WellFormed()
    ensures Parse(target.Text()).Some? <==> target != ZERO
  {
    if target.WellFormed() { ParseOfText(target); } else { assert Parse([]).None?; }
  }

  predicate DeadlineFine(cfg: Config, deadline: bytes) {
    deadline == [] || (ReadableText(deadline) && cfg.timeOk(deadline))
  }

  lemma ProofValidIff(cfg: Config, f: Frame)
    requires f.CallerProof?
    ensures Valid(cfg, f) <==> NamesFine(f) && DeadlineFine(cfg, f.deadline)
  {
    assert Names(f) == [f.caller, f.operation, f.envelopeId, f.replayId];
    assert f.caller in Names(f) && f.operation in Names(f) && f.envelopeId in Names(f) && f.replayId in Names(f);
    assert f.source in Namespaces(f) && f.audience in Namespaces(f) && f.keyRevision in Counters(f);
  }

  lemma AdmissionValidIff(cfg: Config, f: Frame)
    requires f.Admission?
    ensures Valid(cfg, f) <==> NamesFine(f) && DeadlineFine(cfg, f.deadline)
  {
    assert Names(f) == [f.caller, f.invocation, f.attempt, f.replayId];
    assert f.caller in Names(f) && f.invocation in Names(f) && f.attempt in Names(f) && f.replayId in Names(f);
    assert f.source in Namespaces(f) && f.audience in Namespaces(f);
  }

  /** A frame has signing bytes exactly when every name in it is there and readable, every
      namespace canonical and every counter positive; a registry frame also needs a
      readable prior revision, if any, and a real target; a proof or admission a deadline
      in canonical form, if any; and a genesis the namespace of its own key. */
  lemma SignsExactly(cfg: Config, f: Frame)
    requires Typed(f)
    ensures SigningBytes(cfg, f).Some? <==>
      && NamesFine(f)
      && (f.Registry? ==> ReadableText(f.prior) && f.target != ZERO)
      && (f.CallerProof? || f.Admission? ==> DeadlineFine(cfg, f.deadline))
      && (f.Genesis? ==>
            && |cfg.hash(DomainPreimage(f.publicKey))| == 32
            && f.namespace == NamespaceMark() + Base32.Encode(cfg.hash(DomainPreimage(f.publicKey))))
  {
    SignableIffValid(cfg, f);
    match f
    case Genesis(_, _, _) => GenesisValidIff(cfg, f);
    case Registry(_, _, _, _, _, _, _, _, _, _) => RegistryValidIff(cfg, f);
    case CallerProof(_, _, _, _, _, _, _, _, _) => ProofValidIff(cfg, f);
    case Admission(_, _, _, _, _, _, _, _) => AdmissionValidIff(cfg, f);
  }

  /** A genesis frame binds its namespace to its key: two with one namespace have one key,
      or two different domain preimages hash alike. */
  lemma GenesisBindsTheKey(cfg: Config, f: Frame, g: Frame)
    requires f.Genesis? && g.Genesis? && Typed(f) && Typed(g)
    requires SigningBytes(cfg, f).Some? && SigningBytes(cfg, g).Some? && f.namespace == g.namespace
    ensures f.publicKey == g.publicKey
      || (DomainPreimage(f.publicKey) != DomainPreimage(g.publicKey)
          && cfg.hash(DomainPreimage(f.publicKey)) == cfg.hash(DomainPreimage(g.publicKey)))
  {
    var a, b := cfg.hash(DomainPreimage(f.publicKey)), cfg.hash(DomainPreimage(g.publicKey));
    SplitEqual(NamespaceMark(), Base32.Encode(a), NamespaceMark(), Base32.Encode(b));
    Base32.DecodeOfEncode(a);
    Base32.DecodeOfEncode(b);
    var head := Ascii("pagnet.fabric.domain.v1") + [0];
    if DomainPreimage(f.publicKey) == DomainPreimage(g.publicKey) { SplitEqual(head, f.publicKey, head, g.publicKey); }
  }
}
