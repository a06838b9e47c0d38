/** Bounded encrypted content in fragments (nativecontent/content.go): chunking, the
    length-prefixed commitment over the whole ciphertext, and an open that returns
    everything or nothing.

    Envelopes and associated data stand for their canonical bytes. Encryption, the
    hash, the remaining scope rules and the JSON decoder are parameters with the laws
    they obey. */
module NativeContent {
  import opened Bytes
  import Json = ManifestJson
  import Utf8

  type Chunk = Json.Chunk
  type Manifest = Json.Manifest

  const FRAGMENT_BYTES := 64 * 1024
  const MAX_PLAINTEXT := 20 * 1024 * 1024
  const MAX_CIPHERTEXT := 30 * 1024 * 1024
  const MAX_MANIFEST := 64 * 1024
  const MAX_FRAGMENTS := 320
  const TAG := 16

  /** `rest` holds the other public fields of the reference. */
  datatype Reference = Reference(contentId: bytes, purpose: bytes, rest: bytes, count: int, size: int, digest: bytes,
                                 manifest: bytes, aad: bytes)

  datatype Fragment = Fragment(contentId: bytes, ordinal: int, envelope: bytes, aad: bytes)

  datatype Transfer = Transfer(reference: Reference, fragments: seq<Fragment>)

  datatype Config = Config(
    hash: bytes -> bytes,
    encrypt: (bytes, bytes, bytes, nat) -> bytes,
    decrypt: (bytes, bytes, bytes) -> Option<bytes>,
    cipherLength: bytes -> Option<nat>,
    envelopeEpoch: bytes -> bytes,
    epoch: bytes -> bytes,
    fragmentAAD: (bytes, nat) -> bytes,
    scope: bytes -> bool,
    referenceScope: Reference -> bool,
    encode: Manifest -> bytes,
    decode: bytes -> Option<Manifest>)
  {
    /** Decryption inverts encryption under the same key and associated data, the tag
        adds 16 bytes, and an envelope names the epoch of its associated data. */
    ghost predicate CipherLaws() {
      forall p: bytes, k: bytes, a: bytes, n: nat ::
        var e := encrypt(p, k, a, n);
        decrypt(e, k, a) == Some(p) && cipherLength(e) == Some(|p| + TAG) && envelopeEpoch(e) == epoch(a)
    }

    /** The manifest is written as its JSON text. */
    ghost predicate TextLaw() {
      forall m: Manifest :: encode(m) == Json.Text(m)
    }

    /** The decoder reads what the encoder writes. */
    ghost predicate JsonLaw() {
      forall m: Manifest :: decode(encode(m)) == Some(m.Shown())
    }

    /** Envelopes are canonical JSON objects: none that validates continues another. */
    ghost predicate CanonicalLaw() {
      forall d: bytes, e: bytes :: cipherLength(d).Some? && cipherLength(e).Some? ==> !(d < e)
    }

    ghost predicate Valid() {
      && CipherLaws() && TextLaw() && JsonLaw() && CanonicalLaw()
      && (forall a: bytes, i: nat :: epoch(fragmentAAD(a, i)) == epoch(a))
      && (forall x: bytes :: |hash(x)| == 32)
    }
  }

  function Mime(s: string): bytes {
    Ascii(s)
  }

  predicate LowerHex(b: byte) {
    0x30 <= b <= 0x39 || 0x61 <= b <= 0x66
  }

  /** The canonical text of a UUID (section 4 of RFC 9562). */
  predicate CanonicalUuid(id: bytes) {
    |id| == 36 && forall i :: 0 <= i < 36 ==> if i in {8, 13, 18, 23} then id[i] == 0x2D else LowerHex(id[i])
  }

  function Purposes(): (names: seq<string>)
    ensures forall i :: 0 <= i < |names| ==> |names[i]| <= 18
  {
    ["interaction_detail", "interaction_answer", "native_turn_output", "native_turn_plan", "runtime_error",
     "task_progress", "task_result", "network_result"]
  }

  predicate KnownPurpose(purpose: bytes) {
    exists name :: name in Purposes() && purpose == Ascii(name)
  }

  /** What the scope rules ask of the content itself. */
  predicate ValidIdentity(ref: Reference) {
    CanonicalUuid(ref.contentId) && KnownPurpose(ref.purpose)
  }

  predicate RequiresUtf8(mime: bytes) {
    Mime("text/") <= mime || mime == Mime("application/json")
  }

  // ---------------------------------------------------------------- chunks

  function CountOf(n: nat): nat {
    (n + FRAGMENT_BYTES - 1) / FRAGMENT_BYTES
  }

  function Min(a: int, b: int): int {
    if a < b then a else b
  }

  function Offset(i: nat, n: nat): (r: nat)
    ensures r <= n
  {
    Min(i * FRAGMENT_BYTES, n)
  }

  function Part(plain: bytes, i: nat): bytes {
    assert Offset(i, |plain|) <= Offset(i + 1, |plain|);
    plain[Offset(i, |plain|)..Offset(i + 1, |plain|)]
  }

  function Joined(parts: seq<bytes>): bytes {
    if parts == [] then [] else Joined(parts[..|parts| - 1]) + parts[|parts| - 1]
  }

  function Parts(plain: bytes, n: nat): seq<bytes> {
    seq(n, i requires 0 <= i < n => Part(plain, i))
  }

  lemma {:induction false} PartsJoin(plain: bytes, n: nat)
    ensures Joined(Parts(plain, n)) == plain[..Offset(n, |plain|)]
  {
    if n > 0 {
      PartsJoin(plain, n - 1);
      assert Parts(plain, n)[..n - 1] == Parts(plain, n - 1);
      assert Offset(n - 1, |plain|) <= Offset(n, |plain|);
      assert plain[..Offset(n, |plain|)] == plain[..Offset(n - 1, |plain|)] + Part(plain, n - 1);
    }
  }

  /** The chunks cover the plaintext exactly, in order, without overlap; each holds
      between one byte and 64 KiB, and there are at most 320. */
  lemma ChunksCover(plain: bytes)
    requires 1 <= |plain| <= MAX_PLAINTEXT
    ensures Joined(Parts(plain, CountOf(|plain|))) == plain
    ensures 1 <= CountOf(|plain|) <= MAX_FRAGMENTS
    ensures forall i :: 0 <= i < CountOf(|plain|) ==> 1 <= |Part(plain, i)| <= FRAGMENT_BYTES
    ensures forall i :: 0 <= i < CountOf(|plain|) ==> Offset(i + 1, |plain|) == Offset(i, |plain|) + |Part(plain, i)|
  {
    var n := CountOf(|plain|);
    PartsJoin(plain, n);
    assert Offset(n, |plain|) == |plain|;
    forall i | 0 <= i < n
      ensures 1 <= |Part(plain, i)| <= FRAGMENT_BYTES && Offset(i + 1, |plain|) == Offset(i, |plain|) + |Part(plain, i)|
    {
      PartSize(plain, i);
    }
  }

  lemma PartSize(plain: bytes, i: nat)
    requires i < CountOf(|plain|)
    ensures 1 <= |Part(plain, i)| <= FRAGMENT_BYTES
    ensures Offset(i, |plain|) == i * FRAGMENT_BYTES && Offset(i + 1, |plain|) == Offset(i, |plain|) + |Part(plain, i)|
  {
    assert i * FRAGMENT_BYTES < |plain|;
  }

  // ---------------------------------------------------------------- the commitment

  function Piece(i: nat, f: Fragment): bytes {
    U32(i) + Field(f.aad) + Field(f.envelope)
  }

  function Pieces(fragments: seq<Fragment>): seq<bytes> {
    seq(|fragments|, i requires 0 <= i < |fragments| => Piece(i, fragments[i]))
  }

  function Body(fragments: seq<Fragment>): bytes {
    Flatten(Pieces(fragments))
  }

  function Domain(): bytes {
    Ascii("pagnet/native-content/ciphertext/v1") + [0]
  }

  function Header(ref: Reference): bytes {
    Domain() + Field(ref.manifest) + Field(ref.aad) + U32(if ref.count >= 0 then ref.count else 0)
  }

  function Preimage(ref: Reference, fragments: seq<Fragment>): bytes {
    Header(ref) + Body(fragments)
  }

  lemma BodyAppend(a: seq<Fragment>, f: Fragment)
    ensures Body(a + [f]) == Body(a) + Piece(|a|, f)
  {
    assert Pieces(a + [f]) == Pieces(a) + [Piece(|a|, f)];
    FlattenAppend(Pieces(a), Piece(|a|, f));
  }

  lemma Associate(x: bytes, y: bytes, z: bytes)
    ensures x + (y + z) == (x + y) + z
  {
  }

  /** The same associated data, and envelopes of which neither continues the other. */
  predicate Alike(f: Fragment, g: Fragment) {
    f.aad == g.aad && !(f.envelope < g.envelope) && !(g.envelope < f.envelope)
  }

  lemma PieceInjective(i: nat, f: Fragment, g: Fragment, a: bytes, b: bytes)
    requires Alike(f, g) && Piece(i, f) + a == Piece(i, g) + b
    ensures f.envelope == g.envelope && a == b
  {
    var front := U32(i) + Field(f.aad);
    assert Piece(i, f) + a == front + (Field(f.envelope) + a);
    assert Piece(i, g) + b == front + (Field(g.envelope) + b);
    SplitEqual(front, Field(f.envelope) + a, front, Field(g.envelope) + b);
    FieldsApart(f.envelope, g.envelope, a, b);
  }

  lemma {:induction false} BodyInjective(a: seq<Fragment>, b: seq<Fragment>, i: nat)
    requires i <= |a| == |b| && Flatten(Pieces(a)[i..]) == Flatten(Pieces(b)[i..])
    requires forall k :: 0 <= k < |a| ==> Alike(a[k], b[k])
    ensures forall k :: i <= k < |a| ==> a[k].envelope == b[k].envelope
    decreases |a| - i
  {
    if i < |a| {
      FlattenTail(Pieces(a), i);
      FlattenTail(Pieces(b), i);
      PieceInjective(i, a[i], b[i], Flatten(Pieces(a)[i + 1..]), Flatten(Pieces(b)[i + 1..]));
      BodyInjective(a, b, i + 1);
    }
  }

  lemma FlattenTail(parts: seq<bytes>, i: nat)
    requires i < |parts|
    ensures Flatten(parts[i..]) == parts[i] + Flatten(parts[i + 1..])
  {
    assert parts[i..][1..] == parts[i + 1..];
  }

  function CipherLength(cfg: Config, envelope: bytes, limit: nat): Option<nat> {
    match cfg.cipherLength(envelope)
    case Some(n) => if TAG <= n <= limit then Some(n) else None
    case None => None
  }

  predicate ValidReference(cfg: Config, ref: Reference) {
    && 1 <= ref.count <= MAX_FRAGMENTS && 1 <= ref.size <= MAX_CIPHERTEXT && |ref.digest| == 32
    && ValidIdentity(ref) && cfg.referenceScope(ref.(size := 0, digest := [], manifest := []))
    && cfg.envelopeEpoch(ref.manifest) == cfg.epoch(ref.aad)
    && CipherLength(cfg, ref.manifest, MAX_MANIFEST + TAG).Some?
  }

  predicate ValidFragment(cfg: Config, ref: Reference, f: Fragment) {
    && f.contentId == ref.contentId && 0 <= f.ordinal < ref.count
    && cfg.envelopeEpoch(f.envelope) == cfg.epoch(ref.aad)
    && f.aad == cfg.fragmentAAD(ref.aad, f.ordinal) && cfg.scope(f.aad)
    && CipherLength(cfg, f.envelope, FRAGMENT_BYTES + TAG).Some?
  }

  predicate AllValid(cfg: Config, ref: Reference, fragments: seq<Fragment>) {
    forall i :: 0 <= i < |fragments| ==> fragments[i].ordinal == i && ValidFragment(cfg, ref, fragments[i])
  }

  function TotalLength(cfg: Config, fragments: seq<Fragment>): nat {
    if fragments == [] then 0
    else
      var last := CipherLength(cfg, fragments[|fragments| - 1].envelope, FRAGMENT_BYTES + TAG);
      TotalLength(cfg, fragments[..|fragments| - 1]) + if last.Some? then last.value else 0
  }

  /** The commitment over a whole list: only for exactly the declared fragments. */
  function Commitment(cfg: Config, ref: Reference, fragments: seq<Fragment>): Option<bytes> {
    if ValidReference(cfg, ref) && |fragments| == ref.count && AllValid(cfg, ref, fragments)
       && CipherLength(cfg, ref.manifest, MAX_MANIFEST + TAG).value + TotalLength(cfg, fragments) == ref.size
    then Some(cfg.hash(Preimage(ref, fragments))) else None
  }

  lemma TakeOneMore(cfg: Config, ref: Reference, items: seq<Fragment>, i: nat, written: bytes, total: int)
    requires i < |items| && Progress(cfg, ref, items[..i], written, total)
    ensures AllValid(cfg, ref, items[..i + 1]) <==> items[i].ordinal == i && ValidFragment(cfg, ref, items[i])
    ensures items[i].ordinal == i && ValidFragment(cfg, ref, items[i]) ==>
      Progress(cfg, ref, items[..i + 1], written + Piece(i, items[i]),
               total + CipherLength(cfg, items[i].envelope, FRAGMENT_BYTES + TAG).value)
  {
    var taken, f := items[..i], items[i];
    assert items[..i + 1] == taken + [f];
    assert (taken + [f])[..i] == taken;
    BodyAppend(taken, f);
    Associate(Header(ref), Body(taken), Piece(i, f));
  }

  lemma PrefixInvalid(cfg: Config, ref: Reference, items: seq<Fragment>, i: nat)
    requires i <= |items| && !AllValid(cfg, ref, items[..i])
    ensures !AllValid(cfg, ref, items)
  {
  }

  /** An iterator over fragments; asking for item `failsAt` is an error. */
  class Source {
    const items: seq<Fragment>
    const failsAt: Option<nat>
    var asked: nat

    constructor (items: seq<Fragment>, failsAt: Option<nat>)
      ensures this.items == items && this.failsAt == failsAt && asked == 0
    {
      this.items, this.failsAt, asked := items, failsAt, 0;
    }

    method Next() returns (f: Option<Fragment>, ok: bool)
      modifies this
      ensures asked == old(asked) + 1 && ok == (failsAt != Some(old(asked)))
      ensures ok ==> f == if old(asked) < |items| then Some(items[old(asked)]) else None
    {
      ok := failsAt != Some(asked);
      f := if ok && asked < |items| then Some(items[asked]) else None;
      asked := asked + 1;
    }
  }

  /** The streaming commitment holds one fragment at a time, gives exactly the list
      version's answer, and asks for one item more than declared when it succeeds. */
  method CommitmentStream(cfg: Config, ref: Reference, source: Source) returns (r: Option<bytes>)
    requires source.asked == 0
    modifies source
    ensures r == if source.failsAt.Some? && source.failsAt.value <= ref.count then None
                 else Commitment(cfg, ref, source.items)
    ensures source.asked <= (if ref.count >= 0 then ref.count else 0) + 1
    ensures r.Some? ==> source.asked == ref.count + 1
  {
    if !ValidReference(cfg, ref) { return None; }
    var written := HeaderBytes(ref);
    var manifestLength := CipherLength(cfg, ref.manifest, MAX_MANIFEST + TAG).value;
    var total, index := manifestLength, 0;
    ghost var items := source.items;
    while index < ref.count
      invariant 0 <= index <= ref.count && index <= |items| && source.asked == index
      invariant source.failsAt.Some? ==> source.failsAt.value >= index
      invariant Progress(cfg, ref, items[..index], written, total - manifestLength)
    {
      var f, ok := source.Next();
      if !ok || f.None? { return None; }
      TakeOneMore(cfg, ref, items, index, written, total - manifestLength);
      if f.value.ordinal != index || !ValidFragment(cfg, ref, f.value) {
        PrefixInvalid(cfg, ref, items, index + 1);
        return None;
      }
      written := written + Piece(index, f.value);
      total := total + CipherLength(cfg, f.value.envelope, FRAGMENT_BYTES + TAG).value;
      index := index + 1;
    }
    var f, ok := source.Next();
    if !ok || f.Some? { return None; }
    assert items[..index] == items;
    r := if total == ref.size then Some(cfg.hash(written)) else None;
  }

  /** What has been written and counted when these fragments have been taken. */
  predicate Progress(cfg: Config, ref: Reference, taken: seq<Fragment>, written: bytes, total: int) {
    written == Preimage(ref, taken) && AllValid(cfg, ref, taken) && total == TotalLength(cfg, taken)
  }

  method HeaderBytes(ref: Reference) returns (written: bytes)
    requires ref.count >= 0
    ensures written == Preimage(ref, [])
  {
    written := Domain();
    written := written + Field(ref.manifest);
    written := written + Field(ref.aad);
    written := written + U32(ref.count);
  }

  // ---------------------------------------------------------------- open

  /** The plaintext of the first fragments, each checked against its description. */
  function Assembled(cfg: Config, fragments: seq<Fragment>, m: Manifest, key: bytes): Option<bytes>
    requires |fragments| <= |m.chunks|
  {
    if fragments == [] then Some([])
    else
      var n := |fragments| - 1;
      match Assembled(cfg, fragments[..n], m, key)
      case None => None
      case Some(done) =>
        var d := m.chunks[n];
        if d.ordinal != n || d.offset != |done| || d.length < 1 || d.length > FRAGMENT_BYTES || |done| + d.length > m.size then None
        else match cfg.decrypt(fragments[n].envelope, key, fragments[n].aad)
             case None => None
             case Some(part) => if |part| == d.length && cfg.hash(part) == d.digest then Some(done + part) else None
  }

  predicate ManifestFits(m: Manifest, ref: Reference) {
    && m.contentId == ref.contentId && m.purpose == ref.purpose && 1 <= m.size <= MAX_PLAINTEXT
    && 1 <= |m.mime| <= 128 && |m.chunks| == ref.count
  }

  predicate Whole(cfg: Config, m: Manifest, plain: bytes) {
    |plain| == m.size && cfg.hash(plain) == m.digest && (RequiresUtf8(m.mime) ==> Utf8.Valid(plain))
  }

  datatype Content = Content(plain: bytes, mime: bytes)

  function OpenContent(cfg: Config, ref: Reference, fragments: seq<Fragment>, key: bytes): Option<Content> {
    if Commitment(cfg, ref, fragments) != Some(ref.digest) then None
    else match cfg.decrypt(ref.manifest, key, ref.aad)
         case None => None
         case Some(raw) =>
           match cfg.decode(raw)
           case None => None
           case Some(m) =>
             if !ManifestFits(m, ref) then None
             else match Assembled(cfg, fragments, m, key)
                  case None => None
                  case Some(plain) => if Whole(cfg, m, plain) then Some(Content(plain, m.mime)) else None
  }

  lemma {:induction false} AssembledPrefix(cfg: Config, fragments: seq<Fragment>, m: Manifest, key: bytes, i: nat)
    requires |fragments| <= |m.chunks| && i <= |fragments| && Assembled(cfg, fragments[..i], m, key).None?
    ensures Assembled(cfg, fragments, m, key).None?
    decreases |fragments|
  {
    if i == |fragments| {
      assert fragments[..i] == fragments;
    } else {
      var n := |fragments| - 1;
      assert fragments[..n][..i] == fragments[..i];
      AssembledPrefix(cfg, fragments[..n], m, key, i);
    }
  }

  /** Returns content only after the whole ciphertext, the manifest and every fragment
      have been checked. */
  method Open(cfg: Config, ref: Reference, fragments: seq<Fragment>, key: bytes) returns (r: Option<Content>)
    ensures r == OpenContent(cfg, ref, fragments, key)
  {
    var source := new Source(fragments, None);
    var commitment := CommitmentStream(cfg, ref, source);
    if commitment != Some(ref.digest) { return None; }
    var raw := cfg.decrypt(ref.manifest, key, ref.aad);
    if raw.None? { return None; }
    var m := cfg.decode(raw.value);
    if m.None? || !ManifestFits(m.value, ref) { return None; }
    var plain := Assemble(cfg, fragments, m.value, key);
    if plain.None? || !Whole(cfg, m.value, plain.value) { return None; }
    return Some(Content(plain.value, m.value.mime));
  }

  method Assemble(cfg: Config, fragments: seq<Fragment>, m: Manifest, key: bytes) returns (r: Option<bytes>)
    requires |fragments| <= |m.chunks|
    ensures r == Assembled(cfg, fragments, m, key)
  {
    var result, index := [], 0;
    while index < |fragments|
      invariant 0 <= index <= |fragments| && Assembled(cfg, fragments[..index], m, key) == Some(result)
    {
      var d := m.chunks[index];
      assert fragments[..index + 1][..index] == fragments[..index];
      var part := cfg.decrypt(fragments[index].envelope, key, fragments[index].aad);
      if d.ordinal != index || d.offset != |result| || d.length < 1 || d.length > FRAGMENT_BYTES
         || |result| + d.length > m.size || part.None? || |part.value| != d.length || cfg.hash(part.value) != d.digest {
        AssembledPrefix(cfg, fragments, m, key, index + 1);
        return None;
      }
      result := result + part.value;
      index := index + 1;
    }
    assert fragments[..index] == fragments;
    return Some(result);
  }

  // ---------------------------------------------------------------- build

  /** What Build is given: `identity` names the content, and its count, size, digest
      and manifest are set by Build; the randomness of the encryptions is explicit. */
  datatype Input = Input(plain: bytes, key: bytes, identity: Reference, mime: bytes, nonces: nat -> nat, last: nat)

  function FragmentOf(cfg: Config, x: Input, i: nat): Fragment {
    var aad := cfg.fragmentAAD(x.identity.aad, i);
    Fragment(x.identity.contentId, i, cfg.encrypt(Part(x.plain, i), x.key, aad, x.nonces(i)), aad)
  }

  function ChunkOf(cfg: Config, plain: bytes, i: nat): Chunk {
    Json.Chunk(i, Offset(i, |plain|), |Part(plain, i)|, cfg.hash(Part(plain, i)))
  }

  function Fragments(cfg: Config, x: Input, n: nat): seq<Fragment> {
    seq(n, i requires 0 <= i < n => FragmentOf(cfg, x, i))
  }

  function Chunks(cfg: Config, plain: bytes, n: nat): seq<Chunk> {
    seq(n, i requires 0 <= i < n => ChunkOf(cfg, plain, i))
  }

  function ManifestOf(cfg: Config, x: Input): Manifest {
    Json.Manifest(x.identity.contentId, x.identity.purpose, x.mime, |x.plain|, cfg.hash(x.plain),
             Chunks(cfg, x.plain, CountOf(|x.plain|)))
  }

  function SealedManifest(cfg: Config, x: Input): bytes {
    cfg.encrypt(cfg.encode(ManifestOf(cfg, x)), x.key, x.identity.aad, x.last)
  }

  /** The reference before its digest is known. */
  function Draft(cfg: Config, x: Input, fragments: seq<Fragment>, head: nat): Reference {
    x.identity.(count := CountOf(|x.plain|), manifest := SealedManifest(cfg, x),
                size := head + TotalLength(cfg, fragments), digest := seq(32, _ => 0))
  }

  /** What Build refuses before encrypting anything. */
  predicate Buildable(cfg: Config, x: Input) {
    && 1 <= |x.plain| <= MAX_PLAINTEXT && 1 <= |x.mime| <= 128
    && (RequiresUtf8(x.mime) ==> Utf8.Valid(x.plain)) && ValidIdentity(x.identity) && cfg.scope(x.identity.aad)
  }

  function BuildTransfer(cfg: Config, x: Input): Option<Transfer> {
    if !Buildable(cfg, x) || |cfg.encode(ManifestOf(cfg, x))| > MAX_MANIFEST then None
    else
      var head := CipherLength(cfg, SealedManifest(cfg, x), MAX_MANIFEST + TAG);
      if head.None? then None
      else
        var fragments := Fragments(cfg, x, CountOf(|x.plain|));
        var ref := Draft(cfg, x, fragments, head.value);
        match Commitment(cfg, ref, fragments)
        case None => None
        case Some(digest) => Some(Transfer(ref.(digest := digest), fragments))
  }

  /** The chunking loop: one fragment and one description for each offset. */
  method Build(cfg: Config, x: Input) returns (r: Option<Transfer>)
    ensures r == BuildTransfer(cfg, x)
  {
    if !Buildable(cfg, x) { return None; }
    var fragments, chunks, offset, index := [], [], 0, 0;
    while offset < |x.plain|
      invariant 0 <= index <= CountOf(|x.plain|) && offset == Offset(index, |x.plain|)
      invariant offset < |x.plain| ==> index < CountOf(|x.plain|)
      invariant offset == |x.plain| ==> index == CountOf(|x.plain|)
      invariant fragments == Fragments(cfg, x, index) && chunks == Chunks(cfg, x.plain, index)
      decreases |x.plain| - offset
    {
      PartSize(x.plain, index);
      var size := Min(FRAGMENT_BYTES, |x.plain| - offset);
      var part := x.plain[offset..offset + size];
      assert part == Part(x.plain, index);
      var aad := cfg.fragmentAAD(x.identity.aad, index);
      var f := Fragment(x.identity.contentId, index, cfg.encrypt(part, x.key, aad, x.nonces(index)), aad);
      assert f == FragmentOf(cfg, x, index);
      fragments := fragments + [f];
      chunks := chunks + [Json.Chunk(index, offset, size, cfg.hash(part))];
      offset, index := offset + size, index + 1;
    }
    var raw := cfg.encode(Json.Manifest(x.identity.contentId, x.identity.purpose, x.mime, |x.plain|, cfg.hash(x.plain), chunks));
    if |raw| > MAX_MANIFEST { return None; }
    var manifest := cfg.encrypt(raw, x.key, x.identity.aad, x.last);
    var head := CipherLength(cfg, manifest, MAX_MANIFEST + TAG);
    if head.None? { return None; }
    var ref := Draft(cfg, x, fragments, head.value);
    var source := new Source(fragments, None);
    var digest := CommitmentStream(cfg, ref, source);
    if digest.None? { return None; }
    return Some(Transfer(ref.(digest := digest.value), fragments));
  }

  lemma {:induction false} FragmentLengths(cfg: Config, x: Input, n: nat)
    requires cfg.CipherLaws() && n <= CountOf(|x.plain|)
    ensures TotalLength(cfg, Fragments(cfg, x, n)) == Offset(n, |x.plain|) + TAG * n
  {
    var all := Fragments(cfg, x, n);
    if n > 0 {
      FragmentLengths(cfg, x, n - 1);
      assert all[..n - 1] == Fragments(cfg, x, n - 1);
      PartSize(x.plain, n - 1);
      assert all[n - 1] == FragmentOf(cfg, x, n - 1);
      assert cfg.cipherLength(all[n - 1].envelope) == Some(|Part(x.plain, n - 1)| + TAG);
    }
  }

  lemma SealedLength(cfg: Config, x: Input)
    requires cfg.CipherLaws()
    ensures cfg.cipherLength(SealedManifest(cfg, x)) == Some(|cfg.encode(ManifestOf(cfg, x))| + TAG)
  {
  }

  /** The parts of a built transfer. */
  lemma BuiltParts(cfg: Config, x: Input) returns (head: nat, digest: bytes)
    requires BuildTransfer(cfg, x).Some?
    ensures Buildable(cfg, x) && |cfg.encode(ManifestOf(cfg, x))| <= MAX_MANIFEST
    ensures CipherLength(cfg, SealedManifest(cfg, x), MAX_MANIFEST + TAG) == Some(head)
    ensures
      var fragments := Fragments(cfg, x, CountOf(|x.plain|));
      var draft := Draft(cfg, x, fragments, head);
      && BuildTransfer(cfg, x) == Some(Transfer(draft.(digest := digest), fragments))
      && Commitment(cfg, draft, fragments) == Some(digest)
  {
    head := CipherLength(cfg, SealedManifest(cfg, x), MAX_MANIFEST + TAG).value;
    digest := BuildTransfer(cfg, x).value.reference.digest;
  }

  lemma CountExact(n: nat)
    requires 1 <= n <= MAX_PLAINTEXT
    ensures Offset(CountOf(n), n) == n && CountOf(n) <= MAX_FRAGMENTS
  {
  }

  lemma DraftSize(cfg: Config, x: Input, head: nat)
    requires cfg.CipherLaws() && 1 <= |x.plain| <= MAX_PLAINTEXT
    requires |cfg.encode(ManifestOf(cfg, x))| <= MAX_MANIFEST
    requires CipherLength(cfg, SealedManifest(cfg, x), MAX_MANIFEST + TAG) == Some(head)
    ensures
      var n := CountOf(|x.plain|);
      var size := Draft(cfg, x, Fragments(cfg, x, n), head).size;
      size == |x.plain| + TAG * n + |cfg.encode(ManifestOf(cfg, x))| + TAG && size < MAX_CIPHERTEXT && n <= MAX_FRAGMENTS
  {
    var n := CountOf(|x.plain|);
    FragmentLengths(cfg, x, n);
    SealedLength(cfg, x);
    CountExact(|x.plain|);
  }

  /** What Build makes always fits: the ciphertext is the plaintext plus one tag for
      each fragment plus the sealed manifest, below the 30 MiB limit. */
  lemma BuiltSize(cfg: Config, x: Input)
    requires cfg.Valid() && BuildTransfer(cfg, x).Some?
    ensures
      var t := BuildTransfer(cfg, x).value;
      && |t.fragments| == t.reference.count == CountOf(|x.plain|) <= MAX_FRAGMENTS
      && t.reference.size == |x.plain| + TAG * t.reference.count + |cfg.encode(ManifestOf(cfg, x))| + TAG
      && t.reference.size < MAX_CIPHERTEXT
  {
    var head, _ := BuiltParts(cfg, x);
    DraftSize(cfg, x, head);
  }

  /** What the scope rules must accept: the public reference and every fragment's
      associated data. */
  ghost predicate InScope(cfg: Config, x: Input) {
    && cfg.referenceScope(x.identity.(count := CountOf(|x.plain|), size := 0, digest := [], manifest := []))
    && forall i: nat :: i < CountOf(|x.plain|) ==> cfg.scope(cfg.fragmentAAD(x.identity.aad, i))
  }

  lemma FragmentsValidIff(cfg: Config, x: Input, ref: Reference)
    requires cfg.Valid() && ref.contentId == x.identity.contentId && ref.aad == x.identity.aad
    requires ref.count == CountOf(|x.plain|)
    ensures AllValid(cfg, ref, Fragments(cfg, x, ref.count)) <==>
      forall i: nat :: i < CountOf(|x.plain|) ==> cfg.scope(cfg.fragmentAAD(x.identity.aad, i))
  {
    var n := CountOf(|x.plain|);
    var fragments := Fragments(cfg, x, n);
    forall i: nat | i < n
      ensures fragments[i].ordinal == i
      ensures ValidFragment(cfg, ref, fragments[i]) <==> cfg.scope(cfg.fragmentAAD(x.identity.aad, i))
    {
      PartSize(x.plain, i);
      assert fragments[i] == FragmentOf(cfg, x, i);
    }
    if AllValid(cfg, ref, fragments) {
      forall i: nat | i < n ensures cfg.scope(cfg.fragmentAAD(x.identity.aad, i)) {
        assert ValidFragment(cfg, ref, fragments[i]);
      }
    }
  }

  lemma ManifestTextShort(cfg: Config, x: Input)
    requires Buildable(cfg, x) && forall b: bytes :: |cfg.hash(b)| == 32
    ensures |Json.Text(ManifestOf(cfg, x))| <= MAX_MANIFEST
  {
    var m := ManifestOf(cfg, x);
    CountExact(|x.plain|);
    forall i: nat | i < |m.chunks| ensures Json.ShortChunk(m.chunks[i]) {
      PartSize(x.plain, i);
      ChunkAt(cfg, x.plain, i);
    }
    PurposeShort(x.identity.purpose);
    Json.TextShort(m);
  }

  lemma TextIsEncoding(cfg: Config, m: Manifest)
    requires cfg.TextLaw()
    ensures cfg.encode(m) == Json.Text(m)
  {
  }

  /** The manifest of anything Build accepts fits its limit. */
  lemma ManifestFitsAlways(cfg: Config, x: Input)
    requires cfg.Valid() && Buildable(cfg, x)
    ensures |cfg.encode(ManifestOf(cfg, x))| <= MAX_MANIFEST
  {
    TextIsEncoding(cfg, ManifestOf(cfg, x));
    ManifestTextShort(cfg, x);
  }

  lemma PurposeShort(purpose: bytes)
    requires KnownPurpose(purpose)
    ensures |purpose| <= 18
  {
    var name :| name in Purposes() && purpose == Ascii(name);
    var i :| 0 <= i < |Purposes()| && Purposes()[i] == name;
  }

  lemma BuildsIff(cfg: Config, x: Input)
    requires cfg.Valid()
    ensures BuildTransfer(cfg, x).Some? <==> Buildable(cfg, x) && InScope(cfg, x)
  {
    if Buildable(cfg, x) {
      ManifestFitsAlways(cfg, x);
      SealedLength(cfg, x);
      var head := |cfg.encode(ManifestOf(cfg, x))| + TAG;
      BuildCommits(cfg, x, head);
      DraftCommitsIff(cfg, x, head);
    }
  }

  /** Build succeeds if and only if its input is acceptable: neither the chunking, nor
      the manifest's limit, nor any limit on ciphertext ever stops it. */
  lemma BuildSucceedsIff(cfg: Config, x: Input)
    requires cfg.Valid()
    ensures BuildTransfer(cfg, x).Some? <==>
      && 1 <= |x.plain| <= 20 * 1024 * 1024 && 1 <= |x.mime| <= 128
      && (Ascii("text/") <= x.mime || x.mime == Ascii("application/json") ==> Utf8.Valid(x.plain))
      && CanonicalUuid(x.identity.contentId) && KnownPurpose(x.identity.purpose)
      && cfg.scope(x.identity.aad) && InScope(cfg, x)
  {
    BuildsIff(cfg, x);
  }

  lemma BuildCommits(cfg: Config, x: Input, head: nat)
    requires Buildable(cfg, x) && |cfg.encode(ManifestOf(cfg, x))| <= MAX_MANIFEST
    requires CipherLength(cfg, SealedManifest(cfg, x), MAX_MANIFEST + TAG) == Some(head)
    ensures
      var fragments := Fragments(cfg, x, CountOf(|x.plain|));
      BuildTransfer(cfg, x).Some? <==> Commitment(cfg, Draft(cfg, x, fragments, head), fragments).Some?
  {
  }

  lemma DraftCommitsIff(cfg: Config, x: Input, head: nat)
    requires cfg.Valid() && Buildable(cfg, x) && |cfg.encode(ManifestOf(cfg, x))| <= MAX_MANIFEST
    requires CipherLength(cfg, SealedManifest(cfg, x), MAX_MANIFEST + TAG) == Some(head)
    ensures
      var fragments := Fragments(cfg, x, CountOf(|x.plain|));
      Commitment(cfg, Draft(cfg, x, fragments, head), fragments).Some? <==> InScope(cfg, x)
  {
    var fragments := Fragments(cfg, x, CountOf(|x.plain|));
    var ref := Draft(cfg, x, fragments, head);
    DraftValidIff(cfg, x, head);
    FragmentsValidIff(cfg, x, ref);
  }

  lemma DraftValidIff(cfg: Config, x: Input, head: nat)
    requires cfg.CipherLaws() && Buildable(cfg, x) && |cfg.encode(ManifestOf(cfg, x))| <= MAX_MANIFEST
    requires CipherLength(cfg, SealedManifest(cfg, x), MAX_MANIFEST + TAG) == Some(head)
    ensures
      var count := CountOf(|x.plain|);
      ValidReference(cfg, Draft(cfg, x, Fragments(cfg, x, count), head)) <==>
        cfg.referenceScope(x.identity.(count := count, size := 0, digest := [], manifest := []))
  {
    var count := CountOf(|x.plain|);
    var ref := Draft(cfg, x, Fragments(cfg, x, count), head);
    DraftSize(cfg, x, head);
    assert ref.(size := 0, digest := [], manifest := []) == x.identity.(count := count, size := 0, digest := [], manifest := []);
    assert cfg.envelopeEpoch(ref.manifest) == cfg.epoch(ref.aad);
    assert ValidIdentity(ref) == ValidIdentity(x.identity);
  }

  // ---------------------------------------------------------------- whole or nothing

  /** The digest is no part of what is hashed, so the finished reference commits to the
      same value as the draft. */
  lemma DigestIsFree(cfg: Config, ref: Reference, fragments: seq<Fragment>, digest: bytes)
    requires Commitment(cfg, ref, fragments).Some? && |digest| == 32
    ensures Commitment(cfg, ref.(digest := digest), fragments) == Commitment(cfg, ref, fragments)
  {
    var ref' := ref.(digest := digest);
    assert ref'.(size := 0, digest := [], manifest := []) == ref.(size := 0, digest := [], manifest := []);
    assert ValidReference(cfg, ref');
    assert AllValid(cfg, ref', fragments);
    assert Preimage(ref', fragments) == Preimage(ref, fragments);
  }

  lemma {:induction false} PartsAssemble(cfg: Config, x: Input, m: Manifest, n: nat)
    requires cfg.CipherLaws() && n <= CountOf(|x.plain|)
    requires m.chunks == Chunks(cfg, x.plain, CountOf(|x.plain|)) && m.size == |x.plain|
    ensures Assembled(cfg, Fragments(cfg, x, n), m, x.key) == Some(x.plain[..Offset(n, |x.plain|)])
  {
    if n > 0 {
      PartsAssemble(cfg, x, m, n - 1);
      AssembleOne(cfg, x, m, n - 1);
    }
  }

  lemma PartDecrypts(cfg: Config, x: Input, i: nat)
    requires cfg.CipherLaws()
    ensures var f := FragmentOf(cfg, x, i); cfg.decrypt(f.envelope, x.key, f.aad) == Some(Part(x.plain, i))
  {
  }

  /** One more fragment that matches its description. */
  lemma AssembleStep(cfg: Config, fragments: seq<Fragment>, f: Fragment, m: Manifest, key: bytes, done: bytes, part: bytes)
    requires |fragments| < |m.chunks| && Assembled(cfg, fragments, m, key) == Some(done)
    requires cfg.decrypt(f.envelope, key, f.aad) == Some(part)
    requires m.chunks[|fragments|] == Json.Chunk(|fragments|, |done|, |part|, cfg.hash(part))
    requires 1 <= |part| <= FRAGMENT_BYTES && |done| + |part| <= m.size
    ensures Assembled(cfg, fragments + [f], m, key) == Some(done + part)
  {
    assert (fragments + [f])[..|fragments|] == fragments;
  }

  lemma AssembleOne(cfg: Config, x: Input, m: Manifest, n: nat)
    requires cfg.CipherLaws() && n < CountOf(|x.plain|)
    requires m.chunks == Chunks(cfg, x.plain, CountOf(|x.plain|)) && m.size == |x.plain|
    requires Assembled(cfg, Fragments(cfg, x, n), m, x.key) == Some(x.plain[..Offset(n, |x.plain|)])
    ensures Assembled(cfg, Fragments(cfg, x, n + 1), m, x.key) == Some(x.plain[..Offset(n + 1, |x.plain|)])
  {
    FragmentsGrow(cfg, x, n);
    PartSize(x.plain, n);
    PartDecrypts(cfg, x, n);
    ChunkAt(cfg, x.plain, n);
    PlainGrows(x.plain, n);
    AssembleStep(cfg, Fragments(cfg, x, n), FragmentOf(cfg, x, n), m, x.key, x.plain[..Offset(n, |x.plain|)], Part(x.plain, n));
  }

  lemma FragmentsGrow(cfg: Config, x: Input, n: nat)
    ensures Fragments(cfg, x, n + 1) == Fragments(cfg, x, n) + [FragmentOf(cfg, x, n)]
  {
  }

  lemma ChunkAt(cfg: Config, plain: bytes, n: nat)
    requires n < CountOf(|plain|)
    ensures Chunks(cfg, plain, CountOf(|plain|))[n] == ChunkOf(cfg, plain, n)
  {
  }

  lemma PlainGrows(plain: bytes, n: nat)
    requires n < CountOf(|plain|)
    ensures plain[..Offset(n + 1, |plain|)] == plain[..Offset(n, |plain|)] + Part(plain, n)
  {
    PartSize(plain, n);
  }

  lemma MimeKeepsRequirement(mime: bytes)
    ensures RequiresUtf8(Utf8.Sanitize(mime)) == RequiresUtf8(mime)
  {
    var json := Mime("application/json");
    AsciiIsAscii("text/");
    AsciiIsAscii("application/json");
    Utf8.SanitizeKeepsAsciiPrefix(mime, Mime("text/"));
    Utf8.SanitizeKeepsAsciiPrefix(mime, json);
    Utf8.SanitizeGrows(mime);
    if Utf8.Sanitize(mime) == json {
      assert json <= mime;
      assert mime == json;
    }
    if mime == json { AsciiIsValid(json); Utf8.SanitizeIsIdentityIffValid(json); }
  }

  lemma {:induction false} AsciiIsValid(s: bytes)
    requires forall i :: 0 <= i < |s| ==> s[i] < 0x80
    ensures Utf8.Valid(s)
    decreases |s|
  {
    if s != [] { AsciiIsValid(s[1..]); }
  }

  lemma OpensToSanitized(cfg: Config, x: Input, ref: Reference, fragments: seq<Fragment>)
    requires cfg.CipherLaws() && cfg.JsonLaw() && Buildable(cfg, x) && Commitment(cfg, ref, fragments) == Some(ref.digest)
    requires fragments == Fragments(cfg, x, CountOf(|x.plain|)) && ref.manifest == SealedManifest(cfg, x)
    requires ref.aad == x.identity.aad && ref.contentId == x.identity.contentId && ref.purpose == x.identity.purpose
    requires ref.count == CountOf(|x.plain|)
    ensures OpenContent(cfg, ref, fragments, x.key) ==
      if |Utf8.Sanitize(x.mime)| <= 128 then Some(Content(x.plain, Utf8.Sanitize(x.mime))) else None
  {
    var m := ManifestOf(cfg, x);
    var m' := m.(mime := Utf8.Sanitize(x.mime));
    ManifestOpens(cfg, x);
    PartsAssemble(cfg, x, m', CountOf(|x.plain|));
    CountExact(|x.plain|);
    assert x.plain[..|x.plain|] == x.plain;
    SanitizedFits(cfg, x, ref);
    OpenWith(cfg, ref, fragments, x.key, cfg.encode(m), m', x.plain);
  }

  lemma SanitizedFits(cfg: Config, x: Input, ref: Reference)
    requires Buildable(cfg, x) && ref.contentId == x.identity.contentId && ref.purpose == x.identity.purpose
    requires ref.count == CountOf(|x.plain|)
    ensures
      var m := ManifestOf(cfg, x).(mime := Utf8.Sanitize(x.mime));
      ManifestFits(m, ref) && Whole(cfg, m, x.plain) <==> |Utf8.Sanitize(x.mime)| <= 128
  {
    Utf8.SanitizeGrows(x.mime);
    MimeKeepsRequirement(x.mime);
  }

  lemma IdentityIsText(ref: Reference)
    requires ValidIdentity(ref)
    ensures Utf8.Sanitize(ref.contentId) == ref.contentId && Utf8.Sanitize(ref.purpose) == ref.purpose
  {
    AsciiIsValid(ref.contentId);
    var name :| name in Purposes() && ref.purpose == Ascii(name);
    AsciiIsAscii(name);
    AsciiIsValid(ref.purpose);
    Utf8.SanitizeIsIdentityIffValid(ref.contentId);
    Utf8.SanitizeIsIdentityIffValid(ref.purpose);
  }

  lemma ManifestOpens(cfg: Config, x: Input)
    requires cfg.CipherLaws() && cfg.JsonLaw() && ValidIdentity(x.identity)
    ensures cfg.decrypt(SealedManifest(cfg, x), x.key, x.identity.aad) == Some(cfg.encode(ManifestOf(cfg, x)))
    ensures cfg.decode(cfg.encode(ManifestOf(cfg, x))) == Some(ManifestOf(cfg, x).(mime := Utf8.Sanitize(x.mime)))
  {
    IdentityIsText(x.identity);
  }

  /** Opening when every step before the final checks succeeds. */
  lemma OpenWith(cfg: Config, ref: Reference, fragments: seq<Fragment>, key: bytes, raw: bytes, m: Manifest, plain: bytes)
    requires Commitment(cfg, ref, fragments) == Some(ref.digest) && cfg.decrypt(ref.manifest, key, ref.aad) == Some(raw)
    requires cfg.decode(raw) == Some(m) && |m.chunks| == ref.count && Assembled(cfg, fragments, m, key) == Some(plain)
    ensures OpenContent(cfg, ref, fragments, key) ==
      if ManifestFits(m, ref) && Whole(cfg, m, plain) then Some(Content(plain, m.mime)) else None
  {
  }

  /** Opening what Build made returns exactly the plaintext and the MIME type as JSON
      can carry it, or nothing when that is longer than 128 bytes. */
  lemma OpenOfBuild(cfg: Config, x: Input)
    requires cfg.Valid() && BuildTransfer(cfg, x).Some?
    ensures
      var t := BuildTransfer(cfg, x).value;
      OpenContent(cfg, t.reference, t.fragments, x.key) ==
        if |Utf8.Sanitize(x.mime)| <= 128 then Some(Content(x.plain, Utf8.Sanitize(x.mime))) else None
  {
    var head, digest := BuiltParts(cfg, x);
    var t := BuildTransfer(cfg, x).value;
    DigestIsFree(cfg, Draft(cfg, x, t.fragments, head), t.fragments, digest);
    OpensToSanitized(cfg, x, t.reference, t.fragments);
  }

  /** The round trip is exact if and only if the MIME type is valid UTF-8. */
  lemma RoundTripIffUtf8Mime(cfg: Config, x: Input)
    requires cfg.Valid() && BuildTransfer(cfg, x).Some?
    ensures
      var t := BuildTransfer(cfg, x).value;
      OpenContent(cfg, t.reference, t.fragments, x.key) == Some(Content(x.plain, x.mime)) <==> Utf8.Valid(x.mime)
  {
    OpenOfBuild(cfg, x);
    var head, _ := BuiltParts(cfg, x);
    Utf8.SanitizeIsIdentityIffValid(x.mime);
  }

  /** What was opened once can be built again and then comes back exactly: JSON changes
      a MIME type at most once. */
  lemma SecondTripIsExact(cfg: Config, x: Input)
    requires cfg.Valid() && BuildTransfer(cfg, x).Some? && |Utf8.Sanitize(x.mime)| <= 128
    ensures
      var again := x.(mime := Utf8.Sanitize(x.mime));
      && BuildTransfer(cfg, again).Some?
      && var t := BuildTransfer(cfg, again).value;
         OpenContent(cfg, t.reference, t.fragments, x.key) == Some(Content(x.plain, again.mime))
  {
    var again := x.(mime := Utf8.Sanitize(x.mime));
    BuildsIff(cfg, x);
    Utf8.SanitizeGrows(x.mime);
    MimeKeepsRequirement(x.mime);
    BuildsIff(cfg, again);
    Utf8.SanitizeIsValid(x.mime);
    RoundTripIffUtf8Mime(cfg, again);
  }

  /** A MIME type of one stray byte comes back as the three bytes of U+FFFD. */
  lemma StrayMimeChanges(cfg: Config, x: Input)
    requires cfg.Valid() && BuildTransfer(cfg, x).Some? && x.mime == [0xFF]
    ensures
      var t := BuildTransfer(cfg, x).value;
      OpenContent(cfg, t.reference, t.fragments, x.key) == Some(Content(x.plain, Utf8.REPLACEMENT))
  {
    OpenOfBuild(cfg, x);
    StraySanitized(x.mime);
  }

  lemma StraySanitized(s: bytes)
    requires s == [0xFF]
    ensures Utf8.Sanitize(s) == Utf8.REPLACEMENT
  {
    assert Utf8.RuneSize(s) == 0 && s[1..] == [];
  }

  /** For the reference Build made, any fragment list that opens is the built one, or
      the two commitments are a hash collision: missing, extra, reordered or
      substituted fragments open to nothing. */
  lemma OtherFragmentsDoNotOpen(cfg: Config, x: Input, others: seq<Fragment>, key: bytes)
    requires cfg.Valid() && BuildTransfer(cfg, x).Some?
    requires OpenContent(cfg, BuildTransfer(cfg, x).value.reference, others, key).Some?
    ensures
      var t := BuildTransfer(cfg, x).value;
      || others == t.fragments
      || (Preimage(t.reference, others) != Preimage(t.reference, t.fragments)
          && cfg.hash(Preimage(t.reference, others)) == cfg.hash(Preimage(t.reference, t.fragments)))
  {
    var head, digest := BuiltParts(cfg, x);
    var t := BuildTransfer(cfg, x).value;
    DigestIsFree(cfg, Draft(cfg, x, t.fragments, head), t.fragments, digest);
    assert Commitment(cfg, t.reference, others) == Some(digest) == Commitment(cfg, t.reference, t.fragments);
    if Preimage(t.reference, others) == Preimage(t.reference, t.fragments) {
      SameCommitment(cfg, t.reference, others, t.fragments);
    }
  }

  lemma SameCommitment(cfg: Config, ref: Reference, a: seq<Fragment>, b: seq<Fragment>)
    requires cfg.CanonicalLaw() && Commitment(cfg, ref, a).Some? && Commitment(cfg, ref, b).Some?
    requires Preimage(ref, a) == Preimage(ref, b)
    ensures a == b
  {
    SplitEqual(Header(ref), Body(a), Header(ref), Body(b));
    assert Pieces(a)[0..] == Pieces(a) && Pieces(b)[0..] == Pieces(b);
    forall i | 0 <= i < |a| ensures Alike(a[i], b[i]) {
      assert ValidFragment(cfg, ref, a[i]) && ValidFragment(cfg, ref, b[i]);
    }
    BodyInjective(a, b, 0);
    forall i | 0 <= i < |a| ensures a[i] == b[i] {
      assert ValidFragment(cfg, ref, a[i]) && ValidFragment(cfg, ref, b[i]);
    }
  }
}
