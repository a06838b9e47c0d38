/** When native content opens: which references and fragments have a commitment, and
    which of them give a plaintext, in terms of the fragments' own plaintexts. */
module NativeContentOpens {
  import opened Bytes
  import opened NativeContent
  import Json = ManifestJson
  import Utf8

  // ---------------------------------------------------------------- the commitment

  /** An envelope whose ciphertext holds a tag and at most `plain` bytes more. */
  predicate SealedWithin(cfg: Config, envelope: bytes, plain: nat) {
    cfg.cipherLength(envelope).Some? && 16 <= cfg.cipherLength(envelope).value <= plain + 16
  }

  /** Exactly the declared fragments, in order, of this content, epoch and scope. */
  predicate InOrder(cfg: Config, ref: Reference, fragments: seq<Fragment>) {
    && |fragments| == ref.count
    && forall i :: 0 <= i < |fragments| ==> FragmentFine(cfg, ref, fragments[i], i)
  }

  predicate FragmentFine(cfg: Config, ref: Reference, f: Fragment, i: nat) {
    && f.ordinal == i && f.contentId == ref.contentId
    && f.aad == cfg.fragmentAAD(ref.aad, i) && cfg.scope(f.aad)
    && cfg.envelopeEpoch(f.envelope) == cfg.epoch(ref.aad) && SealedWithin(cfg, f.envelope, 64 * 1024)
  }

  predicate ReferenceFine(cfg: Config, ref: Reference) {
    && 1 <= ref.count <= 320 && 1 <= ref.size <= 30 * 1024 * 1024 && |ref.digest| == 32
    && CanonicalUuid(ref.contentId) && KnownPurpose(ref.purpose)
    && cfg.referenceScope(ref.(size := 0, digest := [], manifest := []))
    && cfg.envelopeEpoch(ref.manifest) == cfg.epoch(ref.aad) && SealedWithin(cfg, ref.manifest, 64 * 1024)
  }

  lemma FragmentFineIff(cfg: Config, ref: Reference, f: Fragment, i: nat)
    requires i < ref.count
    ensures FragmentFine(cfg, ref, f, i) <==> f.ordinal == i && ValidFragment(cfg, ref, f)
  {
  }

  /** A commitment exists exactly for a reference within all limits, with exactly its
      fragments in order, whose ciphertext lengths add up to the declared size. */
  lemma CommitsExactly(cfg: Config, ref: Reference, fragments: seq<Fragment>)
    ensures Commitment(cfg, ref, fragments).Some? <==>
      && ReferenceFine(cfg, ref) && InOrder(cfg, ref, fragments)
      && cfg.cipherLength(ref.manifest).value + TotalLength(cfg, fragments) == ref.size
  {
    if |fragments| == ref.count {
      forall i: nat | i < |fragments|
        ensures FragmentFine(cfg, ref, fragments[i], i) <==> fragments[i].ordinal == i && ValidFragment(cfg, ref, fragments[i])
      {
        FragmentFineIff(cfg, ref, fragments[i], i);
      }
    }
  }

  // ---------------------------------------------------------------- the plaintext

  /** `parts` are the plaintexts of the fragments. */
  predicate Opened(cfg: Config, fragments: seq<Fragment>, key: bytes, parts: seq<bytes>) {
    && |parts| == |fragments|
    && forall i :: 0 <= i < |parts| ==> cfg.decrypt(fragments[i].envelope, key, fragments[i].aad) == Some(parts[i])
  }

  /** The manifest describes each part: its place, its length of one byte to 64 KiB, and
      its hash; and all of them together are no longer than it says. */
  predicate Described(cfg: Config, m: Json.Manifest, parts: seq<bytes>) {
    && |parts| <= |m.chunks| && |Joined(parts)| <= m.size
    && forall i :: 0 <= i < |parts| ==> DescribedAt(cfg, m.chunks[i], parts, i)
  }

  predicate DescribedAt(cfg: Config, c: Json.Chunk, parts: seq<bytes>, i: nat)
    requires i < |parts|
  {
    && c.ordinal == i && c.offset == |Joined(parts[..i])|
    && 1 <= c.length == |parts[i]| <= 64 * 1024 && c.digest == cfg.hash(parts[i])
  }

  lemma SameAt(cfg: Config, c: Json.Chunk, parts: seq<bytes>, part: bytes, i: nat)
    requires i < |parts|
    ensures DescribedAt(cfg, c, parts + [part], i) <==> DescribedAt(cfg, c, parts, i)
  {
    assert (parts + [part])[..i] == parts[..i];
  }

  /** The description of one part after the others. */
  predicate DescribedNext(cfg: Config, c: Json.Chunk, done: nat, n: nat, part: bytes) {
    c.ordinal == n && c.offset == done && 1 <= c.length == |part| <= 64 * 1024 && c.digest == cfg.hash(part)
  }

  lemma LastAt(cfg: Config, c: Json.Chunk, parts: seq<bytes>, part: bytes)
    ensures DescribedAt(cfg, c, parts + [part], |parts|) <==> DescribedNext(cfg, c, |Joined(parts)|, |parts|, part)
    ensures Joined(parts + [part]) == Joined(parts) + part
  {
    assert (parts + [part])[..|parts|] == parts;
  }

  lemma DescribedMore(cfg: Config, m: Json.Manifest, parts: seq<bytes>, part: bytes)
    requires Described(cfg, m, parts) && |parts| < |m.chunks| && |Joined(parts)| + |part| <= m.size
    requires DescribedNext(cfg, m.chunks[|parts|], |Joined(parts)|, |parts|, part)
    ensures Described(cfg, m, parts + [part])
  {
    LastAt(cfg, m.chunks[|parts|], parts, part);
    forall i | 0 <= i < |parts + [part]| ensures DescribedAt(cfg, m.chunks[i], parts + [part], i) {
      if i < |parts| { SameAt(cfg, m.chunks[i], parts, part, i); }
    }
  }

  lemma DescribedLess(cfg: Config, m: Json.Manifest, parts: seq<bytes>, part: bytes)
    requires Described(cfg, m, parts + [part])
    ensures Described(cfg, m, parts) && |parts| < |m.chunks| && |Joined(parts)| + |part| <= m.size
    ensures DescribedNext(cfg, m.chunks[|parts|], |Joined(parts)|, |parts|, part)
  {
    LastAt(cfg, m.chunks[|parts|], parts, part);
    assert DescribedAt(cfg, m.chunks[|parts|], parts + [part], |parts|);
    forall i | 0 <= i < |parts| ensures DescribedAt(cfg, m.chunks[i], parts, i) {
      assert DescribedAt(cfg, m.chunks[i], parts + [part], i);
      SameAt(cfg, m.chunks[i], parts, part, i);
    }
  }

  lemma {:induction false} AssembledHasParts(cfg: Config, fragments: seq<Fragment>, m: Json.Manifest, key: bytes)
    returns (parts: seq<bytes>)
    requires |fragments| <= |m.chunks| && m.size >= 0 && Assembled(cfg, fragments, m, key).Some?
    ensures Opened(cfg, fragments, key, parts) && Described(cfg, m, parts)
    ensures Assembled(cfg, fragments, m, key).value == Joined(parts)
    decreases |fragments|
  {
    if fragments == [] {
      parts := [];
    } else {
      var n := |fragments| - 1;
      var front := AssembledHasParts(cfg, fragments[..n], m, key);
      var part := cfg.decrypt(fragments[n].envelope, key, fragments[n].aad).value;
      parts := front + [part];
      LastAt(cfg, m.chunks[n], front, part);
      DescribedMore(cfg, m, front, part);
    }
  }

  lemma AssembledMore(cfg: Config, fragments: seq<Fragment>, m: Json.Manifest, key: bytes, done: bytes, part: bytes)
    requires 0 < |fragments| <= |m.chunks| && |done| + |part| <= m.size
    requires
      var n := |fragments| - 1;
      && Assembled(cfg, fragments[..n], m, key) == Some(done)
      && cfg.decrypt(fragments[n].envelope, key, fragments[n].aad) == Some(part)
      && DescribedNext(cfg, m.chunks[n], |done|, n, part)
    ensures Assembled(cfg, fragments, m, key) == Some(done + part)
  {
  }

  lemma OpenedFront(cfg: Config, fragments: seq<Fragment>, key: bytes, parts: seq<bytes>)
    requires Opened(cfg, fragments, key, parts) && fragments != []
    ensures Opened(cfg, fragments[..|fragments| - 1], key, parts[..|fragments| - 1])
  {
  }

  lemma {:induction false} PartsAssemble(cfg: Config, fragments: seq<Fragment>, m: Json.Manifest, key: bytes, parts: seq<bytes>)
    requires |fragments| <= |m.chunks| && Opened(cfg, fragments, key, parts) && Described(cfg, m, parts)
    ensures Assembled(cfg, fragments, m, key) == Some(Joined(parts))
    decreases |fragments|
  {
    if fragments != [] {
      var n := |fragments| - 1;
      var front, part := parts[..n], parts[n];
      assert parts == front + [part];
      LastAt(cfg, m.chunks[n], front, part);
      DescribedLess(cfg, m, front, part);
      OpenedFront(cfg, fragments, key, parts);
      PartsAssemble(cfg, fragments[..n], m, key, front);
      AssembledMore(cfg, fragments, m, key, Joined(front), part);
    }
  }

  /** The manifest the reference seals under this key, if it opens and reads. */
  function SealedIn(cfg: Config, ref: Reference, key: bytes): Option<Json.Manifest> {
    match cfg.decrypt(ref.manifest, key, ref.aad)
    case Some(raw) => cfg.decode(raw)
    case None => None
  }

  /** The manifest is for this reference and this content. */
  predicate Names(cfg: Config, ref: Reference, m: Json.Manifest, content: Content) {
    && m.contentId == ref.contentId && m.purpose == ref.purpose && |m.chunks| == ref.count
    && 1 <= |content.plain| == m.size <= 20 * 1024 * 1024 && m.digest == cfg.hash(content.plain)
    && content.mime == m.mime && 1 <= |content.mime| <= 128
    && (Ascii("text/") <= content.mime || content.mime == Ascii("application/json") ==> Utf8.Valid(content.plain))
  }

  ghost predicate Opens(cfg: Config, ref: Reference, fragments: seq<Fragment>, key: bytes, content: Content) {
    && Commitment(cfg, ref, fragments) == Some(ref.digest)
    && SealedIn(cfg, ref, key).Some? && Names(cfg, ref, SealedIn(cfg, ref, key).value, content)
    && exists parts :: PartsGive(cfg, SealedIn(cfg, ref, key).value, fragments, key, parts, content.plain)
  }

  predicate PartsGive(cfg: Config, m: Json.Manifest, fragments: seq<Fragment>, key: bytes, parts: seq<bytes>, plain: bytes) {
    Opened(cfg, fragments, key, parts) && Described(cfg, m, parts) && plain == Joined(parts)
  }

  lemma OpenedOpens(cfg: Config, ref: Reference, fragments: seq<Fragment>, key: bytes, content: Content)
    requires OpenContent(cfg, ref, fragments, key) == Some(content)
    ensures Opens(cfg, ref, fragments, key, content)
  {
    var m := SealedIn(cfg, ref, key).value;
    var parts := AssembledHasParts(cfg, fragments, m, key);
    assert PartsGive(cfg, m, fragments, key, parts, content.plain);
  }

  /** Content comes out exactly when the commitment is the reference's, its sealed
      manifest names this content with its size, hash and MIME type, and the content is
      the concatenation of what the fragments decrypt to, each as described. */
  lemma OpensExactly(cfg: Config, ref: Reference, fragments: seq<Fragment>, key: bytes, content: Content)
    ensures OpenContent(cfg, ref, fragments, key) == Some(content) <==> Opens(cfg, ref, fragments, key, content)
  {
    if OpenContent(cfg, ref, fragments, key) == Some(content) {
      OpenedOpens(cfg, ref, fragments, key, content);
    } else if Opens(cfg, ref, fragments, key, content) {
      var m := SealedIn(cfg, ref, key).value;
      var parts :| PartsGive(cfg, m, fragments, key, parts, content.plain);
      PartsAssemble(cfg, fragments, m, key, parts);
    }
  }
}
