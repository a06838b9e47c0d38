/** Transfer of the pair epoch key from issuer to recipient (sdk/pair_crypto.go and
    the enrollment branches of sdk/sharing_pair.go), on top of the two durable
    stores and across a relay that may answer anything.

    HPKE Auth mode is ideal: an unwrap under the issuer's public key succeeds only
    on a wrap the issuer has sent. The hash is an arbitrary function; where it is
    not collision free the theorem names the collision. */
module KeyAgreement {
  import opened Bytes
  import opened Durable
  import opened PairStore
  import Runs = PairStoreRuns

  datatype Config = Config(issuerKey: bytes, recipientKey: bytes,
                           hash: Descriptor -> bytes, fingerprint: bytes -> bytes)

  /** What a descriptor must satisfy besides equality with the trusted one. Version,
      suite, expiry, limits and permissions are judged by `termsOk`. */
  predicate ValidDescriptor(d: Descriptor, termsOk: bool) {
    && termsOk && d.generation >= 1
    && ValidPathId(d.grant) && ValidPathId(d.network) && ValidPathId(d.epoch)
    && |d.issuerKey| == 32 && |d.recipientKey| == 32
  }

  function Pending(cfg: Config, d: Descriptor, key: bytes, publication: Option<Package>): Record {
    Record(d.grant, d.generation, d.network, d.epoch, d, key, publication,
           cfg.fingerprint(d.issuerKey), cfg.fingerprint(d.recipientKey))
  }

  function IssuerRecord(cfg: Config, d: Descriptor, key: bytes, seed: nat): Record {
    Pending(cfg, d, key, Some(Package(d.epoch, d, Wrap(cfg.issuerKey, d.recipientKey, cfg.hash(d), key, seed))))
  }

  /** The guards before the issuer wraps: the relayed descriptor is the trusted one,
      names the issuer's own key, and the epoch key has the right length. */
  predicate IssuerMayPrepare(cfg: Config, raw: Descriptor, expected: Descriptor, termsOk: bool, key: bytes) {
    raw == expected && ValidDescriptor(raw, termsOk) && raw.issuerKey == cfg.issuerKey && |key| == 32
  }

  /** Ideal HPKE Auth unwrap with the recipient's private key. */
  function Unwrap(cfg: Config, sender: bytes, aad: bytes, w: Wrapped): Option<bytes> {
    match w
    case Wrap(s, r, a, key, _) => if s == sender && r == cfg.recipientKey && a == aad then Some(key) else None
    case Invented(_) => None
  }

  /** The record a recipient stores for an offered package, when it accepts it. */
  function RecipientRecord(cfg: Config, offer: Package, expected: Descriptor, termsOk: bool): Option<Record> {
    var d := offer.descriptor;
    if d != expected || !ValidDescriptor(d, termsOk) || d.recipientKey != cfg.recipientKey then None
    else match Unwrap(cfg, d.issuerKey, cfg.hash(d), offer.wrapped)
         case Some(key) => if |key| == 32 then Some(Pending(cfg, d, key, None)) else None
         case None => None
  }

  /** A recipient accepts a package exactly when its descriptor is the trusted one and
      valid, names the recipient's own key, and the pinned issuer wrapped a 32 byte key
      for it under that very descriptor; it then stores that key under that descriptor. */
  lemma AcceptsExactlyTheTrustedPackage(cfg: Config, offer: Package, trusted: Descriptor, termsOk: bool)
    ensures RecipientRecord(cfg, offer, trusted, termsOk).Some? <==>
      && offer.descriptor == trusted && trusted.recipientKey == cfg.recipientKey
      && termsOk && trusted.generation >= 1 && |trusted.issuerKey| == 32 && |trusted.recipientKey| == 32
      && ValidPathId(trusted.grant) && ValidPathId(trusted.network) && ValidPathId(trusted.epoch)
      && exists key, seed ::
           offer.wrapped == Wrap(trusted.issuerKey, cfg.recipientKey, cfg.hash(trusted), key, seed) && |key| == 32
    ensures forall r :: RecipientRecord(cfg, offer, trusted, termsOk) == Some(r) ==>
      r.descriptor == trusted && r.publication == None && offer.wrapped.Wrap? && r.epochKey == offer.wrapped.key
  {
    if offer.wrapped.Wrap? {
      var w := offer.wrapped;
      assert w == Wrap(w.sender, w.recipient, w.aad, w.key, w.seed);
    }
  }

  method PrepareIssuer(k: Keyring, cfg: Config, raw: Descriptor, expected: Descriptor, key: bytes, seed: nat, termsOk: bool)
    returns (out: Option<Package>)
    modifies k
    ensures !IssuerMayPrepare(cfg, raw, expected, termsOk, key) ==> k.disk == old(k.disk) && out == None
    ensures IssuerMayPrepare(cfg, raw, expected, termsOk, key) ==>
      var done := Outcome(old(k.disk), StorePlan(old(k.disk), IssuerRecord(cfg, raw, key, seed)), old(k.cut));
      k.disk == done.0 && out == PublicationOf(done.1)
  {
    if raw != expected || !ValidDescriptor(raw, termsOk) { return None; }
    if |key| != 32 || raw.issuerKey != cfg.issuerKey { return None; }
    var wrapped := Wrap(cfg.issuerKey, raw.recipientKey, cfg.hash(raw), key, seed);
    var stored := k.Store(Pending(cfg, raw, key, Some(Package(raw.epoch, raw, wrapped))));
    out := if stored.None? then None else stored.value.publication;
  }

  function PublicationOf(r: Option<Record>): Option<Package> {
    if r.None? then None else r.value.publication
  }

  method PrepareRecipient(k: Keyring, cfg: Config, offer: Package, expected: Descriptor, termsOk: bool) returns (ok: bool)
    modifies k
    ensures
      var r := RecipientRecord(cfg, offer, expected, termsOk);
      && (r.None? ==> k.disk == old(k.disk) && !ok)
      && (r.Some? ==>
            var done := Outcome(old(k.disk), StorePlan(old(k.disk), r.value), old(k.cut));
            k.disk == done.0 && ok == done.1.Some?)
    ensures ok ==> offer.descriptor == expected && expected.recipientKey == cfg.recipientKey && offer.wrapped.Wrap?
  {
    var d := offer.descriptor;
    if d != expected || !ValidDescriptor(d, termsOk) { return false; }
    if d.recipientKey != cfg.recipientKey { return false; }
    var key := Unwrap(cfg, d.issuerKey, cfg.hash(d), offer.wrapped);
    if key.None? || |key.value| != 32 { return false; }
    var stored := k.Store(Pending(cfg, d, key.value, None));
    ok := stored.Some?;
  }

  // ---------------------------------------------------------------- both sides and the relay

  /** Both stores and every wrap the issuer has sent. */
  datatype System = System(issuer: Runs.World, recipient: Runs.World, sent: set<Wrapped>)

  const START: System := System(Runs.FRESH, Runs.FRESH, {})

  /** `Resume` publishes a stored package, `Prepare` makes and publishes a new one;
      each publishes only when the stored descriptor is the trusted one. The two
      `Disk` steps are power losses and damage. */
  datatype Step =
    | Resume(b: Binding, expected: Descriptor, termsOk: bool, cut: nat)
    | Prepare(raw: Descriptor, expected: Descriptor, termsOk: bool, key: bytes, seed: nat, cut: nat)
    | Accept(offer: Package, trusted: Descriptor, termsOk: bool, cut: nat)
    | IssuerDisk(event: Runs.Step)
    | RecipientDisk(event: Runs.Step)

  /** The relay may offer any package, but no wrap from the issuer that it was not sent. */
  ghost predicate Possible(cfg: Config, s: System, step: Step) {
    match step
    case Resume(_, _, _, _) => true
    case Prepare(_, _, _, _, _, _) => true
    case Accept(offer, _, _, _) => offer.wrapped.Wrap? && offer.wrapped.sender == cfg.issuerKey ==> offer.wrapped in s.sent
    case IssuerDisk(event) => (event.PowerLoss? || event.Damage?) && Runs.Possible(s.issuer, event)
    case RecipientDisk(event) => (event.PowerLoss? || event.Damage?) && Runs.Possible(s.recipient, event)
  }

  function Publish(sent: set<Wrapped>, stored: Option<Record>, expected: Descriptor, termsOk: bool): set<Wrapped> {
    match PublicationOf(stored)
    case Some(package) =>
      if package.descriptor == expected && ValidDescriptor(expected, termsOk) then sent + {package.wrapped} else sent
    case None => sent
  }

  function Next(cfg: Config, s: System, step: Step): System {
    match step
    case Resume(b, expected, termsOk, cut) =>
      var call := Runs.Load(b, cut);
      s.(issuer := Runs.Next(s.issuer, call),
         sent := Publish(s.sent, Runs.Returned(s.issuer, call), expected, termsOk))
    case Prepare(raw, expected, termsOk, key, seed, cut) =>
      if !IssuerMayPrepare(cfg, raw, expected, termsOk, key) then s
      else
        var call := Runs.Store(IssuerRecord(cfg, raw, key, seed), cut);
        s.(issuer := Runs.Next(s.issuer, call),
           sent := Publish(s.sent, Runs.Returned(s.issuer, call), expected, termsOk))
    case Accept(offer, trusted, termsOk, cut) =>
      (match RecipientRecord(cfg, offer, trusted, termsOk)
       case Some(r) => s.(recipient := Runs.Next(s.recipient, Runs.Store(r, cut)))
       case None => s)
    case IssuerDisk(event) => s.(issuer := Runs.Next(s.issuer, event))
    case RecipientDisk(event) => s.(recipient := Runs.Next(s.recipient, event))
  }

  ghost predicate PossibleRun(cfg: Config, s: System, steps: seq<Step>)
    decreases |steps|
  {
    steps != [] ==> Possible(cfg, s, steps[0]) && PossibleRun(cfg, Next(cfg, s, steps[0]), steps[1..])
  }

  function Run(cfg: Config, s: System, steps: seq<Step>): System
    decreases |steps|
  {
    if steps == [] then s else Run(cfg, Next(cfg, s, steps[0]), steps[1..])
  }

  // ---------------------------------------------------------------- the invariant

  /** A record the issuer's own code built: its package is for its own descriptor and
      epoch, and wraps its own key for that descriptor's recipient. */
  predicate Issued(cfg: Config, b: Binding, r: Record) {
    && r.Of() == b == Binding(r.descriptor.grant, r.descriptor.generation)
    && r.publication.Some?
    && r.publication.value.descriptor == r.descriptor && r.publication.value.epoch == r.descriptor.epoch
    && var w := r.publication.value.wrapped;
       && w.Wrap? && w.sender == cfg.issuerKey && w.recipient == r.descriptor.recipientKey
       && w.aad == cfg.hash(r.descriptor) && w.key == r.epochKey
  }

  /** `w` is the wrap in the record `records[b]`. */
  predicate WrapOf(records: map<Binding, Record>, b: Binding, w: Wrapped) {
    b in records && records[b].publication.Some? && records[b].publication.value.wrapped == w
  }

  ghost predicate SentIsStored(records: map<Binding, Record>, w: Wrapped) {
    exists b :: WrapOf(records, b, w)
  }

  predicate Unwrapped(cfg: Config, r: Record, w: Wrapped) {
    w.Wrap? && w.aad == cfg.hash(r.descriptor) && w.key == r.epochKey
  }

  /** A recipient's record holds the key of some wrap the pinned issuer sent. */
  ghost predicate Received(cfg: Config, sent: set<Wrapped>, b: Binding, r: Record) {
    && b == Binding(r.descriptor.grant, r.descriptor.generation)
    && (r.descriptor.issuerKey == cfg.issuerKey ==> exists w :: w in sent && Unwrapped(cfg, r, w))
  }

  ghost predicate Inv(cfg: Config, s: System) {
    && Runs.Inv(s.issuer) && Runs.Inv(s.recipient)
    && (forall b :: b in s.issuer.written ==> Issued(cfg, b, s.issuer.written[b]))
    && (forall w :: w in s.sent ==> SentIsStored(s.issuer.written, w))
    && (forall b :: b in s.recipient.written ==> Received(cfg, s.sent, b, s.recipient.written[b]))
  }

  lemma IssuerCallKeepsInv(cfg: Config, s: System, call: Runs.Step, expected: Descriptor, termsOk: bool)
    requires Inv(cfg, s)
    requires call.Load? || (call.Store? && Issued(cfg, call.p.Of(), call.p))
    ensures Inv(cfg, s.(issuer := Runs.Next(s.issuer, call),
                        sent := Publish(s.sent, Runs.Returned(s.issuer, call), expected, termsOk)))
  {
    var before, after := s.issuer.written, Runs.Next(s.issuer, call).written;
    Runs.StepKeepsInv(s.issuer, call);
    Runs.StepGrows(s.issuer, call);
    forall b | b in after ensures Issued(cfg, b, after[b]) {
      if b !in before { Runs.WritesOnlyItsRecord(s.issuer, call, b); }
    }
    var returned := Runs.Returned(s.issuer, call);
    forall w | w in Publish(s.sent, returned, expected, termsOk) ensures SentIsStored(after, w) {
      if w in s.sent {
        var b :| WrapOf(before, b, w);
        assert WrapOf(after, b, w);
      } else {
        Runs.ReturnIsWritten(s.issuer, call);
        assert WrapOf(after, Runs.BindingOf(call), w);
      }
    }
    forall b | b in s.recipient.written
      ensures Received(cfg, Publish(s.sent, returned, expected, termsOk), b, s.recipient.written[b])
    {
      var r := s.recipient.written[b];
      if r.descriptor.issuerKey == cfg.issuerKey {
        var w :| w in s.sent && Unwrapped(cfg, r, w);
        assert w in Publish(s.sent, returned, expected, termsOk);
      }
    }
  }

  lemma AcceptKeepsInv(cfg: Config, s: System, offer: Package, trusted: Descriptor, termsOk: bool, cut: nat)
    requires Inv(cfg, s) && Possible(cfg, s, Accept(offer, trusted, termsOk, cut))
    ensures Inv(cfg, Next(cfg, s, Accept(offer, trusted, termsOk, cut)))
  {
    var stored := RecipientRecord(cfg, offer, trusted, termsOk);
    if stored.Some? {
      var r := stored.value;
      var call := Runs.Store(r, cut);
      Runs.StepKeepsInv(s.recipient, call);
      Runs.StepGrows(s.recipient, call);
      var after := Runs.Next(s.recipient, call).written;
      forall b | b in after ensures Received(cfg, s.sent, b, after[b]) {
        if b !in s.recipient.written {
          Runs.WritesOnlyItsRecord(s.recipient, call, b);
          assert Unwrapped(cfg, r, offer.wrapped);
        }
      }
    }
  }

  lemma StepKeepsInv(cfg: Config, s: System, step: Step)
    requires Inv(cfg, s) && Possible(cfg, s, step)
    ensures Inv(cfg, Next(cfg, s, step))
  {
    match step
    case Resume(b, expected, termsOk, cut) => IssuerCallKeepsInv(cfg, s, Runs.Load(b, cut), expected, termsOk);
    case Prepare(raw, expected, termsOk, key, seed, cut) =>
      IssuerCallKeepsInv(cfg, s, Runs.Store(IssuerRecord(cfg, raw, key, seed), cut), expected, termsOk);
    case Accept(offer, trusted, termsOk, cut) => AcceptKeepsInv(cfg, s, offer, trusted, termsOk, cut);
    case IssuerDisk(event) => Runs.StepKeepsInv(s.issuer, event);
    case RecipientDisk(event) => Runs.StepKeepsInv(s.recipient, event);
  }

  lemma {:induction false} RunKeepsInv(cfg: Config, s: System, steps: seq<Step>)
    requires Inv(cfg, s) && PossibleRun(cfg, s, steps)
    ensures Inv(cfg, Run(cfg, s, steps))
    decreases |steps|
  {
    if steps != [] {
      StepKeepsInv(cfg, s, steps[0]);
      RunKeepsInv(cfg, Next(cfg, s, steps[0]), steps[1..]);
    }
  }

  // ---------------------------------------------------------------- what is sent

  /** In every run each wrap ever sent is the one in a record of the issuer's store, for
      that record's own key and descriptor. */
  lemma SendsOnlyStoredPackages(cfg: Config, steps: seq<Step>, w: Wrapped) returns (b: Binding)
    requires PossibleRun(cfg, START, steps) && w in Run(cfg, START, steps).sent
    ensures
      var records := Run(cfg, START, steps).issuer.written;
      && WrapOf(records, b, w) && b == Binding(records[b].descriptor.grant, records[b].descriptor.generation)
      && w.Wrap? && w.sender == cfg.issuerKey && w.aad == cfg.hash(records[b].descriptor) && w.key == records[b].epochKey
  {
    RunKeepsInv(cfg, START, steps);
    var records := Run(cfg, START, steps).issuer.written;
    assert SentIsStored(records, w);
    b :| WrapOf(records, b, w);
    assert Issued(cfg, b, records[b]);
  }

  /** However often the issuer retries, crashes or is asked again with a fresh key, it
      never sends two different wraps under one descriptor hash, unless two descriptors
      it stored collide. */
  lemma OnePackagePerDescriptor(cfg: Config, steps: seq<Step>, v: Wrapped, w: Wrapped)
    requires PossibleRun(cfg, START, steps) && v in Run(cfg, START, steps).sent && w in Run(cfg, START, steps).sent
    requires v.Wrap? && w.Wrap? && v.aad == w.aad
    ensures
      var records := Run(cfg, START, steps).issuer.written;
      || v == w
      || (exists b, c :: b in records && c in records && Collision(cfg, records[b].descriptor, records[c].descriptor))
  {
    var records := Run(cfg, START, steps).issuer.written;
    var b := SendsOnlyStoredPackages(cfg, steps, v);
    var c := SendsOnlyStoredPackages(cfg, steps, w);
    if v != w { assert Collision(cfg, records[b].descriptor, records[c].descriptor); }
  }

  /** The package `PrepareIssuer` returns, and the record behind it. */
  function Prepared(cfg: Config, s: System, step: Step): Option<Record>
    requires step.Prepare?
  {
    if IssuerMayPrepare(cfg, step.raw, step.expected, step.termsOk, step.key)
    then Runs.Returned(s.issuer, Runs.Store(IssuerRecord(cfg, step.raw, step.key, step.seed), step.cut)) else None
  }

  predicate PackageFor(cfg: Config, r: Record, d: Descriptor) {
    && r.descriptor == d && r.publication.Some?
    && r.publication.value.descriptor == d && r.publication.value.epoch == d.epoch
    && var w := r.publication.value.wrapped;
       w.Wrap? && w == Wrap(cfg.issuerKey, d.recipientKey, cfg.hash(d), r.epochKey, w.seed)
  }

  /** A record under the names and key fingerprints of its descriptor. */
  predicate Pins(cfg: Config, r: Record, d: Descriptor) {
    && r.grant == d.grant && r.generation == d.generation && r.network == d.network && r.epoch == d.epoch && r.descriptor == d
    && r.issuer == cfg.fingerprint(d.issuerKey) && r.recipient == cfg.fingerprint(d.recipientKey)
  }

  /** In every run, retries included, the package `PrepareIssuer` returns is for the
      descriptor and epoch it was asked for, wraps a key for that descriptor's recipient
      under that descriptor's hash, and was asked for with the trusted descriptor, the
      issuer's own key and a 32 byte epoch key. */
  lemma PreparedPackageIsForItsDescriptor(cfg: Config, steps: seq<Step>, step: Step)
    requires PossibleRun(cfg, START, steps) && step.Prepare? && Prepared(cfg, Run(cfg, START, steps), step).Some?
    ensures PackageFor(cfg, Prepared(cfg, Run(cfg, START, steps), step).value, step.raw)
    ensures Pins(cfg, Prepared(cfg, Run(cfg, START, steps), step).value, step.raw)
    ensures step.raw == step.expected && step.raw.issuerKey == cfg.issuerKey && |step.key| == 32 && step.termsOk
  {
    RunKeepsInv(cfg, START, steps);
    var s := Run(cfg, START, steps);
    var p := IssuerRecord(cfg, step.raw, step.key, step.seed);
    IssuedIsReturned(cfg, s, Runs.Store(p, step.cut));
    StoreReturnsTheBinding(s.issuer.disk, p);
  }

  lemma IssuedIsReturned(cfg: Config, s: System, call: Runs.Step)
    requires Inv(cfg, s) && Runs.Returned(s.issuer, call).Some?
    requires call.Load? || (call.Store? && Issued(cfg, call.p.Of(), call.p))
    ensures var r := Runs.Returned(s.issuer, call).value; PackageFor(cfg, r, r.descriptor)
  {
    IssuerCallKeepsInv(cfg, s, call, Runs.Returned(s.issuer, call).value.descriptor, true);
    Runs.ReturnIsWritten(s.issuer, call);
    assert Issued(cfg, Runs.BindingOf(call), Runs.Returned(s.issuer, call).value);
  }

  /** In every run, when `PrepareRecipient` succeeds the record then stored, whether
      new or an earlier one, holds the offered descriptor and the key unwrapped from
      the offered package. */
  lemma AcceptedKeyIsTheOfferedOne(cfg: Config, steps: seq<Step>, step: Step)
    requires PossibleRun(cfg, START, steps) && step.Accept?
    requires RecipientRecord(cfg, step.offer, step.trusted, step.termsOk).Some?
    requires
      var p := RecipientRecord(cfg, step.offer, step.trusted, step.termsOk).value;
      Runs.Returned(Run(cfg, START, steps).recipient, Runs.Store(p, step.cut)).Some?
    ensures
      var d := step.offer.descriptor;
      var b := Binding(d.grant, d.generation);
      var written := Next(cfg, Run(cfg, START, steps), step).recipient.written;
      && d == step.trusted && step.offer.wrapped.Wrap?
      && b in written && Pins(cfg, written[b], d) && written[b].epochKey == step.offer.wrapped.key
  {
    RunKeepsInv(cfg, START, steps);
    var s := Run(cfg, START, steps);
    var p := RecipientRecord(cfg, step.offer, step.trusted, step.termsOk).value;
    Runs.ReturnIsWritten(s.recipient, Runs.Store(p, step.cut));
    StoreReturnsTheBinding(s.recipient.disk, p);
  }

  /** A step sends a package exactly when the issuer's call gave back a record of the
      trusted, valid descriptor, and then it sends that record's own wrap; no other
      step sends anything. */
  lemma PublishesExactlyTheTrusted(cfg: Config, steps: seq<Step>, step: Step)
    requires PossibleRun(cfg, START, steps) && Possible(cfg, Run(cfg, START, steps), step)
    ensures
      var s := Run(cfg, START, steps);
      var s' := Next(cfg, s, step);
      var r := if step.Resume? then Runs.Returned(s.issuer, Runs.Load(step.b, step.cut))
               else if step.Prepare? then Prepared(cfg, s, step) else None;
      s'.sent == if r.Some? && Trusted(r.value, step) then s.sent + {r.value.publication.value.wrapped} else s.sent
  {
    RunKeepsInv(cfg, START, steps);
    var s := Run(cfg, START, steps);
    if step.Resume? {
      var call := Runs.Load(step.b, step.cut);
      if Runs.Returned(s.issuer, call).Some? { IssuedIsReturned(cfg, s, call); }
    } else if step.Prepare? && Prepared(cfg, s, step).Some? {
      PreparedPackageIsForItsDescriptor(cfg, steps, step);
    }
  }

  predicate Trusted(r: Record, step: Step) {
    && (step.Resume? || step.Prepare?) && r.publication.Some? && r.descriptor == step.expected
    && step.termsOk && r.descriptor.generation >= 1
    && |r.descriptor.issuerKey| == 32 && |r.descriptor.recipientKey| == 32
    && ValidPathId(r.descriptor.grant) && ValidPathId(r.descriptor.network) && ValidPathId(r.descriptor.epoch)
  }

  // ---------------------------------------------------------------- agreement

  predicate Collision(cfg: Config, a: Descriptor, b: Descriptor) {
    a != b && cfg.hash(a) == cfg.hash(b)
  }

  /** Whatever the relay does and however often either side retries, crashes or loses
      power: a key the recipient has stored under the genuine issuer pin is the key in
      the issuer's one record for that grant and generation, under the same descriptor;
      or two descriptors the parties stored are a hash collision. */
  lemma StoredKeysAgree(cfg: Config, steps: seq<Step>, b: Binding)
    requires PossibleRun(cfg, START, steps)
    requires
      var s := Run(cfg, START, steps);
      b in s.recipient.written && s.recipient.written[b].descriptor.issuerKey == cfg.issuerKey
    ensures
      var s := Run(cfg, START, steps);
      var r := s.recipient.written[b];
      || (b in s.issuer.written && s.issuer.written[b].epochKey == r.epochKey
          && s.issuer.written[b].descriptor == r.descriptor)
      || (exists other :: other in s.issuer.written && Collision(cfg, s.issuer.written[other].descriptor, r.descriptor))
  {
    RunKeepsInv(cfg, START, steps);
    var s := Run(cfg, START, steps);
    var r := s.recipient.written[b];
    var w :| w in s.sent && Unwrapped(cfg, r, w);
    var other :| WrapOf(s.issuer.written, other, w);
    assert Issued(cfg, other, s.issuer.written[other]);
  }

  /** The same for what the calls return: any record a recipient call ever gives back
      for a pinned issuer holds the key and descriptor of any record an issuer call
      gives back, or its descriptor collides with one the issuer stored. */
  lemma ReturnedKeysAgree(cfg: Config, steps: seq<Step>, issuerCall: Runs.Step, recipientCall: Runs.Step)
    requires PossibleRun(cfg, START, steps)
    requires issuerCall.Load? && recipientCall.Load? && issuerCall.b == recipientCall.b
    requires
      var s := Run(cfg, START, steps);
      && Runs.Returned(s.issuer, issuerCall).Some? && Runs.Returned(s.recipient, recipientCall).Some?
      && Runs.Returned(s.recipient, recipientCall).value.descriptor.issuerKey == cfg.issuerKey
    ensures
      var s := Run(cfg, START, steps);
      var r := Runs.Returned(s.recipient, recipientCall).value;
      || (Runs.Returned(s.issuer, issuerCall).value.epochKey == r.epochKey
          && Runs.Returned(s.issuer, issuerCall).value.descriptor == r.descriptor)
      || (exists other :: other in s.issuer.written && Collision(cfg, s.issuer.written[other].descriptor, r.descriptor))
  {
    var s := Run(cfg, START, steps);
    RunKeepsInv(cfg, START, steps);
    LoadReturnsWritten(s.issuer, issuerCall);
    LoadReturnsWritten(s.recipient, recipientCall);
    StoredKeysAgree(cfg, steps, issuerCall.b);
  }

  lemma LoadReturnsWritten(w: Runs.World, call: Runs.Step)
    requires Runs.Inv(w) && call.Load? && Runs.Returned(w, call).Some?
    ensures call.b in w.written && w.written[call.b] == Runs.Returned(w, call).value
  {
    Runs.ReturnIsWritten(w, call);
    Runs.StepGrows(w, call);
    if call.b !in w.written { Runs.WritesOnlyItsRecord(w, call, call.b); }
  }

  /** With both sides fresh and a relay that passes the package on, uninterrupted
      calls end with the issuer's key in both stores. */
  lemma FaithfulRelayDelivers(cfg: Config, d: Descriptor, key: bytes, seed: nat, cut: nat)
    requires IssuerMayPrepare(cfg, d, d, true, key) && d.recipientKey == cfg.recipientKey
    requires cut >= |StorePlan(EMPTY, IssuerRecord(cfg, d, key, seed)).writes|
    requires cut >= |StorePlan(EMPTY, Pending(cfg, d, key, None)).writes|
    ensures
      var offer := IssuerRecord(cfg, d, key, seed).publication.value;
      var prepare, accept := Prepare(d, d, true, key, seed, cut), Accept(offer, d, true, cut);
      var b := Binding(d.grant, d.generation);
      var sent := Next(cfg, START, prepare);
      var done := Next(cfg, sent, accept);
      && Possible(cfg, START, prepare) && Possible(cfg, sent, accept)
      && b in done.issuer.written && done.issuer.written[b].epochKey == key
      && b in done.recipient.written && done.recipient.written[b].epochKey == key
  {
    IssuerStores(cfg, d, key, seed, cut);
    FirstStoreWrites(Pending(cfg, d, key, None), cut);
  }

  lemma IssuerStores(cfg: Config, d: Descriptor, key: bytes, seed: nat, cut: nat)
    requires IssuerMayPrepare(cfg, d, d, true, key)
    requires cut >= |StorePlan(EMPTY, IssuerRecord(cfg, d, key, seed)).writes|
    ensures
      var p := IssuerRecord(cfg, d, key, seed);
      var sent := Next(cfg, START, Prepare(d, d, true, key, seed, cut));
      && sent.sent == {p.publication.value.wrapped} && sent.recipient == START.recipient
      && p.Of() in sent.issuer.written && sent.issuer.written[p.Of()] == p
  {
    FirstStoreWrites(IssuerRecord(cfg, d, key, seed), cut);
  }

  lemma FirstStoreWrites(p: Record, cut: nat)
    requires p.Valid() && cut >= |StorePlan(EMPTY, p).writes|
    ensures Runs.Returned(Runs.FRESH, Runs.Store(p, cut)) == Some(p)
    ensures var written := Runs.Next(Runs.FRESH, Runs.Store(p, cut)).written; p.Of() in written && written[p.Of()] == p
  {
    Runs.FirstStoreReturnsItsRecord(Runs.FRESH, p);
    Runs.ReturnIsWritten(Runs.FRESH, Runs.Store(p, cut));
  }
}
