/** Every run of the owner text spool, and the object with its scanning loop. */
module OwnerSpoolRuns {
  import opened Bytes
  import opened Durable
  import opened Sums
  import opened OwnerSpool

  /** `Forget` is one removal of an expired tombstone, also by a scan that stops
      later; `Damage` loses a file or its authenticity. */
  datatype Step =
    | Perform(call: Call)
    | Forget(id: string, now: int)
    | Damage(id: string, gone: bool)

  predicate Possible(disk: Disk, step: Step) {
    match step
    case Perform(_) => true
    case Forget(id, now) => id in disk && Expired(disk[id], now)
    case Damage(id, _) => id in disk
  }

  ghost function Next(cfg: Config, disk: Disk, step: Step): Disk {
    match step
    case Perform(call) => Applied(disk, call, Decide(cfg, disk, call))
    case Forget(id, _) => disk - {id}
    case Damage(id, gone) => if gone then disk - {id} else disk[id := Garbage]
  }

  ghost predicate PossibleRun(cfg: Config, disk: Disk, steps: seq<Step>)
    decreases |steps|
  {
    steps != [] ==> Possible(disk, steps[0]) && PossibleRun(cfg, Next(cfg, disk, steps[0]), steps[1..])
  }

  ghost function Run(cfg: Config, disk: Disk, steps: seq<Step>): Disk
    decreases |steps|
  {
    if steps == [] then disk else Run(cfg, Next(cfg, disk, steps[0]), steps[1..])
  }

  // ---------------------------------------------------------------- the invariant

  predicate AllShaped(cfg: Config, disk: Disk) {
    forall id :: id in disk && disk[id].Authentic? ==> Shape(cfg, disk[id].value) && disk[id].value.reservation.id == id
  }

  ghost predicate Inv(cfg: Config, disk: Disk) {
    AllShaped(cfg, disk) && WithinBudget(disk)
  }

  lemma SweptKeepsInv(cfg: Config, disk: Disk, now: int)
    requires AllShaped(cfg, disk)
    ensures AllShaped(cfg, Swept(disk, now))
  {
  }

  /** Retiring or abandoning needs no budget: whatever else is stored, what it leaves
      is within every limit that held before. */
  lemma TombstoneAlwaysFits(disk: Disk, a: Record, b: Record)
    requires a.reservation.id in disk && disk[a.reservation.id] == Authentic(a) && WithinBudget(disk)
    requires b.reservation == a.reservation && !b.Pending()
    ensures WithinBudget(disk[a.reservation.id := Authentic(b)])
  {
    ReplaceCountsRight(disk, a, b);
  }

  lemma ReserveKeepsBudget(base: Disk, r: Record)
    requires WithinBudget(base) && r.reservation.id !in base && r.phase.Reserved?
    requires PendingBytes(base) + Length(r) <= SPOOL_BYTES && MetadataBytes(base) + Charge(r) <= METADATA_BYTES
    requires PendingIn(base, r.reservation.project) + 1 <= SPOOL_COUNT
    ensures WithinBudget(base[r.reservation.id := Authentic(r)])
  {
    ReserveCountsRight(base, r);
  }

  lemma StoreKeepsBudget(base: Disk, a: Record, b: Record)
    requires WithinBudget(base) && a.reservation.id in base && base[a.reservation.id] == Authentic(a)
    requires b.reservation == a.reservation && a.phase.Reserved? && b.phase.Prepared?
    requires PendingBytes(base) + Length(b) - Length(a) <= SPOOL_BYTES
    ensures WithinBudget(base[a.reservation.id := Authentic(b)])
  {
    ReplaceCountsRight(base, a, b);
  }

  lemma PutKeepsShape(cfg: Config, disk: Disk, id: string, r: Record)
    requires AllShaped(cfg, disk) && Shape(cfg, r) && r.reservation.id == id
    ensures AllShaped(cfg, disk[id := Authentic(r)])
  {
  }

  lemma ReserveKeepsInv(cfg: Config, disk: Disk, call: Call)
    requires cfg.Valid() && Inv(cfg, disk) && call.Reserve? && Decide(cfg, disk, call).Writes?
    ensures Inv(cfg, Applied(disk, call, Decide(cfg, disk, call)))
  {
    var w := Decide(cfg, disk, call);
    WriteIsShaped(cfg, disk, call);
    SweptKeepsInv(cfg, disk, call.now);
    PutKeepsShape(cfg, Swept(disk, call.now), w.id, w.r);
    ReserveKeepsBudget(Swept(disk, call.now), w.r);
  }

  lemma StoreKeepsInv(cfg: Config, disk: Disk, call: Call)
    requires cfg.Valid() && Inv(cfg, disk) && call.Store? && Decide(cfg, disk, call).Writes?
    ensures Inv(cfg, Applied(disk, call, Decide(cfg, disk, call)))
  {
    var w := Decide(cfg, disk, call);
    WriteIsShaped(cfg, disk, call);
    SweptKeepsInv(cfg, disk, call.now);
    PutKeepsShape(cfg, Swept(disk, call.now), w.id, w.r);
    StoreKeepsBudget(Swept(disk, call.now), disk[w.id].value, w.r);
  }

  lemma PerformKeepsInv(cfg: Config, disk: Disk, call: Call)
    requires cfg.Valid() && Inv(cfg, disk)
    ensures Inv(cfg, Applied(disk, call, Decide(cfg, disk, call)))
  {
    var w := Decide(cfg, disk, call);
    if w.Writes? {
      if call.Reserve? {
        ReserveKeepsInv(cfg, disk, call);
      } else if call.Store? {
        StoreKeepsInv(cfg, disk, call);
      } else {
        WriteIsShaped(cfg, disk, call);
        PutKeepsShape(cfg, disk, w.id, w.r);
        TombstoneAlwaysFits(disk, disk[w.id].value, w.r);
      }
    }
  }

  lemma LoseKeepsBudget(disk: Disk, id: string)
    requires id in disk && WithinBudget(disk)
    ensures WithinBudget(disk - {id}) && WithinBudget(disk[id := Garbage])
  {
    var lost := disk[id := Garbage];
    assert lost - {id} == disk - {id};
    LoseLess(disk, id, PendingWeight);
    LoseLess(disk, id, Charge);
    forall p: string ensures PendingIn(disk - {id}, p) <= SPOOL_COUNT && PendingIn(lost, p) <= SPOOL_COUNT {
      assert PendingIn(disk, p) <= SPOOL_COUNT;
      LoseLess(disk, id, x => ProjectWeight(p, x));
    }
  }

  lemma LoseLess(disk: Disk, id: string, weight: Record -> nat)
    requires id in disk
    ensures Sum(Weigh(disk - {id}, weight)) <= Sum(Weigh(disk, weight))
    ensures Sum(Weigh(disk[id := Garbage], weight)) == Sum(Weigh(disk - {id}, weight))
  {
    WeighWithout(disk, id, weight);
    WeighWithout(disk[id := Garbage], id, weight);
    assert disk[id := Garbage] - {id} == disk - {id};
  }

  lemma StepKeepsInv(cfg: Config, disk: Disk, step: Step)
    requires cfg.Valid() && Inv(cfg, disk) && Possible(disk, step)
    ensures Inv(cfg, Next(cfg, disk, step))
  {
    match step
    case Perform(call) => PerformKeepsInv(cfg, disk, call);
    case Forget(id, _) => LoseKeepsBudget(disk, id);
    case Damage(id, _) => LoseKeepsBudget(disk, id);
  }

  lemma EmptyInv(cfg: Config)
    ensures Inv(cfg, map[])
  {
    assert Weigh(map[], PendingWeight) == map[] && Weigh(map[], Charge) == map[];
    forall p: string ensures PendingIn(map[], p) == 0 {
      assert Weigh(map[], x => ProjectWeight(p, x)) == map[];
    }
  }

  lemma {:induction false} RunKeepsInv(cfg: Config, disk: Disk, steps: seq<Step>)
    requires cfg.Valid() && Inv(cfg, disk) && PossibleRun(cfg, disk, steps)
    ensures Inv(cfg, Run(cfg, disk, steps))
    decreases |steps|
  {
    if steps != [] {
      StepKeepsInv(cfg, disk, steps[0]);
      RunKeepsInv(cfg, Next(cfg, disk, steps[0]), steps[1..]);
    }
  }

  // ---------------------------------------------------------------- every run

  lemma PartOfSum(f: map<string, nat>, k: string)
    requires k in f
    ensures f[k] <= Sum(f)
  {
    SumWithout(f, k);
  }

  /** Over every run the spool stays within its three limits and every file that
      authenticates is one the reader accepts. */
  lemma SpoolStaysUsable(cfg: Config, steps: seq<Step>)
    requires cfg.Valid() && PossibleRun(cfg, map[], steps)
    ensures
      var disk := Run(cfg, map[], steps);
      && WithinBudget(disk)
      && forall id :: id in disk && disk[id].Authentic? ==> Readable(cfg, disk, id)
  {
    EmptyInv(cfg);
    RunKeepsInv(cfg, map[], steps);
    InvReads(cfg, Run(cfg, map[], steps));
  }

  lemma InvReads(cfg: Config, disk: Disk)
    requires Inv(cfg, disk)
    ensures forall id :: id in disk && disk[id].Authentic? ==> Readable(cfg, disk, id)
  {
    forall id | id in disk && disk[id].Authentic? ensures Readable(cfg, disk, id) {
      var r := disk[id].value;
      if r.Pending() {
        PartOfSum(Weigh(disk, PendingWeight), id);
      } else {
        PartOfSum(Weigh(disk, Charge), id);
        TombstoneFitsItsCharge(cfg, r);
      }
    }
  }

  /** Every later form of a record. */
  predicate Later(a: Record, b: Record) {
    || b == a
    || (&& b.reservation == a.reservation && (a.digest != "" ==> b.digest == a.digest && b.evidence == a.evidence)
        && match a.phase
           case Reserved => !b.phase.Reserved?
           case Prepared => !b.Pending()
           case Abandoned => b.phase.Admitted? && a.digest != ""
           case Admitted => false)
  }

  /** The step's clock is before `expires`, and it does not damage `id`. */
  predicate Before(step: Step, id: string, expires: int) {
    match step
    case Perform(call) => call.Reserve? || call.Store? ==> call.now < expires
    case Forget(_, now) => now < expires
    case Damage(other, _) => other != id
  }

  predicate Remembered(disk: Disk, id: string) {
    id in disk && disk[id].Authentic?
  }

  lemma AppliedIsLater(cfg: Config, disk: Disk, call: Call, w: Effect, id: string)
    requires AllShaped(cfg, disk) && Remembered(disk, id) && w.Writes? && (w.swept <==> call.Reserve? || call.Store?)
    requires if call.Reserve? then w.id !in Swept(disk, call.now)
             else Remembered(disk, w.id) && Moves(disk[w.id].value, w.r)
    requires Before(Perform(call), id, disk[id].value.reservation.expires)
    ensures
      var after := Applied(disk, call, w);
      Remembered(after, id) && Later(disk[id].value, after[id].value)
  {
    assert Shape(cfg, disk[id].value);
  }

  lemma SweepsWhenScanning(cfg: Config, disk: Disk, call: Call)
    requires Decide(cfg, disk, call).Writes?
    ensures Decide(cfg, disk, call).swept <==> call.Reserve? || call.Store?
  {
  }

  lemma StepIsLater(cfg: Config, disk: Disk, step: Step, id: string)
    requires cfg.Valid() && Inv(cfg, disk) && Possible(disk, step) && Remembered(disk, id)
    requires Before(step, id, disk[id].value.reservation.expires)
    ensures
      var after := Next(cfg, disk, step);
      Remembered(after, id) && Later(disk[id].value, after[id].value)
  {
    if step.Perform? && Decide(cfg, disk, step.call).Writes? {
      WriteIsShaped(cfg, disk, step.call);
      SweepsWhenScanning(cfg, disk, step.call);
      AppliedIsLater(cfg, disk, step.call, Decide(cfg, disk, step.call), id);
    }
  }

  /** Until its project's expiry a record is never forgotten and only moves forward: an
      admitted record never changes, an abandoned one can only be admitted under its
      digest, a prepared wire is immutable, and its ID is never reserved again. */
  lemma {:induction false} RecordsOnlyMoveForward(cfg: Config, disk: Disk, steps: seq<Step>, id: string)
    requires cfg.Valid() && Inv(cfg, disk) && PossibleRun(cfg, disk, steps) && Remembered(disk, id)
    requires forall x :: x in steps ==> Before(x, id, disk[id].value.reservation.expires)
    ensures Remembered(Run(cfg, disk, steps), id) && Later(disk[id].value, Run(cfg, disk, steps)[id].value)
    decreases |steps|
  {
    if steps != [] {
      var next := Next(cfg, disk, steps[0]);
      assert steps[0] in steps;
      StepIsLater(cfg, disk, steps[0], id);
      StepKeepsInv(cfg, disk, steps[0]);
      RecordsOnlyMoveForward(cfg, next, steps[1..], id);
    }
  }

  /** A live reservation or prepared wire is never dropped, expired or not. */
  lemma PendingIsNeverForgotten(cfg: Config, disk: Disk, step: Step, id: string)
    requires cfg.Valid() && Inv(cfg, disk) && Possible(disk, step) && Remembered(disk, id) && disk[id].value.Pending()
    requires !step.Damage? || step.id != id
    ensures Remembered(Next(cfg, disk, step), id)
  {
    if step.Perform? && Decide(cfg, disk, step.call).Writes? {
      WriteIsShaped(cfg, disk, step.call);
    }
  }

  // ---------------------------------------------------------------- the object

  datatype Usage = Usage(pendingBytes: nat, metadataBytes: nat, byProject: map<string, nat>) {
    function In(project: string): nat {
      if project in byProject then byProject[project] else 0
    }

    predicate Fits() {
      && pendingBytes <= SPOOL_BYTES && metadataBytes <= METADATA_BYTES
      && forall p :: p in byProject ==> byProject[p] <= SPOOL_COUNT
    }
  }

  /** A usage that is the recount of `disk`. */
  ghost predicate Counts(usage: Usage, disk: Disk) {
    && usage.pendingBytes == PendingBytes(disk) && usage.metadataBytes == MetadataBytes(disk)
    && forall p: string :: usage.In(p) == PendingIn(disk, p)
  }

  lemma FitsIsBudget(usage: Usage, disk: Disk)
    requires Counts(usage, disk)
    ensures usage.Fits() <==> WithinBudget(disk)
  {
    if usage.Fits() {
      forall p: string ensures PendingIn(disk, p) <= SPOOL_COUNT { assert usage.In(p) == PendingIn(disk, p); }
    }
    if WithinBudget(disk) {
      forall p | p in usage.byProject ensures usage.byProject[p] <= SPOOL_COUNT {
        assert usage.In(p) == PendingIn(disk, p) <= SPOOL_COUNT;
      }
    }
  }

  function Count(usage: Usage, r: Record): Usage {
    var p := r.reservation.project;
    if r.Pending() then
      Usage(usage.pendingBytes + Length(r), usage.metadataBytes + Charge(r), usage.byProject[p := usage.In(p) + 1])
    else usage.(metadataBytes := usage.metadataBytes + Charge(r))
  }

  lemma CountIn(usage: Usage, r: Record, p: string)
    ensures Count(usage, r).In(p) == usage.In(p) + ProjectWeight(p, r)
  {
  }

  lemma CountAdds(usage: Usage, disk: Disk, id: string, r: Record)
    requires Counts(usage, disk) && id !in disk
    ensures Counts(Count(usage, r), disk[id := Authentic(r)])
  {
    WeighPut(disk, id, r, PendingWeight);
    WeighPut(disk, id, r, Charge);
    forall p: string ensures Count(usage, r).In(p) == PendingIn(disk[id := Authentic(r)], p) {
      CountIn(usage, r, p);
      WeighPut(disk, id, r, x => ProjectWeight(p, x));
      assert usage.In(p) == PendingIn(disk, p);
    }
  }

  predicate OnlyExpiredGone(disk: Disk, left: Disk, now: int) {
    && (forall id :: id in left ==> id in disk && left[id] == disk[id])
    && (forall id :: id in disk && id !in left ==> Expired(disk[id], now))
  }

  /** The files looked at so far read, and are kept unless expired. */
  predicate Looked(cfg: Config, disk: Disk, rest: Disk, kept: Disk, now: int) {
    && (forall id :: id in rest ==> id in disk && rest[id] == disk[id] && id !in kept)
    && (forall id :: id in kept ==> id in disk && kept[id] == disk[id] && !Expired(kept[id], now))
    && (forall id :: id in disk && id !in rest ==> Readable(cfg, disk, id) && (id in kept || Expired(disk[id], now)))
  }

  lemma LookOne(cfg: Config, disk: Disk, rest: Disk, kept: Disk, now: int, id: string)
    requires Looked(cfg, disk, rest, kept, now) && id in rest && Readable(cfg, disk, id)
    ensures Looked(cfg, disk, rest - {id}, if Expired(rest[id], now) then kept else kept[id := rest[id]], now)
  {
    var rest' := rest - {id};
    var kept' := if Expired(rest[id], now) then kept else kept[id := rest[id]];
    forall x | x in disk && x !in rest' ensures Readable(cfg, disk, x) && (x in kept' || Expired(disk[x], now)) {
      assert x == id || x !in rest;
    }
    forall x | x in kept' ensures x in disk && kept'[x] == disk[x] && !Expired(kept'[x], now) {
      assert x == id || x in kept;
    }
  }

  /** The scan: read every file, drop expired tombstones, count the rest. A file that
      does not read stops it, with only expired ones gone. */
  method ScanAll(cfg: Config, disk: Disk, now: int) returns (ok: bool, left: Disk, usage: Usage)
    ensures ok <==> Scans(cfg, disk, now)
    ensures ok ==> left == Swept(disk, now) && Counts(usage, left)
    ensures OnlyExpiredGone(disk, left, now)
  {
    var rest, kept := disk, map[];
    usage := Usage(0, 0, map[]);
    NothingCounts();
    while rest != map[]
      invariant Looked(cfg, disk, rest, kept, now) && Counts(usage, kept)
      decreases |rest.Keys|
    {
      var id :| id in rest.Keys;
      if !Readable(cfg, disk, id) {
        left := kept + rest;
        return false, left, usage;
      }
      LookOne(cfg, disk, rest, kept, now, id);
      assert (rest - {id}).Keys == rest.Keys - {id};
      if !Expired(rest[id], now) {
        CountAdds(usage, kept, id, rest[id].value);
        usage := Count(usage, rest[id].value);
        kept := kept[id := rest[id]];
      }
      rest := rest - {id};
    }
    left := kept;
    assert left == Swept(disk, now);
    FitsIsBudget(usage, left);
    ok := usage.Fits();
  }

  class MessageSpool {
    const cfg: Config
    var disk: Disk

    constructor (cfg: Config)
      ensures this.cfg == cfg && disk == map[]
    {
      this.cfg, disk := cfg, map[];
    }

    /** ownerTextProjectMessageUsage. */
    method Scan(now: int) returns (ok: bool, usage: Usage)
      modifies this
      ensures ok <==> Scans(cfg, old(disk), now)
      ensures ok ==> disk == Swept(old(disk), now) && Counts(usage, disk)
      ensures OnlyExpiredGone(old(disk), disk, now)
    {
      ok, disk, usage := ScanAll(cfg, disk, now);
    }

    method Reserve(reservation: Reservation, now: int) returns (ok: bool)
      modifies this
      ensures ok == Decide(cfg, old(disk), Call.Reserve(reservation, now)).Writes?
      ensures ok ==> disk == Applied(old(disk), Call.Reserve(reservation, now), Decide(cfg, old(disk), Call.Reserve(reservation, now)))
      ensures !ok ==> OnlyExpiredGone(old(disk), disk, now)
    {
      if !reservation.wellFormed || reservation.sender != cfg.principal { return false; }
      var scanned, usage := Scan(now);
      if !scanned { return false; }
      var r := Record(reservation, Reserved, "", 0, [], []);
      var p := reservation.project;
      assert usage.In(p) == PendingIn(disk, p);
      if usage.pendingBytes + Length(r) > SPOOL_BYTES || usage.metadataBytes + Charge(r) > METADATA_BYTES
         || usage.In(p) + 1 > SPOOL_COUNT { return false; }
      if reservation.id in disk { return false; }
      disk := disk[reservation.id := Authentic(r)];
      return true;
    }

    method Store(reservation: Reservation, wire: bytes, evidence: bytes, now: int) returns (ok: bool)
      modifies this
      ensures var effect := Decide(cfg, old(disk), Call.Store(reservation, wire, evidence, now));
        && ok == !effect.Refused?
        && (ok ==> disk == Applied(old(disk), Call.Store(reservation, wire, evidence, now), effect))
      ensures !ok ==> OnlyExpiredGone(old(disk), disk, now)
    {
      var id := reservation.id;
      if !Readable(cfg, disk, id) { return false; }
      var r := disk[id].value;
      if r.reservation != reservation || wire == [] || evidence != cfg.evidence(wire) { return false; }
      if !r.Pending() { return false; }
      if r.phase.Prepared? { return r.wire == wire && r.evidence == evidence; }
      var scanned, usage := Scan(now);
      if !scanned { return false; }
      var r' := r.(phase := Prepared, wire := wire, evidence := evidence, digest := Hex(cfg.hash(wire)));
      if usage.pendingBytes + Length(r') - Length(r) > SPOOL_BYTES { return false; }
      disk := disk[id := Authentic(r')];
      return true;
    }

    method Retire(project: string, id: string, receipt: Receipt) returns (ok: bool)
      modifies this
      ensures var effect := Decide(cfg, old(disk), Call.Retire(project, id, receipt));
        ok == !effect.Refused? && disk == Applied(old(disk), Call.Retire(project, id, receipt), effect)
    {
      if !Readable(cfg, disk, id) { return false; }
      var r := disk[id].value;
      if r.reservation.project != project || r.phase.Reserved? || !ReceiptMatches(receipt, r) { return false; }
      if r.phase.Admitted? { return true; }
      disk := disk[id := Authentic(r.(phase := Admitted, wire := [], admission := receipt.admission))];
      return true;
    }

    method Abandon(project: string, id: string) returns (ok: bool)
      modifies this
      ensures var effect := Decide(cfg, old(disk), Call.Abandon(project, id));
        ok == !effect.Refused? && disk == Applied(old(disk), Call.Abandon(project, id), effect)
    {
      if !Readable(cfg, disk, id) { return false; }
      var r := disk[id].value;
      if r.reservation.project != project || r.phase.Admitted? { return false; }
      if r.phase.Abandoned? { return true; }
      disk := disk[id := Authentic(r.(phase := Abandoned, wire := []))];
      return true;
    }
  }

  lemma NothingCounts()
    ensures Counts(Usage(0, 0, map[]), map[])
  {
    assert Weigh(map[], PendingWeight) == map[] && Weigh(map[], Charge) == map[];
    forall p: string ensures PendingIn(map[], p) == 0 {
      assert Weigh(map[], x => ProjectWeight(p, x)) == map[];
    }
  }
}
