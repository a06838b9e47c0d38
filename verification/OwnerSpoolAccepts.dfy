/** When the owner text spool accepts a call: in every reachable spool each of the
    four calls succeeds under exactly one condition on the message's stored state,
    the caller's evidence and the room left, and then leaves exactly one change. */
module OwnerSpoolAccepts {
  import opened Bytes
  import opened Durable
  import opened Sums
  import opened OwnerSpool
  import Runs = OwnerSpoolRuns

  predicate Stored(disk: Disk, project: string, id: string) {
    id in disk && disk[id].Authentic? && disk[id].value.reservation.project == project
  }

  predicate Undamaged(disk: Disk) {
    forall id :: id in disk ==> disk[id].Authentic?
  }

  /** What a scan at `now` leaves: all but the tombstones that have expired. */
  predicate Leaves(disk: Disk, now: int, left: Disk) {
    && (forall id :: id in left ==> id in disk && left[id] == disk[id])
    && (forall id :: id in disk && disk[id].Authentic? ==>
          (id !in left <==> !disk[id].value.Pending() && disk[id].value.reservation.expires <= now))
  }

  lemma ReachableInv(cfg: Config, steps: seq<Runs.Step>)
    requires cfg.Valid() && Runs.PossibleRun(cfg, map[], steps)
    ensures
      var disk := Runs.Run(cfg, map[], steps);
      Runs.Inv(cfg, disk) && forall id :: id in disk && disk[id].Authentic? ==> Readable(cfg, disk, id)
  {
    Runs.EmptyInv(cfg);
    Runs.RunKeepsInv(cfg, map[], steps);
    Runs.InvReads(cfg, Runs.Run(cfg, map[], steps));
  }

  // ---------------------------------------------------------------- retire and abandon

  /** What a receipt must be to retire the message: for this message, with a number and
      times in range, and with the digest of the very wire, or of the one abandoned, or
      again the same receipt. A reservation without a wire is never admitted. */
  predicate Confirms(cfg: Config, receipt: Receipt, r: Record) {
    && receipt.message == r.reservation.id && 0 < receipt.admission <= MAX_SEQ && receipt.timesOk && |receipt.digest| == 32
    && match r.phase
       case Reserved => false
       case Prepared => receipt.digest == cfg.hash(r.wire)
       case Abandoned => Hex(receipt.digest) == r.digest
       case Admitted => Hex(receipt.digest) == r.digest && receipt.admission == r.admission
  }

  lemma ConfirmsIsMatching(cfg: Config, receipt: Receipt, r: Record)
    requires Shape(cfg, r) && |cfg.hash(r.wire)| == 32
    ensures Confirms(cfg, receipt, r) <==> !r.phase.Reserved? && ReceiptMatches(receipt, r)
  {
    if r.phase.Prepared? && Hex(receipt.digest) == r.digest { HexInjective(receipt.digest, cfg.hash(r.wire)); }
  }

  /** Over every run a message is retired exactly on a confirming receipt, and is then
      admitted under the receipt's number with its digest and evidence kept and its wire
      gone; nothing else in the spool changes. */
  lemma RetireAcceptsExactly(cfg: Config, steps: seq<Runs.Step>, project: string, id: string, receipt: Receipt)
    requires cfg.Valid() && Runs.PossibleRun(cfg, map[], steps)
    ensures
      var disk := Runs.Run(cfg, map[], steps);
      var call := Retire(project, id, receipt);
      var effect := Decide(cfg, disk, call);
      && (!effect.Refused? <==> Stored(disk, project, id) && Confirms(cfg, receipt, disk[id].value))
      && Applied(disk, call, effect) ==
         if effect.Refused? then disk
         else disk[id := Authentic(disk[id].value.(phase := Admitted, wire := [], admission := receipt.admission))]
  {
    ReachableInv(cfg, steps);
    var disk := Runs.Run(cfg, map[], steps);
    if Stored(disk, project, id) {
      var r := disk[id].value;
      assert |cfg.hash(r.wire)| == 32;
      ConfirmsIsMatching(cfg, receipt, r);
      assert r.phase.Admitted? && Confirms(cfg, receipt, r) ==>
        r.(phase := Admitted, wire := [], admission := receipt.admission) == r;
    }
  }

  /** Over every run a message is abandoned exactly when it is stored and not admitted;
      its digest and evidence stay, so that a late receipt can still be matched. */
  lemma AbandonAcceptsExactly(cfg: Config, steps: seq<Runs.Step>, project: string, id: string)
    requires cfg.Valid() && Runs.PossibleRun(cfg, map[], steps)
    ensures
      var disk := Runs.Run(cfg, map[], steps);
      var effect := Decide(cfg, disk, Abandon(project, id));
      && (!effect.Refused? <==> Stored(disk, project, id) && !disk[id].value.phase.Admitted?)
      && Applied(disk, Abandon(project, id), effect) ==
         if effect.Refused? then disk else disk[id := Authentic(disk[id].value.(phase := Abandoned, wire := []))]
  {
    ReachableInv(cfg, steps);
    var disk := Runs.Run(cfg, map[], steps);
    if Stored(disk, project, id) && disk[id].value.phase.Abandoned? {
      assert disk[id].value.(phase := Abandoned, wire := []) == disk[id].value;
    }
  }

  // ---------------------------------------------------------------- reserve and store

  lemma SweepLightens(disk: Disk, now: int, weight: Record -> nat)
    ensures Sum(Weigh(Swept(disk, now), weight)) <= Sum(Weigh(disk, weight))
  {
    SumAtMost(Weigh(Swept(disk, now), weight), Weigh(disk, weight));
  }

  lemma SweptFits(disk: Disk, now: int)
    requires WithinBudget(disk)
    ensures WithinBudget(Swept(disk, now))
  {
    SweepLightens(disk, now, PendingWeight);
    SweepLightens(disk, now, Charge);
    forall p: string ensures PendingIn(Swept(disk, now), p) <= SPOOL_COUNT {
      SweepLightens(disk, now, r => ProjectWeight(p, r));
      assert PendingIn(disk, p) <= SPOOL_COUNT;
    }
  }

  lemma ReachableScans(cfg: Config, steps: seq<Runs.Step>, now: int)
    requires cfg.Valid() && Runs.PossibleRun(cfg, map[], steps)
    ensures
      var disk := Runs.Run(cfg, map[], steps);
      && (Scans(cfg, disk, now) <==> Undamaged(disk)) && WithinBudget(Swept(disk, now))
      && (Undamaged(disk) ==> Leaves(disk, now, Swept(disk, now)))
  {
    ReachableInv(cfg, steps);
    SweptFits(Runs.Run(cfg, map[], steps), now);
  }

  lemma ReserveFitsIff(base: Disk, r: Record)
    requires WithinBudget(base) && r.reservation.id !in base && r.phase.Reserved?
    ensures
      WithinBudget(base[r.reservation.id := Authentic(r)]) <==>
        && PendingBytes(base) + Length(r) <= SPOOL_BYTES && MetadataBytes(base) + Charge(r) <= METADATA_BYTES
        && PendingIn(base, r.reservation.project) + 1 <= SPOOL_COUNT
  {
    ReserveCountsRight(base, r);
    if WithinBudget(base[r.reservation.id := Authentic(r)]) {
      assert PendingIn(base[r.reservation.id := Authentic(r)], r.reservation.project) <= SPOOL_COUNT;
    }
  }

  /** Over every run a message is reserved exactly when its header is well formed and
      the principal's own, no file is damaged, its ID is not taken after the sweep, and
      the spool with it stays within all three limits. */
  lemma ReserveAcceptsExactly(cfg: Config, steps: seq<Runs.Step>, reservation: Reservation, now: int)
    requires cfg.Valid() && Runs.PossibleRun(cfg, map[], steps)
    ensures
      var disk := Runs.Run(cfg, map[], steps);
      var effect := Decide(cfg, disk, Reserve(reservation, now));
      var left := Swept(disk, now);
      var after := left[reservation.id := Authentic(Record(reservation, Reserved, "", 0, [], []))];
      && (Undamaged(disk) ==> Leaves(disk, now, left))
      && (!effect.Refused? <==>
            && reservation.wellFormed && reservation.sender == cfg.principal && Undamaged(disk)
            && reservation.id !in left && WithinBudget(after))
      && Applied(disk, Reserve(reservation, now), effect) == if effect.Refused? then disk else after
  {
    ReachableScans(cfg, steps, now);
    var left := Swept(Runs.Run(cfg, map[], steps), now);
    if reservation.id !in left { ReserveFitsIff(left, Record(reservation, Reserved, "", 0, [], [])); }
  }

  lemma StoreFitsIff(base: Disk, a: Record, b: Record)
    requires WithinBudget(base) && a.reservation.id in base && base[a.reservation.id] == Authentic(a)
    requires b.reservation == a.reservation && a.phase.Reserved? && b.phase.Prepared?
    ensures WithinBudget(base[a.reservation.id := Authentic(b)]) <==> PendingBytes(base) + Length(b) - Length(a) <= SPOOL_BYTES
  {
    ReplaceCountsRight(base, a, b);
  }

  function WithWire(cfg: Config, r: Record, wire: bytes): Record {
    r.(phase := Prepared, wire := wire, evidence := cfg.evidence(wire), digest := Hex(cfg.hash(wire)))
  }

  /** Over every run a wire is stored exactly under the reservation it was made for and
      with local evidence: for a reserved message when no file is damaged and the spool
      with the wire stays within its limits, for a prepared one when it is the same wire,
      otherwise never. */
  lemma StoreAcceptsExactly(cfg: Config, steps: seq<Runs.Step>, reservation: Reservation, wire: bytes, evidence: bytes, now: int)
    requires cfg.Valid() && Runs.PossibleRun(cfg, map[], steps)
    ensures
      var disk := Runs.Run(cfg, map[], steps);
      var id, left := reservation.id, Swept(disk, now);
      var effect := Decide(cfg, disk, Store(reservation, wire, evidence, now));
      && (!effect.Refused? <==>
            && id in disk && disk[id].Authentic? && disk[id].value.reservation == reservation
            && wire != [] && evidence == cfg.evidence(wire)
            && var r := disk[id].value;
               (r.phase.Reserved? && Undamaged(disk) && WithinBudget(left[id := Authentic(WithWire(cfg, r, wire))]))
               || (r.phase.Prepared? && r.wire == wire))
      && Applied(disk, Store(reservation, wire, evidence, now), effect) ==
         if effect.Refused? || disk[id].value.phase.Prepared? then disk
         else left[id := Authentic(WithWire(cfg, disk[id].value, wire))]
  {
    ReachableInv(cfg, steps);
    ReachableScans(cfg, steps, now);
    var disk := Runs.Run(cfg, map[], steps);
    var id := reservation.id;
    if id in disk && disk[id].Authentic? && disk[id].value.reservation == reservation && disk[id].value.phase.Reserved? {
      StoreFitsIff(Swept(disk, now), disk[id].value, WithWire(cfg, disk[id].value, wire));
    }
  }
}
