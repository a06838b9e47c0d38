/** The owner text spool across power losses: a file is visible once it is renamed into
    place, and certain to survive only once its directory is synced. Each call writes
    one record and then syncs; a scan that removed something syncs before that. */
module OwnerSpoolPower {
  import opened Bytes
  import opened Durable
  import opened Sums
  import opened OwnerSpool
  import Runs = OwnerSpoolRuns

  /** What calls see, and what a power loss is certain to leave. */
  datatype Directory = Directory(seen: Disk, durable: Disk) {
    predicate Clean() {
      seen == durable
    }
  }

  const NO_FILES: Directory := Directory(map[], map[])

  function At(disk: Disk, id: string): Option<File<Record>> {
    if id in disk then Some(disk[id]) else None
  }

  /** What a power loss may leave: of each file the visible or the durable version. */
  ghost predicate Mix(d: Directory, after: Disk) {
    forall id: string :: At(after, id) == At(d.seen, id) || At(after, id) == At(d.durable, id)
  }

  predicate Hurts(before: Option<File<Record>>, after: Option<File<Record>>) {
    after == before || (before.Some? && (after == None || after == Some(Garbage)))
  }

  /** `synced` is whether a call reached and passed its last sync; `Forget` is one
      removal by a scan whose sync has not happened; `Sync` is what loads do, and what
      the system may do by itself at any moment. */
  datatype Event =
    | Perform(call: Call, synced: bool)
    | Forget(id: string, now: int)
    | Sync
    | PowerLoss(after: Disk)
    | Damage(id: string, seen: Option<File<Record>>, durable: Option<File<Record>>)

  ghost predicate Possible(d: Directory, e: Event) {
    match e
    case Perform(_, _) => true
    case Forget(id, now) => id in d.seen && Expired(d.seen[id], now)
    case Sync => true
    case PowerLoss(after) => Mix(d, after)
    case Damage(id, seen, durable) => Hurts(At(d.seen, id), seen) && Hurts(At(d.durable, id), durable)
  }

  function Set(disk: Disk, id: string, file: Option<File<Record>>): Disk {
    if file.Some? then disk[id := file.value] else disk - {id}
  }

  /** The directory a call writes into: swept and synced if the scan removed anything. */
  ghost function Base(d: Directory, call: Call, effect: Effect): Directory
    requires effect.Writes?
  {
    var swept := if effect.swept then Swept(d.seen, TimeOf(call)) else d.seen;
    if swept == d.seen then d else Directory(swept, swept)
  }

  /** A repeated retire or abandon syncs; a repeated store does not. */
  ghost function Next(cfg: Config, d: Directory, e: Event): Directory {
    match e
    case Perform(call, synced) =>
      var effect := Decide(cfg, d.seen, call);
      if effect.Writes? then
        var base := Base(d, call, effect);
        var seen := base.seen[effect.id := Authentic(effect.r)];
        Directory(seen, if synced then seen else base.durable)
      else if effect.Unchanged? && !call.Store? && synced then Directory(d.seen, d.seen)
      else d
    case Forget(id, _) => d.(seen := d.seen - {id})
    case Sync => Directory(d.seen, d.seen)
    case PowerLoss(after) => Directory(after, after)
    case Damage(id, seen, durable) => Directory(Set(d.seen, id, seen), Set(d.durable, id, durable))
  }

  ghost predicate PossibleRun(cfg: Config, d: Directory, events: seq<Event>)
    decreases |events|
  {
    events != [] ==> Possible(d, events[0]) && PossibleRun(cfg, Next(cfg, d, events[0]), events[1..])
  }

  ghost function Run(cfg: Config, d: Directory, events: seq<Event>): Directory
    decreases |events|
  {
    if events == [] then d else Run(cfg, Next(cfg, d, events[0]), events[1..])
  }

  /** A call writes only into a synced directory. */
  ghost predicate Tidy(cfg: Config, d: Directory, e: Event) {
    e.Perform? ==> var effect := Decide(cfg, d.seen, e.call); effect.Writes? ==> Base(d, e.call, effect).Clean()
  }

  ghost predicate TidyRun(cfg: Config, d: Directory, events: seq<Event>)
    decreases |events|
  {
    events != [] ==>
      Possible(d, events[0]) && Tidy(cfg, d, events[0]) && TidyRun(cfg, Next(cfg, d, events[0]), events[1..])
  }

  // ---------------------------------------------------------------- whatever a power loss leaves

  /** Every power loss leaves a spool within its limits, of readable records. */
  ghost predicate Safe(cfg: Config, d: Directory) {
    forall after :: Mix(d, after) ==> Runs.Inv(cfg, after)
  }

  lemma SameAt(a: Disk, b: Disk)
    requires forall id: string :: At(a, id) == At(b, id)
    ensures a == b
  {
    forall id | id in a ensures id in b && a[id] == b[id] { assert At(a, id) == At(b, id); }
    forall id | id in b ensures id in a { assert At(a, id) == At(b, id); }
  }

  lemma CleanMix(d: Directory, after: Disk)
    requires d.Clean() && Mix(d, after)
    ensures after == d.seen
  {
    forall id: string ensures At(after, id) == At(d.seen, id) {}
    SameAt(after, d.seen);
  }

  lemma CleanIsSafe(cfg: Config, disk: Disk)
    requires Runs.Inv(cfg, disk)
    ensures Safe(cfg, Directory(disk, disk))
  {
    forall after | Mix(Directory(disk, disk), after) ensures Runs.Inv(cfg, after) {
      CleanMix(Directory(disk, disk), after);
    }
  }

  lemma SeenIsMix(d: Directory)
    ensures Mix(d, d.seen) && Mix(d, d.durable)
  {
  }

  /** One file written into a synced directory: a power loss leaves all of it or none. */
  lemma OneWriteMix(base: Disk, id: string, r: Record, after: Disk)
    requires Mix(Directory(base[id := Authentic(r)], base), after)
    ensures after == base || after == base[id := Authentic(r)]
  {
    var put := base[id := Authentic(r)];
    forall x: string | x != id ensures At(after, x) == At(base, x) {
      assert At(put, x) == At(base, x);
    }
    if At(after, id) == At(base, id) { SameAt(after, base); } else { SameAt(after, put); }
  }

  lemma SweptInv(cfg: Config, disk: Disk, call: Call)
    requires Runs.Inv(cfg, disk) && Decide(cfg, disk, call).Writes? && Decide(cfg, disk, call).swept
    ensures Runs.Inv(cfg, Swept(disk, TimeOf(call)))
  {
    Runs.SweptKeepsInv(cfg, disk, TimeOf(call));
    assert Scans(cfg, disk, TimeOf(call));
  }

  lemma BaseInv(cfg: Config, d: Directory, call: Call)
    requires cfg.Valid() && Runs.Inv(cfg, d.seen) && Decide(cfg, d.seen, call).Writes?
    ensures
      var effect := Decide(cfg, d.seen, call);
      var base := Base(d, call, effect);
      && Runs.Inv(cfg, base.seen) && Runs.Inv(cfg, base.seen[effect.id := Authentic(effect.r)])
  {
    var effect := Decide(cfg, d.seen, call);
    Runs.PerformKeepsInv(cfg, d.seen, call);
    assert Base(d, call, effect).seen[effect.id := Authentic(effect.r)] == Applied(d.seen, call, effect);
    if effect.swept { SweptInv(cfg, d.seen, call); }
  }

  lemma PerformKeepsSafe(cfg: Config, d: Directory, call: Call, synced: bool)
    requires cfg.Valid() && Safe(cfg, d) && Tidy(cfg, d, Perform(call, synced))
    ensures Safe(cfg, Next(cfg, d, Perform(call, synced)))
  {
    var effect := Decide(cfg, d.seen, call);
    SeenIsMix(d);
    if effect.Writes? {
      var base := Base(d, call, effect);
      var put := base.seen[effect.id := Authentic(effect.r)];
      BaseInv(cfg, d, call);
      if synced {
        CleanIsSafe(cfg, put);
      } else {
        forall after | Mix(Directory(put, base.seen), after) ensures Runs.Inv(cfg, after) {
          OneWriteMix(base.seen, effect.id, effect.r, after);
        }
      }
    } else if effect.Unchanged? && !call.Store? && synced {
      CleanIsSafe(cfg, d.seen);
    }
  }

  lemma LoseKeepsInv(cfg: Config, disk: Disk, id: string)
    requires Runs.Inv(cfg, disk) && id in disk
    ensures Runs.Inv(cfg, disk - {id}) && Runs.Inv(cfg, disk[id := Garbage])
  {
    Runs.LoseKeepsBudget(disk, id);
  }

  /** A directory like `after` but with the version of `id` before it was hurt. */
  lemma HurtMixInv(cfg: Config, d: Directory, id: string, was: Option<File<Record>>, after: Disk)
    requires Safe(cfg, d) && (was == At(d.seen, id) || was == At(d.durable, id)) && Hurts(was, At(after, id))
    requires forall x: string :: x != id ==> At(after, x) == At(d.seen, x) || At(after, x) == At(d.durable, x)
    ensures Runs.Inv(cfg, after)
  {
    var before := Set(after, id, was);
    forall x: string ensures At(before, x) == At(d.seen, x) || At(before, x) == At(d.durable, x) {
      assert x != id ==> At(before, x) == At(after, x);
      assert At(before, id) == was;
    }
    assert Mix(d, before);
    if At(after, id) == was {
      SameAt(after, before);
    } else {
      LoseKeepsInv(cfg, before, id);
      SameAt(after, if At(after, id).None? then before - {id} else before[id := Garbage]);
    }
  }

  lemma DamageKeepsSafe(cfg: Config, d: Directory, e: Event)
    requires Safe(cfg, d) && e.Damage? && Possible(d, e)
    ensures Safe(cfg, Next(cfg, d, e))
  {
    var d' := Next(cfg, d, e);
    forall after | Mix(d', after) ensures Runs.Inv(cfg, after) {
      forall x: string | x != e.id ensures At(after, x) == At(d.seen, x) || At(after, x) == At(d.durable, x) {
        assert At(d'.seen, x) == At(d.seen, x) && At(d'.durable, x) == At(d.durable, x);
      }
      assert At(d'.seen, e.id) == e.seen && At(d'.durable, e.id) == e.durable;
      if At(after, e.id) == e.seen {
        HurtMixInv(cfg, d, e.id, At(d.seen, e.id), after);
      } else {
        HurtMixInv(cfg, d, e.id, At(d.durable, e.id), after);
      }
    }
  }

  lemma ForgetKeepsSafe(cfg: Config, d: Directory, e: Event)
    requires Safe(cfg, d) && e.Forget? && Possible(d, e)
    ensures Safe(cfg, Next(cfg, d, e))
  {
    var damage := Damage(e.id, None, At(d.durable, e.id));
    assert Set(d.durable, e.id, At(d.durable, e.id)) == d.durable;
    assert Next(cfg, d, damage) == Next(cfg, d, e);
    DamageKeepsSafe(cfg, d, damage);
  }

  lemma EventKeepsSafe(cfg: Config, d: Directory, e: Event)
    requires cfg.Valid() && Safe(cfg, d) && Possible(d, e) && Tidy(cfg, d, e)
    ensures Safe(cfg, Next(cfg, d, e))
  {
    match e
    case Perform(call, synced) => PerformKeepsSafe(cfg, d, call, synced);
    case Forget(_, _) => ForgetKeepsSafe(cfg, d, e);
    case Sync =>
      SeenIsMix(d);
      CleanIsSafe(cfg, d.seen);
    case PowerLoss(after) => CleanIsSafe(cfg, after);
    case Damage(_, _, _) => DamageKeepsSafe(cfg, d, e);
  }

  lemma {:induction false} RunKeepsSafe(cfg: Config, d: Directory, events: seq<Event>)
    requires cfg.Valid() && Safe(cfg, d) && TidyRun(cfg, d, events)
    ensures PossibleRun(cfg, d, events) && Safe(cfg, Run(cfg, d, events))
    decreases |events|
  {
    if events != [] {
      EventKeepsSafe(cfg, d, events[0]);
      RunKeepsSafe(cfg, Next(cfg, d, events[0]), events[1..]);
    }
  }

  /** As long as no call writes while an earlier change is still unsynced, every power
      loss at any point of any run, also in the middle of a call, leaves a spool that is
      within all limits and whose authentic files all read. */
  lemma SurvivesPowerLoss(cfg: Config, events: seq<Event>, after: Disk)
    requires cfg.Valid() && TidyRun(cfg, NO_FILES, events) && Mix(Run(cfg, NO_FILES, events), after)
    ensures Usable(cfg, after)
  {
    Runs.EmptyInv(cfg);
    CleanIsSafe(cfg, map[]);
    RunKeepsSafe(cfg, NO_FILES, events);
    Runs.InvReads(cfg, after);
  }

  // ---------------------------------------------------------------- exactly when a state is safe

  function Weight(f: Option<File<Record>>, weight: Record -> nat): nat {
    if f.Some? && f.value.Authentic? then weight(f.value.value) else 0
  }

  function Larger(a: nat, b: nat): nat {
    if a < b then b else a
  }

  /** For each file the heavier of its two versions. */
  function Worst(d: Directory, weight: Record -> nat): map<string, nat> {
    map id | id in d.seen.Keys + d.durable.Keys :: Larger(Weight(At(d.seen, id), weight), Weight(At(d.durable, id), weight))
  }

  lemma MixAtMostWorst(d: Directory, after: Disk, weight: Record -> nat)
    requires Mix(d, after)
    ensures Sum(Weigh(after, weight)) <= Sum(Worst(d, weight))
  {
    forall id | id in Weigh(after, weight) ensures id in Worst(d, weight) && Weigh(after, weight)[id] <= Worst(d, weight)[id] {
      assert At(after, id) == At(d.seen, id) || At(after, id) == At(d.durable, id);
    }
    SumAtMost(Weigh(after, weight), Worst(d, weight));
  }

  function Heavier(d: Directory, id: string, weight: Record -> nat): Option<File<Record>> {
    if Weight(At(d.seen, id), weight) >= Weight(At(d.durable, id), weight) then At(d.seen, id) else At(d.durable, id)
  }

  /** Some power loss keeps the heavier version of every file. */
  lemma WorstIsReached(d: Directory, weight: Record -> nat) returns (after: Disk)
    ensures Mix(d, after) && Sum(Weigh(after, weight)) == Sum(Worst(d, weight))
  {
    after := map id | id in d.seen.Keys + d.durable.Keys && Heavier(d, id, weight).Some? :: Heavier(d, id, weight).value;
    forall id: string ensures At(after, id) == Heavier(d, id, weight) {}
    forall id | id in Weigh(after, weight) ensures id in Worst(d, weight) && Weigh(after, weight)[id] == Worst(d, weight)[id] {
      assert At(after, id) == Heavier(d, id, weight);
    }
    forall id | id in Worst(d, weight) && id !in Weigh(after, weight) ensures Worst(d, weight)[id] == 0 {
      assert At(after, id) == Heavier(d, id, weight);
    }
    SumSame(Weigh(after, weight), Worst(d, weight));
  }

  ghost function WorstIn(d: Directory, project: string): nat {
    Sum(Worst(d, r => ProjectWeight(project, r)))
  }

  /** The limits hold with the heavier version of every file counted. */
  ghost predicate WorstFits(d: Directory) {
    && Sum(Worst(d, PendingWeight)) <= SPOOL_BYTES && Sum(Worst(d, Charge)) <= METADATA_BYTES
    && forall project: string :: WorstIn(d, project) <= SPOOL_COUNT
  }

  ghost predicate AllShaped(cfg: Config, d: Directory) {
    Runs.AllShaped(cfg, d.seen) && Runs.AllShaped(cfg, d.durable)
  }

  lemma MixShaped(cfg: Config, d: Directory, after: Disk)
    requires AllShaped(cfg, d) && Mix(d, after)
    ensures Runs.AllShaped(cfg, after)
  {
    forall id | id in after && after[id].Authentic? ensures Shape(cfg, after[id].value) && after[id].value.reservation.id == id {
      assert At(after, id) == At(d.seen, id) || At(after, id) == At(d.durable, id);
    }
  }

  /** Whatever calls were cut off before, every power loss leaves the spool usable if and
      only if the limits still hold with the heavier version of every file counted. */
  lemma SafeIffWorstFits(cfg: Config, d: Directory)
    requires AllShaped(cfg, d)
    ensures Safe(cfg, d) <==> WorstFits(d)
  {
    if Safe(cfg, d) {
      var a := WorstIsReached(d, PendingWeight);
      var b := WorstIsReached(d, Charge);
      assert Runs.Inv(cfg, a) && Runs.Inv(cfg, b);
      forall project: string ensures WorstIn(d, project) <= SPOOL_COUNT {
        var c := WorstIsReached(d, r => ProjectWeight(project, r));
        assert Runs.Inv(cfg, c);
        assert PendingIn(c, project) <= SPOOL_COUNT;
      }
    }
    if WorstFits(d) {
      forall after | Mix(d, after) ensures Runs.Inv(cfg, after) {
        MixShaped(cfg, d, after);
        MixAtMostWorst(d, after, PendingWeight);
        MixAtMostWorst(d, after, Charge);
        forall project: string ensures PendingIn(after, project) <= SPOOL_COUNT {
          assert WorstIn(d, project) <= SPOOL_COUNT;
          MixAtMostWorst(d, after, r => ProjectWeight(project, r));
        }
      }
    }
  }

  lemma ShapedAfter(cfg: Config, d: Directory, e: Event)
    requires cfg.Valid() && AllShaped(cfg, d) && Possible(d, e)
    ensures AllShaped(cfg, Next(cfg, d, e))
  {
    match e
    case Perform(call, _) =>
      var effect := Decide(cfg, d.seen, call);
      if effect.Writes? {
        WriteIsShaped(cfg, d.seen, call);
        Runs.SweptKeepsInv(cfg, d.seen, TimeOf(call));
        Runs.PutKeepsShape(cfg, Base(d, call, effect).seen, effect.id, effect.r);
      }
    case PowerLoss(after) => MixShaped(cfg, d, after);
    case _ =>
  }

  lemma {:induction false} RunShaped(cfg: Config, d: Directory, events: seq<Event>)
    requires cfg.Valid() && AllShaped(cfg, d) && PossibleRun(cfg, d, events)
    ensures AllShaped(cfg, Run(cfg, d, events))
    decreases |events|
  {
    if events != [] {
      ShapedAfter(cfg, d, events[0]);
      RunShaped(cfg, Next(cfg, d, events[0]), events[1..]);
    }
  }

  /** Over every run, tidy or not: every power loss leaves a spool within all limits whose
      authentic files all read, if and only if the limits hold with the heavier version of
      every file counted. */
  lemma PowerLossIsHarmlessIff(cfg: Config, events: seq<Event>)
    requires cfg.Valid() && PossibleRun(cfg, NO_FILES, events)
    ensures
      var d := Run(cfg, NO_FILES, events);
      (forall after :: Mix(d, after) ==> Usable(cfg, after)) <==> WorstFits(d)
  {
    var d := Run(cfg, NO_FILES, events);
    RunShaped(cfg, NO_FILES, events);
    SafeIffWorstFits(cfg, d);
    forall after | Mix(d, after) ensures Usable(cfg, after) <==> Runs.Inv(cfg, after) {
      MixShaped(cfg, d, after);
      if Runs.Inv(cfg, after) { Runs.InvReads(cfg, after); }
    }
  }

  /** Within all limits, and every file that authenticates reads. */
  ghost predicate Usable(cfg: Config, disk: Disk) {
    WithinBudget(disk) && forall id :: id in disk && disk[id].Authentic? ==> Readable(cfg, disk, id)
  }

  // ---------------------------------------------------------------- durable records

  /** The file under `id` is a later form of `r`, now and after any power loss. */
  predicate Firm(d: Directory, id: string, r: Record) {
    && Runs.Remembered(d.seen, id) && Runs.Later(r, d.seen[id].value)
    && Runs.Remembered(d.durable, id) && Runs.Later(r, d.durable[id].value)
  }

  /** The clock is before `expires`, and `id` is not damaged. */
  predicate Before(e: Event, id: string, expires: int) {
    match e
    case Perform(call, _) => call.Reserve? || call.Store? ==> call.now < expires
    case Forget(_, now) => now < expires
    case Damage(other, _, _) => other != id
    case _ => true
  }

  lemma LaterOn(a: Record, b: Record, c: Record)
    requires Runs.Later(a, b) && Runs.Later(b, c)
    ensures Runs.Later(a, c) && c.reservation == a.reservation
  {
  }

  lemma PerformKeepsFirm(cfg: Config, d: Directory, call: Call, synced: bool, id: string, r: Record)
    requires cfg.Valid() && AllShaped(cfg, d) && Firm(d, id, r) && Before(Perform(call, synced), id, r.reservation.expires)
    ensures Firm(Next(cfg, d, Perform(call, synced)), id, r)
  {
    var effect := Decide(cfg, d.seen, call);
    if effect.Writes? {
      WriteIsShaped(cfg, d.seen, call);
      Runs.SweepsWhenScanning(cfg, d.seen, call);
      LaterOn(r, d.seen[id].value, d.seen[id].value);
      Runs.AppliedIsLater(cfg, d.seen, call, effect, id);
      var put := Base(d, call, effect).seen[effect.id := Authentic(effect.r)];
      assert put == Applied(d.seen, call, effect);
      LaterOn(r, d.seen[id].value, put[id].value);
    }
  }

  lemma EventKeepsFirm(cfg: Config, d: Directory, e: Event, id: string, r: Record)
    requires cfg.Valid() && AllShaped(cfg, d) && Possible(d, e) && Firm(d, id, r) && Before(e, id, r.reservation.expires)
    ensures Firm(Next(cfg, d, e), id, r)
  {
    match e
    case Perform(call, synced) => PerformKeepsFirm(cfg, d, call, synced, id, r);
    case Forget(_, _) => LaterOn(r, d.seen[id].value, d.seen[id].value);
    case PowerLoss(after) => assert At(after, id) == At(d.seen, id) || At(after, id) == At(d.durable, id);
    case _ =>
  }

  /** Once a record is durable, then until its project's expiry no run with cut-off
      calls, failed syncs and power losses forgets it or moves it back. */
  lemma {:induction false} DurableRecordsOnlyMoveForward(cfg: Config, d: Directory, events: seq<Event>, id: string, r: Record)
    requires cfg.Valid() && AllShaped(cfg, d) && PossibleRun(cfg, d, events) && Firm(d, id, r)
    requires forall e :: e in events ==> Before(e, id, r.reservation.expires)
    ensures Firm(Run(cfg, d, events), id, r)
    decreases |events|
  {
    if events != [] {
      assert events[0] in events;
      ShapedAfter(cfg, d, events[0]);
      EventKeepsFirm(cfg, d, events[0], id, r);
      DurableRecordsOnlyMoveForward(cfg, Next(cfg, d, events[0]), events[1..], id, r);
    }
  }

  // ---------------------------------------------------------------- an untidy run that overflows

  /** Different messages of one project, each a well-formed reservation of at most 8 KiB. */
  predicate Batch(cfg: Config, project: string, rs: seq<Reservation>) {
    && (forall i :: 0 <= i < |rs| ==>
          rs[i].wellFormed && rs[i].sender == cfg.principal && rs[i].project == project && rs[i].encoded <= 8 * 1024)
    && (forall i, j :: 0 <= i < j < |rs| ==> rs[i].id != rs[j].id)
  }

  const SMALL := 8 * 1024 + 300

  function Blank(r: Reservation): Record {
    Record(r, Reserved, "", 0, [], [])
  }

  lemma BlankIsSmall(r: Reservation)
    requires r.encoded <= 8 * 1024
    ensures Length(Blank(r)) <= SMALL && Charge(Blank(r)) <= SMALL
  {
    SequenceIsShort();
    assert BlobLength(Zeros(32)) == 46;
  }

  lemma SixDigits(n: nat)
    ensures Digits(n) <= 6 + Digits(n / 1_000_000)
  {
    assert Digits(n) <= 1 + Digits(n / 10) && Digits(n / 10) <= 1 + Digits(n / 10 / 10);
    var m := n / 10 / 10;
    assert Digits(m) <= 1 + Digits(m / 10) && Digits(m / 10) <= 1 + Digits(m / 10 / 10);
    var l := m / 10 / 10;
    assert Digits(l) <= 1 + Digits(l / 10) && Digits(l / 10) <= 1 + Digits(l / 10 / 10);
    assert l / 10 / 10 == n / 1_000_000;
  }

  lemma SequenceIsShort()
    ensures Digits(MAX_SEQ) <= 19
  {
    SixDigits(MAX_SEQ);
    SixDigits(MAX_SEQ / 1_000_000);
    SixDigits(MAX_SEQ / 1_000_000_000_000);
    assert MAX_SEQ / 1_000_000_000_000 / 1_000_000 == 9;
  }

  /** The first `n` of them reserved. */
  function Full(rs: seq<Reservation>, n: nat): Disk
    requires n <= |rs|
  {
    if n == 0 then map[] else Full(rs, n - 1)[rs[n - 1].id := Authentic(Blank(rs[n - 1]))]
  }

  lemma {:induction false} FullHolds(rs: seq<Reservation>, n: nat, id: string)
    requires n <= |rs|
    ensures id in Full(rs, n) ==> exists i: nat :: i < n && id == rs[i].id && Full(rs, n)[id] == Authentic(Blank(rs[i]))
  {
    if n > 0 && id != rs[n - 1].id { FullHolds(rs, n - 1, id); }
  }

  lemma {:induction false} FullHas(cfg: Config, project: string, rs: seq<Reservation>, n: nat, i: nat)
    requires Batch(cfg, project, rs) && n <= |rs| && i < |rs|
    ensures rs[i].id in Full(rs, n) <==> i < n
    ensures i < n ==> Full(rs, n)[rs[i].id] == Authentic(Blank(rs[i]))
  {
    if n > 0 { FullHas(cfg, project, rs, n - 1, i); }
  }

  ghost predicate Counted(disk: Disk, project: string, n: nat) {
    && PendingBytes(disk) <= SMALL * n && MetadataBytes(disk) <= SMALL * n
    && forall p: string :: PendingIn(disk, p) == if p == project then n else 0
  }

  lemma CountedOn(base: Disk, n: nat, r: Reservation)
    requires Counted(base, r.project, n) && r.id !in base && r.encoded <= 8 * 1024
    ensures Counted(base[r.id := Authentic(Blank(r))], r.project, n + 1)
  {
    ReserveCountsRight(base, Blank(r));
    BlankIsSmall(r);
  }

  lemma NoneCounted(project: string)
    ensures Counted(map[], project, 0)
  {
    Runs.NothingCounts();
    forall p: string ensures PendingIn(map[], p) == 0 { assert Runs.Usage(0, 0, map[]).In(p) == 0; }
  }

  lemma {:induction false} FullCounts(cfg: Config, project: string, rs: seq<Reservation>, n: nat)
    requires Batch(cfg, project, rs) && n <= |rs|
    ensures Counted(Full(rs, n), project, n)
  {
    if n == 0 {
      NoneCounted(project);
    } else {
      FullCounts(cfg, project, rs, n - 1);
      FullHas(cfg, project, rs, n - 1, n - 1);
      CountedOn(Full(rs, n - 1), n - 1, rs[n - 1]);
    }
  }

  lemma FullReads(cfg: Config, project: string, rs: seq<Reservation>, n: nat, now: int)
    requires Batch(cfg, project, rs) && n <= |rs|
    ensures Swept(Full(rs, n), now) == Full(rs, n)
    ensures forall id :: id in Full(rs, n) ==> Readable(cfg, Full(rs, n), id)
  {
    forall id | id in Full(rs, n) ensures Readable(cfg, Full(rs, n), id) && !Expired(Full(rs, n)[id], now) {
      FullHolds(rs, n, id);
      var i: nat :| i < n && id == rs[i].id && Full(rs, n)[id] == Authentic(Blank(rs[i]));
      BlankIsSmall(rs[i]);
    }
  }

  /** Room for one more of these messages. */
  ghost predicate HasRoom(disk: Disk, project: string) {
    && PendingBytes(disk) <= SMALL * SPOOL_COUNT && MetadataBytes(disk) <= SMALL * SPOOL_COUNT
    && PendingIn(disk, project) < SPOOL_COUNT && forall p: string :: PendingIn(disk, p) <= SPOOL_COUNT
  }

  lemma CountedHasRoom(disk: Disk, project: string, n: nat)
    requires Counted(disk, project, n) && n < SPOOL_COUNT
    ensures HasRoom(disk, project)
  {
    assert SMALL * n <= SMALL * SPOOL_COUNT;
  }

  /** A reservation in a directory with room for it. */
  lemma ReserveDecided(cfg: Config, disk: Disk, r: Reservation, now: int)
    requires r.wellFormed && r.sender == cfg.principal && r.encoded <= 8 * 1024
    requires Swept(disk, now) == disk && (forall id :: id in disk ==> Readable(cfg, disk, id)) && r.id !in disk
    requires HasRoom(disk, r.project)
    ensures Decide(cfg, disk, Reserve(r, now)) == Writes(r.id, Blank(r), true)
  {
    BlankIsSmall(r);
    assert WithinBudget(disk);
  }

  /** A call that writes, in a directory where its scan removes nothing. */
  lemma WriteStep(cfg: Config, d: Directory, call: Call, synced: bool, w: Effect)
    requires w.Writes? && Decide(cfg, d.seen, call) == w && (w.swept ==> Swept(d.seen, TimeOf(call)) == d.seen)
    ensures
      var seen := d.seen[w.id := Authentic(w.r)];
      Next(cfg, d, Perform(call, synced)) == Directory(seen, if synced then seen else d.durable)
  {
  }

  lemma FullHasRoom(cfg: Config, project: string, rs: seq<Reservation>, n: nat, now: int)
    requires Batch(cfg, project, rs) && n < SPOOL_COUNT && n < |rs|
    ensures Decide(cfg, Full(rs, n), Reserve(rs[n], now)) == Writes(rs[n].id, Blank(rs[n]), true)
  {
    FullReads(cfg, project, rs, n, now);
    FullCounts(cfg, project, rs, n);
    FullHas(cfg, project, rs, n, n);
    CountedHasRoom(Full(rs, n), project, n);
    ReserveDecided(cfg, Full(rs, n), rs[n], now);
  }

  lemma OneMoreFull(cfg: Config, project: string, rs: seq<Reservation>, n: nat, now: int)
    requires Batch(cfg, project, rs) && n < SPOOL_COUNT && n < |rs|
    ensures
      var d, d' := Directory(Full(rs, n), Full(rs, n)), Directory(Full(rs, n + 1), Full(rs, n + 1));
      Next(cfg, d, Perform(Reserve(rs[n], now), true)) == d'
  {
    FullReads(cfg, project, rs, n, now);
    FullHasRoom(cfg, project, rs, n, now);
    WriteStep(cfg, Directory(Full(rs, n), Full(rs, n)), Reserve(rs[n], now), true, Writes(rs[n].id, Blank(rs[n]), true));
  }

  lemma {:induction false} RunAppend(cfg: Config, d: Directory, a: seq<Event>, b: seq<Event>)
    requires PossibleRun(cfg, d, a) && PossibleRun(cfg, Run(cfg, d, a), b)
    ensures PossibleRun(cfg, d, a + b) && Run(cfg, d, a + b) == Run(cfg, Run(cfg, d, a), b)
    decreases |a|
  {
    if a == [] {
      assert a + b == b;
    } else {
      assert (a + b)[0] == a[0] && (a + b)[1..] == a[1..] + b;
      RunAppend(cfg, Next(cfg, d, a[0]), a[1..], b);
    }
  }

  lemma RunOne(cfg: Config, d: Directory, e: Event)
    requires Possible(d, e)
    ensures PossibleRun(cfg, d, [e]) && Run(cfg, d, [e]) == Next(cfg, d, e)
  {
    assert [e][1..] == [];
  }

  lemma OneMore(cfg: Config, d: Directory, events: seq<Event>, e: Event)
    requires PossibleRun(cfg, d, events) && Possible(Run(cfg, d, events), e)
    ensures PossibleRun(cfg, d, events + [e]) && Run(cfg, d, events + [e]) == Next(cfg, Run(cfg, d, events), e)
  {
    RunOne(cfg, Run(cfg, d, events), e);
    RunAppend(cfg, d, events, [e]);
  }

  lemma {:induction false} FullIsReached(cfg: Config, project: string, rs: seq<Reservation>, n: nat, now: int)
    returns (events: seq<Event>)
    requires Batch(cfg, project, rs) && n <= SPOOL_COUNT && n <= |rs|
    ensures PossibleRun(cfg, NO_FILES, events) && Run(cfg, NO_FILES, events) == Directory(Full(rs, n), Full(rs, n))
  {
    if n == 0 {
      events := [];
    } else {
      var before := FullIsReached(cfg, project, rs, n - 1, now);
      OneMoreFull(cfg, project, rs, n - 1, now);
      var e := Perform(Reserve(rs[n - 1], now), true);
      OneMore(cfg, NO_FILES, before, e);
      events := before + [e];
    }
  }

  function Given(r: Reservation): Record {
    Blank(r).(phase := Abandoned)
  }

  /** One message given up in a full project, and not yet synced. */
  function Eased(rs: seq<Reservation>, n: nat): Disk
    requires 0 < n <= |rs|
  {
    Full(rs, n)[rs[0].id := Authentic(Given(rs[0]))]
  }

  lemma AbandonEases(cfg: Config, project: string, rs: seq<Reservation>, n: nat)
    requires Batch(cfg, project, rs) && n == SPOOL_COUNT && n < |rs|
    ensures
      var d := Directory(Full(rs, n), Full(rs, n));
      Next(cfg, d, Perform(Abandon(project, rs[0].id), false)) == Directory(Eased(rs, n), d.durable)
  {
    FullReads(cfg, project, rs, n, 0);
    FullHas(cfg, project, rs, n, 0);
    assert Decide(cfg, Full(rs, n), Abandon(project, rs[0].id)) == Writes(rs[0].id, Given(rs[0]), false);
  }

  lemma EasedReads(cfg: Config, project: string, rs: seq<Reservation>, n: nat, now: int)
    requires Batch(cfg, project, rs) && n == SPOOL_COUNT && n < |rs| && now < rs[0].expires
    ensures Swept(Eased(rs, n), now) == Eased(rs, n) && forall id :: id in Eased(rs, n) ==> Readable(cfg, Eased(rs, n), id)
  {
    FullReads(cfg, project, rs, n, now);
    BlankIsSmall(rs[0]);
    forall id | id in Eased(rs, n) ensures Readable(cfg, Eased(rs, n), id) && !Expired(Eased(rs, n)[id], now) {
      if id != rs[0].id {
        assert Readable(cfg, Full(rs, n), id);
        FullHolds(rs, n, id);
      }
    }
  }

  lemma EasedCounts(cfg: Config, project: string, rs: seq<Reservation>, n: nat)
    requires Batch(cfg, project, rs) && n == SPOOL_COUNT && n < |rs|
    ensures HasRoom(Eased(rs, n), project)
  {
    FullCounts(cfg, project, rs, n);
    FullHas(cfg, project, rs, n, 0);
    ReplaceCountsRight(Full(rs, n), Blank(rs[0]), Given(rs[0]));
    assert PendingIn(Full(rs, n), project) == n;
  }

  lemma EasedHasRoom(cfg: Config, project: string, rs: seq<Reservation>, n: nat, now: int)
    requires Batch(cfg, project, rs) && n == SPOOL_COUNT && n < |rs| && now < rs[0].expires
    ensures Decide(cfg, Eased(rs, n), Reserve(rs[n], now)) == Writes(rs[n].id, Blank(rs[n]), true)
  {
    EasedReads(cfg, project, rs, n, now);
    EasedCounts(cfg, project, rs, n);
    FullHas(cfg, project, rs, n, n);
    ReserveDecided(cfg, Eased(rs, n), rs[n], now);
  }

  lemma ReserveRefills(cfg: Config, project: string, rs: seq<Reservation>, n: nat, now: int)
    requires Batch(cfg, project, rs) && n == SPOOL_COUNT && n < |rs| && now < rs[0].expires
    ensures
      var d := Directory(Eased(rs, n), Full(rs, n));
      Next(cfg, d, Perform(Reserve(rs[n], now), false))
        == Directory(Eased(rs, n)[rs[n].id := Authentic(Blank(rs[n]))], Full(rs, n))
  {
    EasedReads(cfg, project, rs, n, now);
    EasedHasRoom(cfg, project, rs, n, now);
    WriteStep(cfg, Directory(Eased(rs, n), Full(rs, n)), Reserve(rs[n], now), false, Writes(rs[n].id, Blank(rs[n]), true));
  }

  lemma Refilled(rs: seq<Reservation>, n: nat)
    requires 0 < n < |rs|
    ensures Mix(Directory(Eased(rs, n)[rs[n].id := Authentic(Blank(rs[n]))], Full(rs, n)), Full(rs, n + 1))
  {
  }

  /** A spool over its limit, of messages no scan removes, takes no more reservations. */
  lemma OverfullRefuses(cfg: Config, project: string, rs: seq<Reservation>, n: nat, reservation: Reservation, now: int)
    requires Batch(cfg, project, rs) && SPOOL_COUNT < n <= |rs|
    ensures !WithinBudget(Full(rs, n)) && Decide(cfg, Full(rs, n), Reserve(reservation, now)).Refused?
  {
    FullCounts(cfg, project, rs, n);
    assert PendingIn(Full(rs, n), project) == n;
    FullReads(cfg, project, rs, n, now);
  }

  /** Giving up a message and reserving another, both before their syncs, then a power
      loss that undoes only the first. */
  lemma OverflowFrom(cfg: Config, project: string, rs: seq<Reservation>, n: nat, now: int) returns (events: seq<Event>)
    requires Batch(cfg, project, rs) && n == SPOOL_COUNT && n < |rs| && now < rs[0].expires
    ensures
      var d, d' := Directory(Full(rs, n), Full(rs, n)), Directory(Full(rs, n + 1), Full(rs, n + 1));
      PossibleRun(cfg, d, events) && Run(cfg, d, events) == d'
  {
    var d := Directory(Full(rs, n), Full(rs, n));
    var a, b := Perform(Abandon(project, rs[0].id), false), Perform(Reserve(rs[n], now), false);
    var c := PowerLoss(Full(rs, n + 1));
    AbandonEases(cfg, project, rs, n);
    ReserveRefills(cfg, project, rs, n, now);
    Refilled(rs, n);
    var d1 := Next(cfg, d, a);
    var d2 := Next(cfg, d1, b);
    RunOne(cfg, d, a);
    RunOne(cfg, d1, b);
    RunOne(cfg, d2, c);
    RunAppend(cfg, d1, [b], [c]);
    RunAppend(cfg, d, [a], [b] + [c]);
    events := [a] + ([b] + [c]);
  }

  /** The exclusion is needed: at the limits of the source and for any messages of one
      project, one more than the limit, a run that writes twice before a sync and then
      loses power leaves all of them pending, and every further reservation is refused. */
  lemma UntidyWritesOverflow(cfg: Config, project: string, rs: seq<Reservation>, now: int) returns (events: seq<Event>)
    requires Batch(cfg, project, rs) && |rs| == SPOOL_COUNT + 1 && now < rs[0].expires
    ensures PossibleRun(cfg, NO_FILES, events) && !WithinBudget(Run(cfg, NO_FILES, events).seen)
    ensures forall i :: 0 <= i < |rs| ==> At(Run(cfg, NO_FILES, events).seen, rs[i].id) == Some(Authentic(Blank(rs[i])))
    ensures forall reservation: Reservation, later: int ::
      Decide(cfg, Run(cfg, NO_FILES, events).seen, Reserve(reservation, later)).Refused?
  {
    var n := SPOOL_COUNT;
    var fill := FullIsReached(cfg, project, rs, n, now);
    var more := OverflowFrom(cfg, project, rs, n, now);
    RunAppend(cfg, NO_FILES, fill, more);
    events := fill + more;
    forall i | 0 <= i < |rs| ensures At(Full(rs, n + 1), rs[i].id) == Some(Authentic(Blank(rs[i]))) {
      FullHas(cfg, project, rs, n + 1, i);
    }
    forall reservation: Reservation, later: int
      ensures !WithinBudget(Full(rs, n + 1)) && Decide(cfg, Full(rs, n + 1), Reserve(reservation, later)).Refused?
    {
      OverfullRefuses(cfg, project, rs, n + 1, reservation, later);
    }
    OverfullRefuses(cfg, project, rs, n + 1, rs[0], now);
  }
}
