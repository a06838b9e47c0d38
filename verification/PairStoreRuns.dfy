/** Every run of the pending-pair store, with calls cut off between any two
    writes, power losses that keep or lose each unsynced entry, and damage to
    single files: a returned record is the only one ever returned. */
module PairStoreRuns {
  import opened Bytes
  import opened Durable
  import opened PairStore

  /** The disk with its history: the bindings some durable index has reserved, and
      the record written for each binding. */
  datatype World = World(disk: Disk, reserved: set<Binding>, written: map<Binding, Record>)

  const FRESH: World := World(EMPTY, {}, map[])

  datatype Step =
    | Load(b: Binding, cut: nat)
    | Store(p: Record, cut: nat)
    | PowerLoss(after: Disk)
    | Damage(after: Disk)

  function IndexOf(cell: Option<File<set<Binding>>>): set<Binding> {
    match cell
    case Some(Authentic(bindings)) => bindings
    case _ => {}
  }

  function Track(w: World, write: Write): World {
    var d := Apply(w.disk, write);
    match write
    case SyncStore => World(d, w.reserved + IndexOf(d.index.durable), w.written)
    case PutRecord(r) => World(d, w.reserved, w.written[r.Of() := r])
    case _ => w.(disk := d)
  }

  function TrackAll(w: World, writes: seq<Write>): World
    decreases |writes|
  {
    if writes == [] then w else TrackAll(Track(w, writes[0]), writes[1..])
  }

  lemma {:induction false} TrackFollowsDisk(w: World, writes: seq<Write>)
    ensures TrackAll(w, writes).disk == Exec(w.disk, writes)
    decreases |writes|
  {
    if writes != [] {
      TrackFollowsDisk(Track(w, writes[0]), writes[1..]);
    }
  }

  lemma {:induction false} TrackAppend(w: World, a: seq<Write>, b: seq<Write>)
    ensures TrackAll(w, a + b) == TrackAll(TrackAll(w, a), b)
    decreases |a|
  {
    if a == [] {
      assert a + b == b;
    } else {
      assert (a + b)[0] == a[0] && (a + b)[1..] == a[1..] + b;
      TrackAppend(Track(w, a[0]), a[1..], b);
    }
  }

  // ---------------------------------------------------------------- what the environment may do

  ghost predicate Survives(d: Disk, after: Disk) {
    || (d.store.durable.None? && after == EMPTY)
    || (&& d.store.seen.Some? && after.store == Cell(Some(()), Some(()))
        && Settles(d.key, after.key) && Settles(d.index, after.index)
        && (forall b: Binding :: Settles(d.Dir(b), after.Dir(b)))
        && (forall b: Binding :: if after.Dir(b).seen.None? then after.RecordCell(b) == Cell(None, None)
                                 else Settles(d.RecordCell(b), after.RecordCell(b))))
  }

  /** Files may vanish or stop authenticating, and binding directories may vanish or come
      back at will; the store as a whole is neither deleted nor rolled back. */
  ghost predicate Damaged(d: Disk, after: Disk) {
    && d.store.seen.Some? && after.store == d.store
    && HurtCell(d.key, after.key) && HurtCell(d.index, after.index)
    && (forall b: Binding :: HurtCell(d.RecordCell(b), after.RecordCell(b)))
  }

  ghost predicate Possible(w: World, step: Step) {
    match step
    case Load(_, _) => true
    case Store(_, _) => true
    case PowerLoss(after) => Survives(w.disk, after)
    case Damage(after) => Damaged(w.disk, after)
  }

  function PlanOf(w: World, step: Step): Plan
    requires step.Load? || step.Store?
  {
    if step.Load? then LoadPlan(w.disk, step.b) else StorePlan(w.disk, step.p)
  }

  function Done(plan: Plan, cut: nat): seq<Write> {
    if cut < |plan.writes| then plan.writes[..cut] else plan.writes
  }

  function Next(w: World, step: Step): World {
    match step
    case PowerLoss(after) => World(after, w.reserved + IndexOf(after.index.durable), w.written)
    case Damage(after) => w.(disk := after)
    case _ => TrackAll(w, Done(PlanOf(w, step), step.cut))
  }

  /** What a call returns to its caller. */
  function Returned(w: World, step: Step): Option<Record> {
    if step.Load? || step.Store? then Outcome(w.disk, PlanOf(w, step), step.cut).1 else None
  }

  function BindingOf(step: Step): Binding
    requires step.Load? || step.Store?
  {
    if step.Load? then step.b else step.p.Of()
  }

  ghost predicate PossibleRun(w: World, steps: seq<Step>)
    decreases |steps|
  {
    steps != [] ==> Possible(w, steps[0]) && PossibleRun(Next(w, steps[0]), steps[1..])
  }

  function Run(w: World, steps: seq<Step>): World
    decreases |steps|
  {
    if steps == [] then w else Run(Next(w, steps[0]), steps[1..])
  }

  // ---------------------------------------------------------------- the invariant

  predicate RecordMatches(w: World, b: Binding, cell: Option<File<Record>>) {
    cell.Some? && cell.value.Authentic? ==> b in w.written && cell.value.value == w.written[b]
  }

  predicate IndexMatches(w: World, cell: Option<File<set<Binding>>>) {
    cell.Some? && cell.value.Authentic? ==> w.reserved <= cell.value.value
  }

  /** Any readable index knows every reserved binding, any readable record is the one
      written for its binding, and only reserved bindings have been written. */
  predicate Inv(w: World) {
    && (forall b :: b in w.disk.records ==>
          RecordMatches(w, b, w.disk.records[b].seen) && RecordMatches(w, b, w.disk.records[b].durable))
    && IndexMatches(w, w.disk.index.seen) && IndexMatches(w, w.disk.index.durable)
    && w.written.Keys <= w.reserved
    && (w.reserved != {} || w.disk.key.seen == Some(Authentic(())) || w.disk.key.durable == Some(Authentic(()))
        ==> w.disk.store.durable.Some?)
    && (w.disk.store.durable.Some? ==> w.disk.store.seen.Some?)
    && (w.disk.store.seen.None? ==> w.disk == EMPTY)
  }

  /** What the protocol checks before each write. */
  predicate Allowed(w: World, write: Write) {
    match write
    case PutKey => w.disk.store.durable.Some?
    case PutIndex(bindings) => w.reserved <= bindings && w.disk.store.durable.Some?
    case PutRecord(r) => r.Of() in w.reserved && r.Of() !in w.written
    case SyncStore => w.disk.store.durable.Some?
    case MakeStore => true
    case _ => w.disk.store.seen.Some?
  }

  predicate AllAllowed(w: World, writes: seq<Write>)
    decreases |writes|
  {
    writes != [] ==> Allowed(w, writes[0]) && AllAllowed(Track(w, writes[0]), writes[1..])
  }

  lemma WriteKeepsInv(w: World, write: Write)
    requires Inv(w) && Allowed(w, write)
    ensures Inv(Track(w, write))
  {
  }

  lemma {:induction false} WritesKeepInv(w: World, writes: seq<Write>)
    requires Inv(w) && AllAllowed(w, writes)
    ensures Inv(TrackAll(w, writes))
    decreases |writes|
  {
    if writes != [] {
      WriteKeepsInv(w, writes[0]);
      WritesKeepInv(Track(w, writes[0]), writes[1..]);
    }
  }

  lemma {:induction false} AllowedAppend(w: World, a: seq<Write>, b: seq<Write>)
    requires AllAllowed(w, a) && AllAllowed(TrackAll(w, a), b)
    ensures AllAllowed(w, a + b)
    decreases |a|
  {
    if a == [] {
      assert a + b == b;
    } else {
      assert (a + b)[0] == a[0] && (a + b)[1..] == a[1..] + b;
      AllowedAppend(Track(w, a[0]), a[1..], b);
    }
  }

  lemma {:induction false} AllowedPrefix(w: World, writes: seq<Write>, n: nat)
    requires AllAllowed(w, writes) && n <= |writes|
    ensures AllAllowed(w, writes[..n])
    decreases |writes|
  {
    if n > 0 {
      assert writes[..n][1..] == writes[1..][..n - 1];
      AllowedPrefix(Track(w, writes[0]), writes[1..], n - 1);
    }
  }

  lemma AllowedTwo(w: World, a: Write, b: Write)
    requires Allowed(w, a) && Allowed(Track(w, a), b)
    ensures AllAllowed(w, [a, b]) && TrackAll(w, [a, b]) == Track(Track(w, a), b)
  {
    assert [a, b][1..] == [b] && [b][1..] == [];
    assert TrackAll(Track(w, a), [b]) == Track(Track(w, a), b);
  }

  lemma AllowedSix(w: World, a: Write, b: Write, c: Write, d: Write, e: Write, f: Write)
    requires Allowed(w, a)
    requires var w1 := Track(w, a); Allowed(w1, b)
    requires var w2 := Track(Track(w, a), b); Allowed(w2, c) && Allowed(Track(w2, c), d)
    requires var w4 := Track(Track(Track(Track(w, a), b), c), d); Allowed(w4, e) && Allowed(Track(w4, e), f)
    ensures AllAllowed(w, [a, b, c, d, e, f])
    ensures TrackAll(w, [a, b, c, d, e, f]) == Track(Track(Track(Track(Track(Track(w, a), b), c), d), e), f)
  {
    AllowedTwo(w, a, b);
    var w2 := Track(Track(w, a), b);
    AllowedTwo(w2, c, d);
    var w4 := Track(Track(w2, c), d);
    AllowedTwo(w4, e, f);
    AllowedAppend(w2, [c, d], [e, f]);
    TrackAppend(w2, [c, d], [e, f]);
    AllowedAppend(w, [a, b], [c, d] + [e, f]);
    TrackAppend(w, [a, b], [c, d] + [e, f]);
    assert [a, b] + ([c, d] + [e, f]) == [a, b, c, d, e, f];
  }

  lemma OneAllowed(w: World, a: Write)
    requires Allowed(w, a)
    ensures AllAllowed(w, [a]) && TrackAll(w, [a]) == Track(w, a)
  {
    assert [a][1..] == [];
  }

  /** Opening the store, as far as it gets, writes only what is allowed. */
  lemma InitAllowed(w: World)
    requires Inv(w) && InitWrites(w.disk).Some?
    ensures AllAllowed(w, InitWrites(w.disk).value)
  {
    if w.disk.store.seen.None? {
      AllowedSix(w, MakeStore, SyncRoot, PutKey, SyncStore, PutIndex({}), SyncStore);
    } else {
      OneAllowed(w, SyncStore);
    }
  }

  lemma ReadAllowed(w: World, b: Binding)
    requires Inv(w)
    ensures AllAllowed(w, ReadPlan(w.disk, b).writes)
  {
    if w.disk.ReadableIndex().Some? {
      OneAllowed(w, SyncStore);
      AllowedTwo(w, SyncStore, SyncDir(b));
    }
  }

  /** A fresh reservation: not reserved before, reserved and written after. */
  lemma ReserveAllowed(w: World, p: Record)
    requires Inv(w) && w.disk.ReadableIndex().Some? && p.Of() !in w.disk.ReadableIndex().value
    ensures
      var writes := [SyncStore] + ReserveWrites(w.disk.ReadableIndex().value, p);
      && AllAllowed(w, writes)
      && p.Of() !in w.reserved
      && TrackAll(w, writes).written == w.written[p.Of() := p]
  {
    var index := w.disk.ReadableIndex().value;
    var b := p.Of();
    OneAllowed(w, SyncStore);
    var w1 := Track(w, SyncStore);
    WriteKeepsInv(w, SyncStore);
    assert w1.reserved <= index;
    AllowedSix(w1, PutIndex(index + {b}), SyncStore, MakeDir(b), SyncStore, PutRecord(p), SyncDir(b));
    AllowedAppend(w, [SyncStore], ReserveWrites(index, p));
    TrackAppend(w, [SyncStore], ReserveWrites(index, p));
  }

  lemma ReturnedIsWritten(w: World, b: Binding)
    requires Inv(w) && ReadPlan(w.disk, b).result.Some?
    ensures b in w.written && ReadPlan(w.disk, b).result.value == w.written[b] && w.written[b].Of() == b
  {
    assert b in w.disk.records;
  }

  /** Reading back changes nothing but durability. */
  lemma ReadKeepsWritten(w: World, b: Binding)
    requires Inv(w)
    ensures TrackAll(w, ReadPlan(w.disk, b).writes).written == w.written
  {
    if w.disk.ReadableIndex().Some? {
      OneAllowed(w, SyncStore);
      AllowedTwo(w, SyncStore, SyncDir(b));
    }
  }

  lemma StoreOpenedAllowed(w: World, p: Record)
    requires Inv(w)
    ensures AllAllowed(w, StoreOpened(w.disk, p).writes)
    ensures StoreOpened(w.disk, p).result.Some? ==>
      var w' := TrackAll(w, StoreOpened(w.disk, p).writes);
      p.Of() in w'.written && StoreOpened(w.disk, p).result.value == w'.written[p.Of()]
  {
    if w.disk.ReadableIndex().None? { return; }
    var index := w.disk.ReadableIndex().value;
    OneAllowed(w, SyncStore);
    if p.Of() in index {
      var w1 := Track(w, SyncStore);
      WriteKeepsInv(w, SyncStore);
      var read := ReadPlan(w.disk, p.Of());
      SyncStoreKeepsReads(w.disk, p.Of());
      TrackFollowsDisk(w, [SyncStore]);
      ReadAllowed(w1, p.Of());
      ReadKeepsWritten(w1, p.Of());
      AllowedAppend(w, [SyncStore], read.writes);
      TrackAppend(w, [SyncStore], read.writes);
      if read.result.Some? { ReturnedIsWritten(w1, p.Of()); }
    } else if w.disk.Dir(p.Of()).seen.None? {
      var writes := [SyncStore] + ReserveWrites(index, p);
      ReserveAllowed(w, p);
      WritesKeepInv(w, writes);
      var w1 := TrackAll(w, writes);
      TrackFollowsDisk(w, writes);
      ReadAllowed(w1, p.Of());
      ReadKeepsWritten(w1, p.Of());
      AllowedAppend(w, writes, ReadPlan(w1.disk, p.Of()).writes);
      TrackAppend(w, writes, ReadPlan(w1.disk, p.Of()).writes);
      if ReadPlan(w1.disk, p.Of()).result.Some? { ReturnedIsWritten(w1, p.Of()); }
    }
  }

  lemma CallAllowed(w: World, step: Step)
    requires Inv(w) && (step.Load? || step.Store?)
    ensures AllAllowed(w, PlanOf(w, step).writes)
    ensures PlanOf(w, step).result.Some? ==>
      var w' := TrackAll(w, PlanOf(w, step).writes);
      BindingOf(step) in w'.written && PlanOf(w, step).result.value == w'.written[BindingOf(step)]
  {
    if InitWrites(w.disk).None? || (step.Store? && !step.p.Valid()) { return; }
    var init := InitWrites(w.disk).value;
    InitAllowed(w);
    WritesKeepInv(w, init);
    TrackFollowsDisk(w, init);
    var w1 := TrackAll(w, init);
    if step.Load? {
      ReadAllowed(w1, step.b);
      ReadKeepsWritten(w1, step.b);
      AllowedAppend(w, init, ReadPlan(w1.disk, step.b).writes);
      TrackAppend(w, init, ReadPlan(w1.disk, step.b).writes);
      if ReadPlan(w1.disk, step.b).result.Some? { ReturnedIsWritten(w1, step.b); }
    } else {
      StoreOpenedAllowed(w1, step.p);
      AllowedAppend(w, init, StoreOpened(w1.disk, step.p).writes);
      TrackAppend(w, init, StoreOpened(w1.disk, step.p).writes);
    }
  }

  lemma PowerLossKeepsInv(w: World, after: Disk)
    requires Inv(w) && Survives(w.disk, after)
    ensures Inv(Next(w, PowerLoss(after)))
  {
    forall b | b in after.records ensures RecordMatches(w, b, after.records[b].seen) && RecordMatches(w, b, after.records[b].durable) {
      assert after != EMPTY ==> after.RecordCell(b) == Cell(None, None) || Settles(w.disk.RecordCell(b), after.RecordCell(b));
    }
  }

  lemma DamageKeepsInv(w: World, after: Disk)
    requires Inv(w) && Damaged(w.disk, after)
    ensures Inv(Next(w, Damage(after)))
  {
    forall b | b in after.records ensures RecordMatches(w, b, after.records[b].seen) && RecordMatches(w, b, after.records[b].durable) {
      assert HurtCell(w.disk.RecordCell(b), after.RecordCell(b));
    }
  }

  lemma StepKeepsInv(w: World, step: Step)
    requires Inv(w) && Possible(w, step)
    ensures Inv(Next(w, step))
  {
    match step
    case PowerLoss(after) => PowerLossKeepsInv(w, after);
    case Damage(after) => DamageKeepsInv(w, after);
    case _ =>
      CallAllowed(w, step);
      var plan := PlanOf(w, step);
      if step.cut < |plan.writes| { AllowedPrefix(w, plan.writes, step.cut); }
      WritesKeepInv(w, Done(plan, step.cut));
  }

  lemma {:induction false} RunKeepsInv(w: World, steps: seq<Step>)
    requires Inv(w) && PossibleRun(w, steps)
    ensures Inv(Run(w, steps))
    decreases |steps|
  {
    if steps != [] {
      StepKeepsInv(w, steps[0]);
      RunKeepsInv(Next(w, steps[0]), steps[1..]);
    }
  }

  // ---------------------------------------------------------------- every run

  lemma {:induction false} WritesGrow(w: World, writes: seq<Write>)
    requires Inv(w) && AllAllowed(w, writes)
    ensures w.reserved <= TrackAll(w, writes).reserved
    ensures forall b :: b in w.written ==>
      b in TrackAll(w, writes).written && TrackAll(w, writes).written[b] == w.written[b]
    ensures forall b :: b in TrackAll(w, writes).written ==>
      b in w.written || (PutRecord(TrackAll(w, writes).written[b]) in writes && TrackAll(w, writes).written[b].Of() == b)
    decreases |writes|
  {
    if writes != [] {
      WriteKeepsInv(w, writes[0]);
      var w1 := Track(w, writes[0]);
      WritesGrow(w1, writes[1..]);
      assert forall x :: x in writes[1..] ==> x in writes;
      assert writes[0] in writes;
    }
  }

  /** A call writes no record for a binding that was already reserved. */
  lemma OnlyFreshWrites(w: World, step: Step, r: Record)
    requires Inv(w) && (step.Load? || step.Store?) && PutRecord(r) in PlanOf(w, step).writes
    ensures r.Of() !in w.reserved
  {
    var init := InitWrites(w.disk).value;
    InitAllowed(w);
    WritesKeepInv(w, init);
    WritesGrow(w, init);
    TrackFollowsDisk(w, init);
    var w1 := TrackAll(w, init);
  }

  lemma StepGrows(w: World, step: Step)
    requires Inv(w) && Possible(w, step)
    ensures w.reserved <= Next(w, step).reserved
    ensures forall b :: b in w.written ==> b in Next(w, step).written && Next(w, step).written[b] == w.written[b]
    ensures forall b :: b in w.reserved && b !in w.written ==> b !in Next(w, step).written
  {
    if step.Load? || step.Store? {
      CallAllowed(w, step);
      var plan := PlanOf(w, step);
      if step.cut < |plan.writes| { AllowedPrefix(w, plan.writes, step.cut); }
      WritesGrow(w, Done(plan, step.cut));
      forall b | b in w.reserved && b in Next(w, step).written ensures b in w.written {
        if b !in w.written {
          OnlyFreshWrites(w, step, Next(w, step).written[b]);
        }
      }
    }
  }

  /** The only record a call can write is the one it was asked to store. */
  lemma WritesOnlyItsRecord(w: World, step: Step, b: Binding)
    requires Inv(w) && (step.Load? || step.Store?)
    requires b in Next(w, step).written && b !in w.written
    ensures step.Store? && Next(w, step).written[b] == step.p && step.p.Of() == b
  {
    CallAllowed(w, step);
    var plan := PlanOf(w, step);
    if step.cut < |plan.writes| { AllowedPrefix(w, plan.writes, step.cut); }
    WritesGrow(w, Done(plan, step.cut));
    PutsOnlyItsRecord(w, step, Next(w, step).written[b]);
  }

  lemma ReadPutsNothing(d: Disk, b: Binding, r: Record)
    ensures PutRecord(r) !in ReadPlan(d, b).writes
  {
  }

  lemma StoreOpenedPuts(d: Disk, p: Record, r: Record)
    ensures PutRecord(r) in StoreOpened(d, p).writes ==> r == p
  {
    ReadPutsNothing(d, p.Of(), r);
    if d.ReadableIndex().Some? {
      var reserve := ReserveWrites(d.ReadableIndex().value, p);
      assert PutRecord(r) in reserve ==> r == p;
      ReadPutsNothing(Exec(d, [SyncStore] + reserve), p.Of(), r);
    }
  }

  lemma PutsOnlyItsRecord(w: World, step: Step, r: Record)
    requires (step.Load? || step.Store?) && PutRecord(r) in PlanOf(w, step).writes
    ensures step.Store? && r == step.p
  {
    var init := InitWrites(w.disk).value;
    var d := Exec(w.disk, init);
    if step.Load? {
      ReadPutsNothing(d, step.b, r);
    } else {
      StoreOpenedPuts(d, step.p, r);
    }
  }

  lemma {:induction false} RunGrows(w: World, steps: seq<Step>)
    requires Inv(w) && PossibleRun(w, steps)
    ensures w.reserved <= Run(w, steps).reserved
    ensures forall b :: b in w.written ==> b in Run(w, steps).written && Run(w, steps).written[b] == w.written[b]
    ensures forall b :: b in w.reserved && b !in w.written ==> b !in Run(w, steps).written
    decreases |steps|
  {
    if steps != [] {
      StepKeepsInv(w, steps[0]);
      StepGrows(w, steps[0]);
      RunGrows(Next(w, steps[0]), steps[1..]);
    }
  }

  lemma ReturnIsWritten(w: World, step: Step)
    requires Inv(w) && (step.Load? || step.Store?) && Returned(w, step).Some?
    ensures var b := BindingOf(step);
      b in Next(w, step).written && Returned(w, step).value == Next(w, step).written[b] && b in Next(w, step).reserved
  {
    CallAllowed(w, step);
    StepKeepsInv(w, step);
  }

  /** However calls are cut off, the power fails or files are damaged, all successful
      calls for one grant and generation return the same record. */
  lemma AllReturnsAgree(before: seq<Step>, first: Step, between: seq<Step>, second: Step)
    requires PossibleRun(FRESH, before)
    requires var w := Run(FRESH, before); Possible(w, first) && PossibleRun(Next(w, first), between)
    requires (first.Load? || first.Store?) && (second.Load? || second.Store?) && BindingOf(first) == BindingOf(second)
    requires var w := Run(FRESH, before);
      Returned(w, first).Some? && Returned(Run(Next(w, first), between), second).Some?
    ensures var w := Run(FRESH, before);
      Returned(w, first) == Returned(Run(Next(w, first), between), second)
  {
    var w := Run(FRESH, before);
    RunKeepsInv(FRESH, before);
    ReturnIsWritten(w, first);
    StepKeepsInv(w, first);
    RunKeepsInv(Next(w, first), between);
    RunGrows(Next(w, first), between);
    var w2 := Run(Next(w, first), between);
    ReturnIsWritten(w2, second);
    StepGrows(w2, second);
  }

  // ---------------------------------------------------------------- what was returned stays

  predicate KeptIndex(cell: Option<File<set<Binding>>>, b: Binding) {
    cell.Some? && cell.value.Authentic? && b in cell.value.value
  }

  /** Everything a read of `b` needs is durable and as it was returned. */
  predicate Settled(w: World, b: Binding, r: Record) {
    && There(w.disk.store) && Kept(w.disk.key, Authentic(()))
    && KeptIndex(w.disk.index.seen, b) && KeptIndex(w.disk.index.durable, b)
    && There(w.disk.Dir(b)) && Kept(w.disk.RecordCell(b), Authentic(r))
    && r.Of() == b && r.Valid() && b in w.reserved && b in w.written
  }

  lemma {:induction false} WritesKeepSettled(w: World, b: Binding, r: Record, writes: seq<Write>)
    requires Inv(w) && AllAllowed(w, writes) && Settled(w, b, r)
    ensures Settled(TrackAll(w, writes), b, r)
    decreases |writes|
  {
    if writes != [] {
      WriteKeepsInv(w, writes[0]);
      WritesKeepSettled(Track(w, writes[0]), b, r, writes[1..]);
    }
  }

  lemma ReadSettles(w: World, b: Binding)
    requires Inv(w) && ReadPlan(w.disk, b).result.Some? && w.disk.store.durable.Some? && b in w.reserved
    ensures Settled(TrackAll(w, ReadPlan(w.disk, b).writes), b, ReadPlan(w.disk, b).result.value)
  {
    var r := ReadPlan(w.disk, b).result.value;
    ReturnedIsWritten(w, b);
    var w1 := Track(w, SyncStore);
    assert w1.disk.RecordCell(b) == w.disk.RecordCell(b);
    var w2 := Track(w1, SyncDir(b));
    SyncDirSettles(w1, b, r);
    AllowedTwo(w, SyncStore, SyncDir(b));
    assert ReadPlan(w.disk, b).writes == [SyncStore, SyncDir(b)];
    assert TrackAll(w, ReadPlan(w.disk, b).writes) == w2;
  }

  lemma SyncDirSettles(w: World, b: Binding, r: Record)
    requires w.disk.RecordCell(b).seen == Some(Authentic(r))
    requires There(w.disk.store) && Kept(w.disk.key, Authentic(()))
    requires KeptIndex(w.disk.index.seen, b) && KeptIndex(w.disk.index.durable, b)
    requires There(w.disk.Dir(b))
    requires r.Of() == b && r.Valid() && b in w.reserved && b in w.written
    ensures Settled(Track(w, SyncDir(b)), b, r)
  {
    assert Track(w, SyncDir(b)).disk.Dir(b) == w.disk.Dir(b);
  }

  lemma StoreOpenedSettles(w: World, p: Record)
    requires Inv(w) && w.disk.store.durable.Some? && StoreOpened(w.disk, p).result.Some?
    ensures Settled(TrackAll(w, StoreOpened(w.disk, p).writes), p.Of(), StoreOpened(w.disk, p).result.value)
  {
    var b := p.Of();
    var index := w.disk.ReadableIndex().value;
    OneAllowed(w, SyncStore);
    if b in index {
      var w1 := Track(w, SyncStore);
      WriteKeepsInv(w, SyncStore);
      SyncStoreKeepsReads(w.disk, b);
      TrackFollowsDisk(w, [SyncStore]);
      ReadSettles(w1, b);
      TrackAppend(w, [SyncStore], ReadPlan(w.disk, b).writes);
    } else {
      var writes := [SyncStore] + ReserveWrites(index, p);
      ReserveAllowed(w, p);
      WritesKeepInv(w, writes);
      TrackFollowsDisk(w, writes);
      var w1 := TrackAll(w, writes);
      ReturnedIsWritten(w1, b);
      assert w1.disk.store.durable.Some?;
      ReadSettles(w1, b);
      TrackAppend(w, writes, ReadPlan(w1.disk, b).writes);
    }
  }

  lemma ReturnSettles(w: World, step: Step)
    requires Inv(w) && (step.Load? || step.Store?) && Returned(w, step).Some?
    ensures Settled(Next(w, step), BindingOf(step), Returned(w, step).value)
  {
    var init := InitWrites(w.disk).value;
    InitAllowed(w);
    WritesKeepInv(w, init);
    TrackFollowsDisk(w, init);
    var w1 := TrackAll(w, init);
    assert w1.disk.ReadableIndex().Some?;
    if step.Load? {
      ReturnedIsWritten(w1, step.b);
      ReadSettles(w1, step.b);
      TrackAppend(w, init, ReadPlan(w1.disk, step.b).writes);
    } else {
      StoreOpenedSettles(w1, step.p);
      TrackAppend(w, init, StoreOpened(w1.disk, step.p).writes);
    }
  }

  lemma {:induction false} RunKeepsSettled(w: World, b: Binding, r: Record, steps: seq<Step>)
    requires Inv(w) && PossibleRun(w, steps) && Settled(w, b, r)
    requires forall s :: s in steps ==> !s.Damage?
    ensures Inv(Run(w, steps)) && Settled(Run(w, steps), b, r)
    decreases |steps|
  {
    if steps != [] {
      var step := steps[0];
      StepKeepsInv(w, step);
      if step.Load? || step.Store? {
        CallAllowed(w, step);
        var plan := PlanOf(w, step);
        if step.cut < |plan.writes| { AllowedPrefix(w, plan.writes, step.cut); }
        WritesKeepSettled(w, b, r, Done(plan, step.cut));
      } else {
        assert step.PowerLoss? && Settles(w.disk.Dir(b), step.after.Dir(b));
      }
      RunKeepsSettled(Next(w, step), b, r, steps[1..]);
    }
  }

  lemma SettledReads(w: World, b: Binding, r: Record)
    requires Inv(w) && Settled(w, b, r)
    ensures LoadPlan(w.disk, b).result == Some(r)
    ensures forall p: Record :: p.Of() == b && p.Valid() ==>
      StorePlan(w.disk, p).result ==
        if && p.network == r.network && p.epoch == r.epoch && p.descriptor == r.descriptor
           && p.issuer == r.issuer && p.recipient == r.recipient && (p.publication.None? <==> r.publication.None?)
           && (p.publication.None? ==> p.epochKey == r.epochKey)
        then Some(r) else None
  {
    SyncStoreKeepsReads(w.disk, b);
    var d := Exec(w.disk, [SyncStore]);
    assert ReadPlan(d, b).result == Some(r);
  }

  /** Once a call has returned a record, no number of cut-off calls and power losses
      takes it away: a later load returns it, and a later valid store returns this same
      record, not the new one, exactly when it repeats network, epoch, descriptor and
      both fingerprints, and gives a package if one was given first or else the same
      key; any other store fails. */
  lemma ReturnedRecordIsDurable(before: seq<Step>, first: Step, between: seq<Step>, p: Record)
    requires PossibleRun(FRESH, before)
    requires var w := Run(FRESH, before);
      (first.Load? || first.Store?) && Returned(w, first).Some? && PossibleRun(Next(w, first), between)
    requires forall s :: s in between ==> !s.Damage?
    requires p.Valid() && p.Of() == BindingOf(first)
    ensures
      var w := Run(FRESH, before);
      var r := Returned(w, first).value;
      var disk := Run(Next(w, first), between).disk;
      && LoadPlan(disk, p.Of()).result == Some(r)
      && StorePlan(disk, p).result ==
         if && p.network == r.network && p.epoch == r.epoch && p.descriptor == r.descriptor
            && p.issuer == r.issuer && p.recipient == r.recipient && (p.publication.None? <==> r.publication.None?)
            && (p.publication.None? ==> p.epochKey == r.epochKey)
         then Some(r) else None
  {
    var w := Run(FRESH, before);
    RunKeepsInv(FRESH, before);
    ReturnSettles(w, first);
    StepKeepsInv(w, first);
    RunKeepsSettled(Next(w, first), p.Of(), Returned(w, first).value, between);
    SettledReads(Run(Next(w, first), between), p.Of(), Returned(w, first).value);
  }

  /** An uninterrupted first store of a binding nothing has reserved returns exactly
      the record it was given. */
  lemma FirstStoreReturnsItsRecord(w: World, p: Record)
    requires Inv(w) && p.Valid()
    requires w.disk.store.seen.None? || (w.disk.ReadableIndex().Some? && p.Of() !in w.disk.ReadableIndex().value)
    requires w.disk.Dir(p.Of()).seen.None?
    ensures StorePlan(w.disk, p).result == Some(p)
  {
    var init := InitWrites(w.disk).value;
    InitAllowed(w);
    WritesKeepInv(w, init);
    TrackFollowsDisk(w, init);
    var w1 := TrackAll(w, init);
    InitReads(w, p.Of());
    ReserveAllowed(w1, p);
    var index := w1.disk.ReadableIndex().value;
    var writes := ReserveWrites(index, p);
    OneAllowed(w1, SyncStore);
    var w2 := Track(w1, SyncStore);
    TrackFollowsDisk(w1, [SyncStore] + writes);
    TrackAppend(w1, [SyncStore], writes);
    ReserveReads(w2, index, p);
  }

  /** A first use stores exactly the records that name a grant, a generation, a network
      and an epoch that are path elements, and hold a 32 byte key; of any other it writes
      nothing, on this and on every disk. */
  lemma FirstStoreSucceedsIff(p: Record)
    ensures
      var fine :=
        && p.grant != "" && p.generation >= 1 && |p.epochKey| == 32
        && ValidPathId(p.network) && ValidPathId(p.epoch);
      && StorePlan(EMPTY, p).result == (if fine then Some(p) else None)
      && (!fine ==> forall d :: StorePlan(d, p) == Plan([], None))
  {
    if p.Valid() { FirstStoreReturnsItsRecord(FRESH, p); }
  }

  lemma InitReads(w: World, b: Binding)
    requires Inv(w) && InitWrites(w.disk).Some?
    requires w.disk.Dir(b).seen.None?
    ensures
      var d := TrackAll(w, InitWrites(w.disk).value).disk;
      && d.ReadableIndex() == (if w.disk.store.seen.None? then Some({}) else w.disk.ReadableIndex())
      && d.Dir(b).seen.None?
  {
    if w.disk.store.seen.None? {
      AllowedSix(w, MakeStore, SyncRoot, PutKey, SyncStore, PutIndex({}), SyncStore);
    } else {
      OneAllowed(w, SyncStore);
    }
  }

  lemma ReserveReads(w: World, index: set<Binding>, p: Record)
    requires p.Valid() && w.disk.ReadableIndex() == Some(index)
    ensures ReadPlan(TrackAll(w, ReserveWrites(index, p)).disk, p.Of()).result == Some(p)
  {
    var b := p.Of();
    var reserve, put := [PutIndex(index + {b}), SyncStore, MakeDir(b)], [SyncStore, PutRecord(p), SyncDir(b)];
    TrackAppend(w, reserve, put);
    assert ReserveWrites(index, p) == reserve + put;
    IndexedReads(w, index, b);
    PutReads(TrackAll(w, reserve), index + {b}, p);
  }

  lemma IndexedReads(w: World, index: set<Binding>, b: Binding)
    requires w.disk.ReadableIndex() == Some(index)
    ensures
      var d := TrackAll(w, [PutIndex(index + {b}), SyncStore, MakeDir(b)]).disk;
      d.ReadableIndex() == Some(index + {b}) && d.Dir(b).seen.Some?
  {
    TrackThree(w, PutIndex(index + {b}), SyncStore, MakeDir(b));
  }

  lemma PutReads(w: World, index: set<Binding>, p: Record)
    requires p.Valid() && w.disk.ReadableIndex() == Some(index) && p.Of() in index && w.disk.Dir(p.Of()).seen.Some?
    ensures ReadPlan(TrackAll(w, [SyncStore, PutRecord(p), SyncDir(p.Of())]).disk, p.Of()).result == Some(p)
  {
    var b := p.Of();
    TrackThree(w, SyncStore, PutRecord(p), SyncDir(b));
    var d := Apply(Apply(Apply(w.disk, SyncStore), PutRecord(p)), SyncDir(b));
    assert d.ReadableIndex() == Some(index) && d.Dir(b).seen.Some? && d.RecordCell(b).seen == Some(Authentic(p));
  }

  // ---------------------------------------------------------------- what is lost stays lost

  predicate Unauthentic(cell: Option<File<Record>>) {
    cell.Some? ==> !cell.value.Authentic?
  }

  /** No record of `b`, now or after any power loss: none was written, or it is lost. */
  predicate Recordless(d: Disk, b: Binding) {
    Unauthentic(d.RecordCell(b).seen) && Unauthentic(d.RecordCell(b).durable)
  }

  /** So it is in particular as long as none was written. */
  lemma UnwrittenIsRecordless(w: World, b: Binding)
    requires Inv(w) && b !in w.written
    ensures Recordless(w.disk, b)
  {
  }

  lemma {:induction false} WritesKeepRecordless(d: Disk, b: Binding, writes: seq<Write>)
    requires Recordless(d, b) && forall r: Record :: PutRecord(r) in writes ==> r.Of() != b
    ensures Recordless(Exec(d, writes), b)
    decreases |writes|
  {
    if writes != [] {
      assert writes[0] in writes;
      assert forall x :: x in writes[1..] ==> x in writes;
      WritesKeepRecordless(Apply(d, writes[0]), b, writes[1..]);
    }
  }

  lemma StepKeepsRecordless(w: World, b: Binding, step: Step)
    requires Inv(w) && Possible(w, step) && b in w.reserved && Recordless(w.disk, b)
    ensures Recordless(Next(w, step).disk, b)
  {
    match step
    case PowerLoss(after) =>
      assert after != EMPTY && after.Dir(b).seen.Some? ==> Settles(w.disk.RecordCell(b), after.RecordCell(b));
    case Damage(after) => assert HurtCell(w.disk.RecordCell(b), after.RecordCell(b));
    case _ =>
      var writes := Done(PlanOf(w, step), step.cut);
      forall r: Record | PutRecord(r) in writes ensures r.Of() != b { OnlyFreshWrites(w, step, r); }
      WritesKeepRecordless(w.disk, b, writes);
      TrackFollowsDisk(w, writes);
  }

  lemma {:induction false} RunKeepsRecordless(w: World, b: Binding, steps: seq<Step>)
    requires Inv(w) && PossibleRun(w, steps) && b in w.reserved && Recordless(w.disk, b)
    ensures b in Run(w, steps).reserved && Recordless(Run(w, steps).disk, b)
    decreases |steps|
  {
    if steps != [] {
      StepKeepsRecordless(w, b, steps[0]);
      StepKeepsInv(w, steps[0]);
      StepGrows(w, steps[0]);
      RunKeepsRecordless(Next(w, steps[0]), b, steps[1..]);
    }
  }

  /** A binding that some durable index has reserved and that has no record on disk,
      because none was written or because it was lost in a crash, a power loss or to
      damage, is never regenerated: whatever happens, every later call for it fails. */
  lemma ReservedWithoutRecordFailsForever(before: seq<Step>, b: Binding, later: seq<Step>, call: Step)
    requires PossibleRun(FRESH, before)
    requires var w := Run(FRESH, before); b in w.reserved && Recordless(w.disk, b) && PossibleRun(w, later)
    requires (call.Load? || call.Store?) && BindingOf(call) == b
    ensures Returned(Run(Run(FRESH, before), later), call) == None
  {
    var w := Run(FRESH, before);
    RunKeepsInv(FRESH, before);
    RunKeepsInv(w, later);
    RunKeepsRecordless(w, b, later);
    var w2 := Run(w, later);
    if Returned(w2, call).Some? {
      ReturnSettles(w2, call);
      StepKeepsRecordless(w2, b, call);
      assert false;
    }
  }

  // ---------------------------------------------------------------- a record lost between its two last writes

  /** The writes of a first store, up to the record itself and without its last sync. */
  function Unsynced(p: Record): seq<Write> {
    var b := p.Of();
    CREATE + ([SyncStore, PutIndex({b}), SyncStore] + [MakeDir(b), SyncStore, PutRecord(p)])
  }

  lemma FirstStoreWrites(p: Record)
    requires p.Valid()
    ensures 12 < |StorePlan(EMPTY, p).writes| && StorePlan(EMPTY, p).writes[..12] == Unsynced(p)
  {
    var d := Exec(EMPTY, CREATE);
    CreatedReads();
    var reserve := ReserveWrites({}, p);
    assert {} + {p.Of()} == {p.Of()};
    var rest := ReadPlan(Exec(d, [SyncStore] + reserve), p.Of()).writes;
    assert StoreOpened(d, p).writes == ([SyncStore] + reserve) + rest;
    assert StorePlan(EMPTY, p).writes == CREATE + (([SyncStore] + reserve) + rest);
    assert ([SyncStore] + reserve)[..6] == [SyncStore, PutIndex({p.Of()}), SyncStore] + [MakeDir(p.Of()), SyncStore, PutRecord(p)];
  }

  lemma CreatedReads()
    ensures Exec(EMPTY, CREATE).ReadableIndex() == Some({}) && Exec(EMPTY, CREATE).dirs == map[]
  {
    AllowedSix(FRESH, MakeStore, SyncRoot, PutKey, SyncStore, PutIndex({}), SyncStore);
    TrackFollowsDisk(FRESH, CREATE);
  }

  lemma TrackThree(w: World, a: Write, b: Write, c: Write)
    ensures TrackAll(w, [a, b, c]) == Track(Track(Track(w, a), b), c)
  {
    assert [a, b, c][1..] == [b, c] && [b, c][1..] == [c] && [c][1..] == [];
    assert TrackAll(Track(Track(w, a), b), [c]) == Track(Track(Track(w, a), b), c);
    assert TrackAll(Track(w, a), [b, c]) == Track(Track(Track(w, a), b), c);
  }

  /** A sound store with everything synced but perhaps the records. */
  predicate Stands(w: World, index: set<Binding>, dirs: map<Binding, Cell<()>>, records: map<Binding, Cell<File<Record>>>) {
    && w.disk.store == Cell(Some(()), Some(())) && Kept(w.disk.key, Authentic(())) && Kept(w.disk.index, Authentic(index))
    && w.disk.dirs == dirs && w.disk.records == records && w.reserved == index
  }

  /** The store a first call leaves when it stops before the last sync. */
  predicate Interrupted(w: World, p: Record) {
    && Stands(w, {p.Of()}, map[p.Of() := Cell(Some(()), Some(()))], map[p.Of() := Cell(Some(Authentic(p)), None)])
    && w.written == map[p.Of() := p]
  }

  lemma CreateStands()
    ensures Stands(TrackAll(FRESH, CREATE), {}, map[], map[]) && TrackAll(FRESH, CREATE).written == map[]
  {
    AllowedSix(FRESH, MakeStore, SyncRoot, PutKey, SyncStore, PutIndex({}), SyncStore);
  }

  lemma ReserveStands(w: World, b: Binding)
    requires Stands(w, {}, map[], map[]) && w.written == map[]
    ensures
      var w' := TrackAll(w, [SyncStore, PutIndex({b}), SyncStore]);
      Stands(w', {b}, map[], map[]) && w'.written == map[]
  {
    TrackThree(w, SyncStore, PutIndex({b}), SyncStore);
  }

  lemma PutStands(w: World, p: Record)
    requires Stands(w, {p.Of()}, map[], map[]) && w.written == map[]
    ensures Interrupted(TrackAll(w, [MakeDir(p.Of()), SyncStore, PutRecord(p)]), p)
  {
    var b := p.Of();
    TrackThree(w, MakeDir(b), SyncStore, PutRecord(p));
    var w1 := Track(w, MakeDir(b));
    assert w1.disk.dirs == map[b := Cell(Some(()), None)];
    var w2 := Track(w1, SyncStore);
    assert w2.disk.dirs == map[b := Cell(Some(()), Some(()))];
    assert w2.reserved == {b};
  }

  lemma CutLeaves(p: Record)
    ensures Interrupted(TrackAll(FRESH, Unsynced(p)), p)
  {
    var b := p.Of();
    var reserve, put := [SyncStore, PutIndex({b}), SyncStore], [MakeDir(b), SyncStore, PutRecord(p)];
    CreateStands();
    var w1 := TrackAll(FRESH, CREATE);
    ReserveStands(w1, b);
    PutStands(TrackAll(w1, reserve), p);
    TrackAppend(w1, reserve, put);
    TrackAppend(FRESH, CREATE, reserve + put);
  }

  /** What a power loss may leave of it: everything but the record. */
  function WithoutRecords(d: Disk): Disk {
    d.(records := map[])
  }

  lemma LossIsPossible(w: World, p: Record)
    requires Interrupted(w, p)
    ensures Survives(w.disk, WithoutRecords(w.disk))
  {
    var after := WithoutRecords(w.disk);
    forall b: Binding ensures Settles(w.disk.Dir(b), after.Dir(b)) {}
    forall b: Binding ensures after.RecordCell(b) == Cell(None, None) && Settles(w.disk.RecordCell(b), after.RecordCell(b)) {}
  }

  /** It happens: for every valid record, a first store cut off between the rename and
      the last sync and a power loss, without any damage, lose a record that was
      written. The store itself is sound and knows the binding. */
  lemma LostRecordIsReachable(p: Record) returns (steps: seq<Step>)
    requires p.Valid()
    ensures PossibleRun(FRESH, steps) && |steps| == 2 && steps[0] == Store(p, 12) && steps[1].PowerLoss?
    ensures
      var w := Run(FRESH, steps);
      && p.Of() in w.reserved && p.Of() in w.written && Recordless(w.disk, p.Of())
      && w.disk.ReadableIndex() == Some({p.Of()})
  {
    var store := Store(p, 12);
    FirstStoreWrites(p);
    CutLeaves(p);
    var w := Next(FRESH, store);
    assert w == TrackAll(FRESH, Unsynced(p));
    LossIsPossible(w, p);
    var loss := PowerLoss(WithoutRecords(w.disk));
    steps := [store, loss];
    RunTwo(FRESH, store, loss);
  }

  lemma RunTwo(w: World, a: Step, b: Step)
    requires Possible(w, a) && Possible(Next(w, a), b)
    ensures PossibleRun(w, [a, b]) && Run(w, [a, b]) == Next(Next(w, a), b)
  {
    var w1 := Next(w, a);
    assert [a, b][1..] == [b] && [b][1..] == [];
    assert PossibleRun(Next(w1, b), []) && Run(Next(w1, b), []) == Next(w1, b);
    assert PossibleRun(w1, [b]) && Run(w1, [b]) == Next(w1, b);
  }
}
