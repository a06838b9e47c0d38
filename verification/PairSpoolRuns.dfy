/** Every run of the message spool, with calls cut off between any two writes, power
    losses that keep or lose each unsynced entry, and damage to single files. */
module PairSpoolRuns {
  import opened Bytes
  import opened Durable
  import opened PairSpool

  /** The disk, and the entries of the last index known to be durable. */
  datatype World = World(disk: Spool, facts: Records)

  const FRESH: World := World(NO_SPOOL, map[])

  datatype Step = Perform(call: Call, cut: nat) | PowerLoss(after: Spool) | Damage(after: Spool)

  function Learn(facts: Records, cell: Option<File<Records>>): Records {
    match cell
    case Some(Authentic(records)) => records
    case _ => facts
  }

  function Track(w: World, write: Write): World {
    var d := Apply(w.disk, write);
    if write.Sync? then World(d, Learn(w.facts, d.index.durable)) else w.(disk := d)
  }

  function TrackAll(w: World, writes: seq<Write>): World
    decreases |writes|
  {
    if writes == [] then w else TrackAll(Track(w, writes[0]), writes[1..])
  }

  lemma {:induction false} TrackFollowsDisk(w: World, writes: seq<Write>)
    ensures TrackAll(w, writes).disk == Exec(w.disk, writes)
    decreases |writes|
  {
    if writes != [] { TrackFollowsDisk(Track(w, writes[0]), writes[1..]); }
  }

  lemma {:induction false} TrackAppend(w: World, a: seq<Write>, b: seq<Write>)
    ensures TrackAll(w, a + b) == TrackAll(TrackAll(w, a), b)
    decreases |a|
  {
    if a == [] {
      assert a + b == b;
    } else {
      assert (a + b)[0] == a[0] && (a + b)[1..] == a[1..] + b;
      TrackAppend(Track(w, a[0]), a[1..], b);
    }
  }

  // ---------------------------------------------------------------- steps

  ghost predicate Survives(d: Spool, after: Spool) {
    || (d.dir.durable.None? && after == NO_SPOOL)
    || (&& d.dir.seen.Some? && There(after.dir) && Settles(d.key, after.key) && Settles(d.index, after.index)
        && (forall id: string :: Settles(d.WireCell(id), after.WireCell(id))))
  }

  /** Files may vanish or stop authenticating; the spool as a whole is neither deleted
      nor rolled back. */
  ghost predicate Damaged(d: Spool, after: Spool) {
    && d.dir.seen.Some? && after.dir == d.dir && HurtCell(d.key, after.key) && HurtCell(d.index, after.index)
    && (forall id: string :: HurtCell(d.WireCell(id), after.WireCell(id)))
  }

  ghost predicate Possible(w: World, step: Step) {
    match step
    case Perform(_, _) => true
    case PowerLoss(after) => Survives(w.disk, after)
    case Damage(after) => Damaged(w.disk, after)
  }

  function Done(plan: Plan, cut: nat): seq<Write> {
    if cut < |plan.writes| then plan.writes[..cut] else plan.writes
  }

  ghost function Next(cfg: Config, w: World, step: Step): World {
    match step
    case Perform(call, cut) => TrackAll(w, Done(CallPlan(cfg, w.disk, call), cut))
    case PowerLoss(after) => World(after, Learn(w.facts, after.index.durable))
    case Damage(after) => w.(disk := after)
  }

  ghost function ReplyTo(cfg: Config, w: World, step: Step): Reply
    requires step.Perform?
  {
    Outcome(w.disk, CallPlan(cfg, w.disk, step.call), step.cut).1
  }

  ghost predicate PossibleRun(cfg: Config, w: World, steps: seq<Step>)
    decreases |steps|
  {
    steps != [] ==> Possible(w, steps[0]) && PossibleRun(cfg, Next(cfg, w, steps[0]), steps[1..])
  }

  ghost function Run(cfg: Config, w: World, steps: seq<Step>): World
    decreases |steps|
  {
    if steps == [] then w else Run(cfg, Next(cfg, w, steps[0]), steps[1..])
  }

  // ---------------------------------------------------------------- the invariant

  predicate Extends(facts: Records, records: Records) {
    forall id :: id in facts ==> id in records && facts[id].Advances(records[id])
  }

  ghost predicate IndexOk(facts: Records, cell: Option<File<Records>>) {
    cell.Some? && cell.value.Authentic? ==> Extends(facts, cell.value.value)
  }

  ghost predicate Inv(w: World) {
    && IndexOk(w.facts, w.disk.index.seen) && IndexOk(w.facts, w.disk.index.durable)
    && (w.facts != map[] || w.disk.key.seen == Some(Authentic(())) || w.disk.key.durable == Some(Authentic(()))
        ==> w.disk.dir.durable.Some?)
    && (w.disk.dir.durable.Some? ==> w.disk.dir.seen.Some?)
    && (w.disk.dir.seen.None? ==> w.disk == NO_SPOOL)
  }

  ghost predicate Allowed(w: World, write: Write) {
    match write
    case PutKey => w.disk.dir.durable.Some?
    case PutIndex(records) => w.disk.dir.durable.Some? && Extends(w.facts, records)
    case Sync => w.disk.dir.durable.Some?
    case MakeDir => true
    case _ => w.disk.dir.seen.Some?
  }

  ghost predicate AllAllowed(w: World, writes: seq<Write>)
    decreases |writes|
  {
    writes != [] ==> Allowed(w, writes[0]) && AllAllowed(Track(w, writes[0]), writes[1..])
  }

  lemma ExtendsSelf(records: Records)
    ensures Extends(records, records)
  {
  }

  lemma ExtendsOn(a: Records, b: Records, c: Records)
    requires Extends(a, b) && Extends(b, c)
    ensures Extends(a, c)
  {
    forall id | id in a ensures id in c && a[id].Advances(c[id]) {
      assert a[id].Advances(b[id]) && b[id].Advances(c[id]);
    }
  }

  lemma WriteKeepsInv(w: World, write: Write)
    requires Inv(w) && Allowed(w, write)
    ensures Inv(Track(w, write)) && Extends(w.facts, Track(w, write).facts)
  {
    ExtendsSelf(w.facts);
    ExtendsSelf(Track(w, write).facts);
  }

  lemma {:induction false} WritesKeepInv(w: World, writes: seq<Write>)
    requires Inv(w) && AllAllowed(w, writes)
    ensures Inv(TrackAll(w, writes)) && Extends(w.facts, TrackAll(w, writes).facts)
    decreases |writes|
  {
    if writes == [] {
      ExtendsSelf(w.facts);
    } else {
      WriteKeepsInv(w, writes[0]);
      WritesKeepInv(Track(w, writes[0]), writes[1..]);
      ExtendsOn(w.facts, Track(w, writes[0]).facts, TrackAll(w, writes).facts);
    }
  }

  lemma {:induction false} AllowedAppend(w: World, a: seq<Write>, b: seq<Write>)
    requires AllAllowed(w, a) && AllAllowed(TrackAll(w, a), b)
    ensures AllAllowed(w, a + b)
    decreases |a|
  {
    if a == [] {
      assert a + b == b;
    } else {
      assert (a + b)[0] == a[0] && (a + b)[1..] == a[1..] + b;
      AllowedAppend(Track(w, a[0]), a[1..], b);
    }
  }

  lemma {:induction false} AllowedPrefix(w: World, writes: seq<Write>, n: nat)
    requires AllAllowed(w, writes) && n <= |writes|
    ensures AllAllowed(w, writes[..n])
    decreases |writes|
  {
    if n > 0 {
      assert writes[..n][1..] == writes[1..][..n - 1];
      AllowedPrefix(Track(w, writes[0]), writes[1..], n - 1);
    }
  }

  lemma OneAllowed(w: World, a: Write)
    requires Allowed(w, a)
    ensures AllAllowed(w, [a]) && TrackAll(w, [a]) == Track(w, a)
  {
    assert [a][1..] == [];
  }

  lemma TwoAllowed(w: World, a: Write, b: Write)
    requires Allowed(w, a) && Allowed(Track(w, a), b)
    ensures AllAllowed(w, [a, b]) && TrackAll(w, [a, b]) == Track(Track(w, a), b)
  {
    OneAllowed(Track(w, a), b);
    assert [a, b][1..] == [b];
  }

  // ---------------------------------------------------------------- calls write only what is allowed

  lemma EmptyIsGood(principal: string)
    ensures Good(map[], principal)
  {
    assert OpenOnes(map[]) == map[] && OpenSizes(map[]) == map[];
  }

  lemma CreateAllowed(cfg: Config, w: World)
    requires Inv(w) && w.disk.dir.seen.None?
    ensures AllAllowed(w, CREATE)
    ensures var w' := TrackAll(w, CREATE); w'.facts == map[] && ReadIndex(cfg, w'.disk) == Some(map[])
  {
    EmptyIsGood(cfg.principal);
    TwoAllowed(w, MakeDir, SyncParent);
    var w2 := TrackAll(w, [MakeDir, SyncParent]);
    TwoAllowed(w2, PutKey, Sync);
    var w4 := TrackAll(w2, [PutKey, Sync]);
    TwoAllowed(w4, PutIndex(map[]), Sync);
    AllowedAppend(w2, [PutKey, Sync], [PutIndex(map[]), Sync]);
    TrackAppend(w2, [PutKey, Sync], [PutIndex(map[]), Sync]);
    AllowedAppend(w, [MakeDir, SyncParent], [PutKey, Sync] + [PutIndex(map[]), Sync]);
    TrackAppend(w, [MakeDir, SyncParent], [PutKey, Sync] + [PutIndex(map[]), Sync]);
    assert CREATE == [MakeDir, SyncParent] + ([PutKey, Sync] + [PutIndex(map[]), Sync]);
  }

  /** After opening, the index read is the durable one. */
  lemma InitAllowed(cfg: Config, w: World)
    requires Inv(w) && InitWrites(cfg, w.disk).Some?
    ensures
      var init := InitWrites(cfg, w.disk).value;
      && AllAllowed(w, init) && Inv(TrackAll(w, init)) && Extends(w.facts, TrackAll(w, init).facts)
      && ReadIndex(cfg, TrackAll(w, init).disk) == Some(TrackAll(w, init).facts)
  {
    var init := InitWrites(cfg, w.disk).value;
    if w.disk.dir.seen.None? { CreateAllowed(cfg, w); } else { OneAllowed(w, Sync); }
    WritesKeepInv(w, init);
  }

  lemma FilesAllowed(w: World, files: seq<Write>)
    requires Inv(w) && w.disk.dir.durable.Some? && w.disk.index.seen == Some(Authentic(w.facts))
    requires OnlyFiles(files)
    ensures AllAllowed(w, files)
    ensures var w' := TrackAll(w, files); w'.facts == w.facts && w'.disk.index.seen == w.disk.index.seen
    decreases |files|
  {
    if files != [] {
      assert files[0] in files;
      WriteKeepsInv(w, files[0]);
      FilesAllowed(Track(w, files[0]), files[1..]);
    }
  }

  predicate OnlyFiles(files: seq<Write>) {
    forall x :: x in files ==> x.Sync? || x.PutWire? || x.RemoveWire?
  }

  lemma DecidesFiles(cfg: Config, d: Spool, records: Records, call: Call)
    ensures OnlyFiles(Decide(cfg, d, records, call).files)
  {
  }

  /** Committing a readable, extended index and then changing wire files. */
  lemma IndexAllowed(w: World, records: Records, files: seq<Write>)
    requires Inv(w) && w.disk.dir.durable.Some? && Extends(w.facts, records)
    requires OnlyFiles(files)
    ensures AllAllowed(w, [PutIndex(records), Sync] + files)
    ensures TrackAll(w, [PutIndex(records), Sync] + files).facts == records
  {
    WriteKeepsInv(w, PutIndex(records));
    var w1 := Track(w, PutIndex(records));
    WriteKeepsInv(w1, Sync);
    TwoAllowed(w, PutIndex(records), Sync);
    FilesAllowed(Track(w1, Sync), files);
    AllowedAppend(w, [PutIndex(records), Sync], files);
    TrackAppend(w, [PutIndex(records), Sync], files);
  }

  lemma CommitAllowed(cfg: Config, w: World, call: Call)
    requires Inv(w) && call.Admissible(cfg)
    requires ReadIndex(cfg, w.disk) == Some(w.facts)
    ensures
      var decision := Decide(cfg, w.disk, w.facts, call);
      var w' := TrackAll(w, Committed(w.facts, call.b.message, decision));
      && AllAllowed(w, Committed(w.facts, call.b.message, decision))
      && w'.facts == IndexAfter(w.facts, call.b.message, decision)
  {
    DecidesFiles(cfg, w.disk, w.facts, call);
    var decision := Decide(cfg, w.disk, w.facts, call);
    if decision.commit.Some? { CommitIsReadableIff(cfg, w.disk, w.facts, call); }
    DecisionAllowed(cfg, w, call.b.message, decision);
  }

  lemma DecisionAllowed(cfg: Config, w: World, id: string, decision: Decision)
    requires Inv(w) && ReadIndex(cfg, w.disk) == Some(w.facts) && OnlyFiles(decision.files)
    requires decision.commit.Some? && id in w.facts ==> w.facts[id].Advances(decision.commit.value)
    ensures AllAllowed(w, Committed(w.facts, id, decision))
    ensures TrackAll(w, Committed(w.facts, id, decision)).facts == IndexAfter(w.facts, id, decision)
  {
    OneAllowed(w, Sync);
    WriteKeepsInv(w, Sync);
    var w1 := Track(w, Sync);
    assert w1.facts == w.facts;
    var rest := decision.files;
    if decision.commit.Some? {
      var records := w.facts[id := decision.commit.value];
      ExtendsPut(w.facts, id, decision.commit.value);
      IndexAllowed(w1, records, decision.files);
      rest := [PutIndex(records), Sync] + decision.files;
    } else {
      FilesAllowed(w1, decision.files);
    }
    AllowedAppend(w, [Sync], rest);
    TrackAppend(w, [Sync], rest);
    assert Committed(w.facts, id, decision) == [Sync] + rest;
  }

  lemma ExtendsPut(records: Records, id: string, e: Entry)
    requires id in records ==> records[id].Advances(e)
    ensures Extends(records, records[id := e])
  {
    ExtendsSelf(records);
  }

  /** The world a call decides in, opened and with its index durable. */
  ghost function Opened(cfg: Config, w: World): World
    requires InitWrites(cfg, w.disk).Some?
  {
    TrackAll(w, InitWrites(cfg, w.disk).value)
  }

  lemma CallAllowed(cfg: Config, w: World, call: Call)
    requires Inv(w) && call.Admissible(cfg) && InitWrites(cfg, w.disk).Some?
    ensures
      var o := Opened(cfg, w);
      var decision := Decide(cfg, o.disk, o.facts, call);
      var plan := CallPlan(cfg, w.disk, call);
      && Inv(o) && Extends(w.facts, o.facts) && ReadIndex(cfg, o.disk) == Some(o.facts)
      && AllAllowed(w, plan.writes) && plan.reply == decision.reply
      && TrackAll(w, plan.writes).facts == IndexAfter(o.facts, call.b.message, decision)
  {
    var init := InitWrites(cfg, w.disk).value;
    InitAllowed(cfg, w);
    TrackFollowsDisk(w, init);
    var o := Opened(cfg, w);
    CommitAllowed(cfg, o, call);
    var decision := Decide(cfg, o.disk, o.facts, call);
    AllowedAppend(w, init, Committed(o.facts, call.b.message, decision));
    TrackAppend(w, init, Committed(o.facts, call.b.message, decision));
  }

  lemma PerformKeepsInv(cfg: Config, w: World, step: Step)
    requires Inv(w) && step.Perform? && Possible(w, step)
    ensures Inv(Next(cfg, w, step)) && Extends(w.facts, Next(cfg, w, step).facts)
  {
    var plan := CallPlan(cfg, w.disk, step.call);
    if step.call.Admissible(cfg) && InitWrites(cfg, w.disk).Some? {
      CallAllowed(cfg, w, step.call);
      if step.cut < |plan.writes| { AllowedPrefix(w, plan.writes, step.cut); }
    }
    WritesKeepInv(w, Done(plan, step.cut));
  }

  lemma StepKeepsInv(cfg: Config, w: World, step: Step)
    requires Inv(w) && Possible(w, step)
    ensures Inv(Next(cfg, w, step)) && Extends(w.facts, Next(cfg, w, step).facts)
  {
    ExtendsSelf(w.facts);
    if step.Perform? { PerformKeepsInv(cfg, w, step); } else { ExtendsSelf(Next(cfg, w, step).facts); }
  }

  lemma {:induction false} RunKeepsInv(cfg: Config, w: World, steps: seq<Step>)
    requires Inv(w) && PossibleRun(cfg, w, steps)
    ensures Inv(Run(cfg, w, steps)) && Extends(w.facts, Run(cfg, w, steps).facts)
    decreases |steps|
  {
    if steps == [] {
      ExtendsSelf(w.facts);
    } else {
      StepKeepsInv(cfg, w, steps[0]);
      RunKeepsInv(cfg, Next(cfg, w, steps[0]), steps[1..]);
      ExtendsOn(w.facts, Next(cfg, w, steps[0]).facts, Run(cfg, w, steps).facts);
    }
  }

  // ---------------------------------------------------------------- every run

  lemma ReplyIsDecided(cfg: Config, w: World, step: Step)
    requires Inv(w) && step.Perform? && Possible(w, step) && !ReplyTo(cfg, w, step).Failed?
    ensures step.call.Admissible(cfg) && InitWrites(cfg, w.disk).Some?
    ensures
      var o := Opened(cfg, w);
      var decision := Decide(cfg, o.disk, o.facts, step.call);
      && Inv(o) && Extends(w.facts, o.facts) && ReadIndex(cfg, o.disk) == Some(o.facts)
      && ReplyTo(cfg, w, step) == decision.reply
      && Next(cfg, w, step).facts == IndexAfter(o.facts, step.call.b.message, decision)
  {
    CallAllowed(cfg, w, step.call);
  }

  /** Reserving answers "fresh" only for an ID nothing durable knows, and makes it known. */
  lemma FreshIsNew(cfg: Config, w: World, step: Step)
    requires Inv(w) && step.Perform? && Possible(w, step) && ReplyTo(cfg, w, step).Fresh?
    ensures step.call.b.message !in w.facts && step.call.b.message in Next(cfg, w, step).facts
  {
    ReplyIsDecided(cfg, w, step);
    DecisionIsTruthful(cfg, Opened(cfg, w).disk, Opened(cfg, w).facts, step.call);
  }

  /** Permission to encrypt is given at most once per message ID, however calls are cut
      off, the power fails or files are damaged. */
  lemma EncryptedAtMostOnce(cfg: Config, before: seq<Step>, first: Step, between: seq<Step>, second: Step)
    requires PossibleRun(cfg, FRESH, before)
    requires var w := Run(cfg, FRESH, before);
      first.Perform? && Possible(w, first) && ReplyTo(cfg, w, first).Fresh? && PossibleRun(cfg, Next(cfg, w, first), between)
    requires var w := Run(cfg, Next(cfg, Run(cfg, FRESH, before), first), between);
      second.Perform? && Possible(w, second) && second.call.b.message == first.call.b.message
    ensures !ReplyTo(cfg, Run(cfg, Next(cfg, Run(cfg, FRESH, before), first), between), second).Fresh?
  {
    var w := Run(cfg, FRESH, before);
    RunKeepsInv(cfg, FRESH, before);
    FreshIsNew(cfg, w, first);
    StepKeepsInv(cfg, w, first);
    RunKeepsInv(cfg, Next(cfg, w, first), between);
    var w2 := Run(cfg, Next(cfg, w, first), between);
    if ReplyTo(cfg, w2, second).Fresh? {
      FreshIsNew(cfg, w2, second);
      assert false;
    }
  }

  /** Whatever a call answers is true of the durable index it leaves. */
  lemma ReplyIsDurable(cfg: Config, w: World, step: Step)
    requires Inv(w) && step.Perform? && Possible(w, step)
    ensures Truthful(cfg, step.call, Next(cfg, w, step).facts, ReplyTo(cfg, w, step))
  {
    if !ReplyTo(cfg, w, step).Failed? {
      ReplyIsDecided(cfg, w, step);
      DecisionIsTruthful(cfg, Opened(cfg, w).disk, Opened(cfg, w).facts, step.call);
    }
  }

  /** Over every run the durable entry of a message only moves forward: its binding
      never changes, nor its digest and size once set, and its disposition goes from
      incomplete to prepared to admitted or rejected, or from incomplete to rejected. */
  lemma EntriesOnlyAdvance(cfg: Config, before: seq<Step>, after: seq<Step>, id: string)
    requires PossibleRun(cfg, FRESH, before) && PossibleRun(cfg, Run(cfg, FRESH, before), after)
    requires id in Run(cfg, FRESH, before).facts
    ensures
      var was := Run(cfg, FRESH, before).facts;
      var now := Run(cfg, Run(cfg, FRESH, before), after).facts;
      id in now && was[id].Advances(now[id])
  {
    RunKeepsInv(cfg, FRESH, before);
    RunKeepsInv(cfg, Run(cfg, FRESH, before), after);
  }

  /** Two loads of one message, or a store and a later load, give the same bytes, or
      the two byte strings are a hash collision. */
  lemma WireIsImmutable(cfg: Config, before: seq<Step>, first: Step, between: seq<Step>, second: Step, a: bytes, b: bytes)
    requires PossibleRun(cfg, FRESH, before) && first.Perform? && second.Perform?
    requires var w := Run(cfg, FRESH, before);
      && Possible(w, first) && PossibleRun(cfg, Next(cfg, w, first), between)
      && (ReplyTo(cfg, w, first) == Loaded(a) || (ReplyTo(cfg, w, first).Stored? && first.call.Store? && first.call.wire == a))
    requires var w := Run(cfg, Next(cfg, Run(cfg, FRESH, before), first), between);
      Possible(w, second) && ReplyTo(cfg, w, second) == Loaded(b) && second.call.b.message == first.call.b.message
    ensures a == b || (|a| == |b| && cfg.hash(a) == cfg.hash(b))
  {
    var w := Run(cfg, FRESH, before);
    RunKeepsInv(cfg, FRESH, before);
    ReplyIsDurable(cfg, w, first);
    StepKeepsInv(cfg, w, first);
    var w1 := Next(cfg, w, first);
    RunKeepsInv(cfg, w1, between);
    var w2 := Run(cfg, w1, between);
    ReplyIsDurable(cfg, w2, second);
    StepKeepsInv(cfg, w2, second);
    ExtendsOn(w1.facts, w2.facts, Next(cfg, w2, second).facts);
    assert w1.facts[first.call.b.message].Advances(Next(cfg, w2, second).facts[first.call.b.message]);
  }

  // ---------------------------------------------------------------- the index stays readable

  /** No wire stored here has the all-zero digest, the one value the index cannot hold. */
  predicate NonZero(step: Step) {
    step.Perform? && step.call.Store? ==> step.call.digest != ZeroDigest()
  }

  predicate AllNonZero(steps: seq<Step>) {
    forall x :: x in steps ==> NonZero(x)
  }

  ghost predicate GoodCell(cfg: Config, cell: Option<File<Records>>) {
    cell.Some? && cell.value.Authentic? ==> Good(cell.value.value, cfg.principal)
  }

  /** An index that authenticates passes the reader's checks, now and after a power loss. */
  ghost predicate Healthy(cfg: Config, d: Spool) {
    GoodCell(cfg, d.index.seen) && GoodCell(cfg, d.index.durable)
  }

  ghost predicate GoodWrites(cfg: Config, writes: seq<Write>) {
    forall x :: x in writes && x.PutIndex? ==> Good(x.records, cfg.principal)
  }

  lemma {:induction false} WritesKeepHealthy(cfg: Config, d: Spool, writes: seq<Write>)
    requires Healthy(cfg, d) && GoodWrites(cfg, writes)
    ensures Healthy(cfg, Exec(d, writes))
    decreases |writes|
  {
    if writes != [] {
      assert writes[0] in writes;
      WritesKeepHealthy(cfg, Apply(d, writes[0]), writes[1..]);
    }
  }

  lemma OpenedWritesGood(cfg: Config, d: Spool, call: Call)
    requires call.Admissible(cfg) && (call.Store? ==> call.digest != ZeroDigest())
    ensures GoodWrites(cfg, OpenedPlan(cfg, d, call).writes)
  {
    var index := ReadIndex(cfg, d);
    if index.Some? {
      var decision := Decide(cfg, d, index.value, call);
      DecidesFiles(cfg, d, index.value, call);
      if decision.commit.Some? { CommitIsReadableIff(cfg, d, index.value, call); }
      CommittedGood(cfg, index.value, call.b.message, decision);
    }
  }

  lemma CommittedGood(cfg: Config, records: Records, id: string, decision: Decision)
    requires OnlyFiles(decision.files)
    requires decision.commit.Some? ==> Good(records[id := decision.commit.value], cfg.principal)
    ensures GoodWrites(cfg, Committed(records, id, decision))
  {
  }

  lemma CallWritesGood(cfg: Config, d: Spool, call: Call)
    requires call.Store? ==> call.digest != ZeroDigest()
    ensures GoodWrites(cfg, CallPlan(cfg, d, call).writes)
  {
    if call.Admissible(cfg) && InitWrites(cfg, d).Some? {
      var init := InitWrites(cfg, d).value;
      EmptyIsGood(cfg.principal);
      assert GoodWrites(cfg, init);
      OpenedWritesGood(cfg, Exec(d, init), call);
    }
  }

  lemma StepKeepsHealthy(cfg: Config, w: World, step: Step)
    requires Healthy(cfg, w.disk) && Possible(w, step) && NonZero(step)
    ensures Healthy(cfg, Next(cfg, w, step).disk)
  {
    if step.Perform? {
      var plan := CallPlan(cfg, w.disk, step.call);
      CallWritesGood(cfg, w.disk, step.call);
      WritesKeepHealthy(cfg, w.disk, Done(plan, step.cut));
      TrackFollowsDisk(w, Done(plan, step.cut));
    }
  }

  lemma {:induction false} RunKeepsHealthy(cfg: Config, w: World, steps: seq<Step>)
    requires Healthy(cfg, w.disk) && PossibleRun(cfg, w, steps) && AllNonZero(steps)
    ensures Healthy(cfg, Run(cfg, w, steps).disk)
    decreases |steps|
  {
    if steps != [] {
      assert steps[0] in steps;
      StepKeepsHealthy(cfg, w, steps[0]);
      RunKeepsHealthy(cfg, Next(cfg, w, steps[0]), steps[1..]);
    }
  }

  /** Every index a reader can find that authenticates passes its shape and quota
      checks: no run of the writers ever locks a healthy spool, as long as no stored
      wire has the all-zero digest. */
  lemma IndexStaysReadable(cfg: Config, steps: seq<Step>)
    requires PossibleRun(cfg, FRESH, steps) && AllNonZero(steps)
    ensures
      var d := Run(cfg, FRESH, steps).disk;
      d.key.seen == Some(Authentic(())) && d.index.seen.Some? && d.index.seen.value.Authentic? ==> ReadIndex(cfg, d).Some?
  {
    RunKeepsHealthy(cfg, FRESH, steps);
  }

  /** The excluded case is real: storing a wire whose digest is all zero succeeds and
      leaves an index its own reader refuses from then on. */
  lemma ZeroDigestLocksTheSpool(cfg: Config, d: Spool, records: Records, call: Call)
    requires ReadIndex(cfg, d) == Some(records) && call.Store? && call.Admissible(cfg) && call.digest == ZeroDigest()
    requires Decide(cfg, d, records, call).commit.Some?
    ensures OpenedPlan(cfg, d, call).reply.Stored? && ReadIndex(cfg, Exec(d, OpenedPlan(cfg, d, call).writes)) == None
  {
    var id := call.b.message;
    var decision := Decide(cfg, d, records, call);
    var index := records[id := decision.commit.value];
    CommitIsReadableIff(cfg, d, records, call);
    assert Committed(records, id, decision) == [Sync, PutIndex(index), Sync] + [PutWire(id, call.wire), Sync, Sync];
    IndexAfterStore(d, index, id, call.wire);
  }

  /** The two calls that lock a new spool, uninterrupted. */
  function LockingRun(b: MessageBinding, wire: bytes): seq<Step> {
    [Perform(Reserve(b), 9), Perform(Store(b, wire, ZeroDigest(), true), 9)]
  }

  function Reserved(b: MessageBinding): Entry {
    Entry(b, ZeroDigest(), 0, false, false)
  }

  lemma FirstReserve(cfg: Config, b: MessageBinding)
    requires b.Valid() && b.principal == cfg.principal
    ensures
      var d := Exec(NO_SPOOL, CREATE);
      && ReadIndex(cfg, d) == Some(map[])
      && Decide(cfg, d, map[], Reserve(b)) == Decision(Some(Reserved(b)), [], Fresh)
  {
    CreateAllowed(cfg, FRESH);
    TrackFollowsDisk(FRESH, CREATE);
    EmptyIsGood(cfg.principal);
    CreatedDisk();
    assert OpenOnes(map[]) == map[];
  }

  lemma CreatedDisk()
    ensures Exec(NO_SPOOL, CREATE).wires == map[] && Exec(NO_SPOOL, CREATE).dir.seen.Some?
  {
    assert CREATE == [MakeDir, SyncParent, PutKey] + [Sync, PutIndex(map[]), Sync];
    ExecAppend(NO_SPOOL, [MakeDir, SyncParent, PutKey], [Sync, PutIndex(map[]), Sync]);
    ThreeExec(NO_SPOOL, MakeDir, SyncParent, PutKey);
    var d := Exec(NO_SPOOL, [MakeDir, SyncParent, PutKey]);
    ThreeExec(d, Sync, PutIndex(map[]), Sync);
  }

  lemma {:induction false} DirStays(d: Spool, writes: seq<Write>)
    requires d.dir.seen.Some?
    ensures Exec(d, writes).dir.seen.Some?
    decreases |writes|
  {
    if writes != [] { DirStays(Apply(d, writes[0]), writes[1..]); }
  }

  /** Reserving in a new spool is fresh and leaves an index of that one entry. */
  lemma ReserveOpens(cfg: Config, b: MessageBinding)
    requires b.Valid() && b.principal == cfg.principal
    ensures
      var reserve := Perform(Reserve(b), 9);
      var d := Next(cfg, FRESH, reserve).disk;
      ReplyTo(cfg, FRESH, reserve).Fresh? && d.dir.seen.Some? && ReadIndex(cfg, d) == Some(map[b.message := Reserved(b)])
  {
    FirstReserve(cfg, b);
    CreatedDisk();
    var d0 := Exec(NO_SPOOL, CREATE);
    var index := map[b.message := Reserved(b)];
    var writes := [Sync, PutIndex(index), Sync];
    var decision := Decide(cfg, d0, map[], Reserve(b));
    CommitIsReadableIff(cfg, d0, map[], Reserve(b));
    assert map[][b.message := Reserved(b)] == index;
    assert Committed(map[], b.message, decision) == writes;
    assert CallPlan(cfg, NO_SPOOL, Reserve(b)) == Plan(CREATE + writes, Fresh);
    TrackFollowsDisk(FRESH, CREATE + writes);
    ExecAppend(NO_SPOOL, CREATE, writes);
    ThreeExec(d0, Sync, PutIndex(index), Sync);
    DirStays(d0, writes);
  }

  lemma StoreDecided(cfg: Config, d: Spool, b: MessageBinding, wire: bytes)
    requires 0 < |wire| <= SPOOL_BYTES
    ensures
      var e := Reserved(b).(digest := ZeroDigest(), size := |wire|);
      Decide(cfg, d, map[b.message := Reserved(b)], Store(b, wire, ZeroDigest(), true))
        == Decision(Some(e), [PutWire(b.message, wire), Sync, Sync], Stored(e))
  {
    CountPut(map[], b.message, Reserved(b));
    assert map[][b.message := Reserved(b)] == map[b.message := Reserved(b)];
    assert OpenSizes(map[]) == map[];
  }

  /** Storing a wire with the all-zero digest in such a spool is accepted, and locks it. */
  lemma StoreLocks(cfg: Config, w: World, b: MessageBinding, wire: bytes)
    requires b.Valid() && b.principal == cfg.principal && 0 < |wire| <= SPOOL_BYTES && cfg.hash(wire) == ZeroDigest()
    requires w.disk.dir.seen.Some? && ReadIndex(cfg, w.disk) == Some(map[b.message := Reserved(b)])
    ensures
      var store := Perform(Store(b, wire, ZeroDigest(), true), 9);
      var d := Next(cfg, w, store).disk;
      ReplyTo(cfg, w, store).Stored? && d.dir.seen.Some? && ReadIndex(cfg, d) == None
  {
    var call := Store(b, wire, ZeroDigest(), true);
    var d1 := Exec(w.disk, [Sync]);
    SyncKeepsRead(cfg, w.disk);
    StoreDecided(cfg, d1, b, wire);
    ZeroDigestLocksTheSpool(cfg, d1, map[b.message := Reserved(b)], call);
    var plan := OpenedPlan(cfg, d1, call);
    assert |plan.writes| == 6;
    assert CallPlan(cfg, w.disk, call) == Plan([Sync] + plan.writes, plan.reply);
    TrackFollowsDisk(w, [Sync] + plan.writes);
    ExecAppend(w.disk, [Sync], plan.writes);
    DirStays(w.disk, [Sync] + plan.writes);
  }

  /** So the locked state is reached from a new spool in two calls, for any message whose
      wire has the all-zero digest: both succeed, and every later call fails. */
  lemma TwoCallsLockANewSpool(cfg: Config, b: MessageBinding, wire: bytes)
    requires b.Valid() && b.principal == cfg.principal && 0 < |wire| <= SPOOL_BYTES && cfg.hash(wire) == ZeroDigest()
    ensures
      var run := LockingRun(b, wire);
      && PossibleRun(cfg, FRESH, run)
      && ReplyTo(cfg, FRESH, run[0]).Fresh? && ReplyTo(cfg, Next(cfg, FRESH, run[0]), run[1]).Stored?
      && forall call :: CallPlan(cfg, Run(cfg, FRESH, run).disk, call) == Plan([], Failed)
  {
    var run := LockingRun(b, wire);
    ReserveOpens(cfg, b);
    var w := Next(cfg, FRESH, run[0]);
    StoreLocks(cfg, w, b, wire);
    RunPerforms(cfg, FRESH, run[0], run[1]);
    assert run == [run[0], run[1]];
  }

  lemma RunPerforms(cfg: Config, w: World, a: Step, b: Step)
    requires a.Perform? && b.Perform?
    ensures PossibleRun(cfg, w, [a, b]) && Run(cfg, w, [a, b]) == Next(cfg, Next(cfg, w, a), b)
  {
    var w1 := Next(cfg, w, a);
    var w2 := Next(cfg, w1, b);
    assert [a, b][1..] == [b] && [b][1..] == [];
    assert PossibleRun(cfg, w2, []) && Run(cfg, w2, []) == w2;
    assert PossibleRun(cfg, w1, [b]) && Run(cfg, w1, [b]) == w2;
  }

  lemma IndexAfterStore(d: Spool, index: Records, id: string, wire: bytes)
    ensures Exec(d, [Sync, PutIndex(index), Sync] + [PutWire(id, wire), Sync, Sync]).index.seen == Some(Authentic(index))
  {
    ExecAppend(d, [Sync, PutIndex(index), Sync], [PutWire(id, wire), Sync, Sync]);
    ThreeExec(d, Sync, PutIndex(index), Sync);
    ThreeExec(Apply(Apply(Apply(d, Sync), PutIndex(index)), Sync), PutWire(id, wire), Sync, Sync);
  }

  // ---------------------------------------------------------------- a stored wire stays

  predicate Holds(cell: Option<File<Records>>, id: string, e: Entry) {
    cell.Some? && cell.value.Authentic? && id in cell.value.value && cell.value.value[id] == e
  }

  /** Everything a load of `id` needs is durable. */
  predicate Settled(cfg: Config, d: Spool, id: string, e: Entry, wire: bytes) {
    && There(d.dir) && Kept(d.key, Authentic(())) && Holds(d.index.seen, id, e) && Holds(d.index.durable, id, e)
    && Kept(d.WireCell(id), Authentic(wire))
    && e.Stage() == Prepared && e.size == |wire| && e.digest == cfg.hash(wire) && e.binding.message == id
  }

  /** Writes that leave the entry and the wire of `id` alone. */
  predicate Leaves(writes: seq<Write>, id: string, e: Entry) {
    forall x :: x in writes ==>
      && (x.PutWire? || x.RemoveWire? ==> x.id != id)
      && (x.PutIndex? ==> id in x.records && x.records[id] == e)
  }

  lemma {:induction false} WritesKeepSettled(cfg: Config, d: Spool, id: string, e: Entry, wire: bytes, writes: seq<Write>)
    requires Settled(cfg, d, id, e, wire) && Leaves(writes, id, e)
    ensures Settled(cfg, Exec(d, writes), id, e, wire)
    decreases |writes|
  {
    if writes != [] {
      assert writes[0] in writes;
      WritesKeepSettled(cfg, Apply(d, writes[0]), id, e, wire, writes[1..]);
    }
  }

  /** A call that neither retires nor rejects message `id`. */
  predicate Spares(call: Call, id: string) {
    call.b.message == id ==> !call.Retire? && !call.Reject?
  }

  lemma CallLeaves(cfg: Config, d: Spool, call: Call, id: string, e: Entry, wire: bytes)
    requires Settled(cfg, d, id, e, wire) && Spares(call, id)
    ensures Leaves(CallPlan(cfg, d, call).writes, id, e)
  {
    if call.Admissible(cfg) && InitWrites(cfg, d).Some? {
      var init := InitWrites(cfg, d).value;
      assert init == [Sync];
      WritesKeepSettled(cfg, d, id, e, wire, init);
      OpenedLeaves(cfg, Exec(d, init), call, id, e, wire);
    }
  }

  lemma OpenedLeaves(cfg: Config, d: Spool, call: Call, id: string, e: Entry, wire: bytes)
    requires Settled(cfg, d, id, e, wire) && Spares(call, id)
    ensures Leaves(OpenedPlan(cfg, d, call).writes, id, e)
  {
    var index := ReadIndex(cfg, d);
    if index.Some? {
      var decision := Decide(cfg, d, index.value, call);
      if call.b.message == id {
        SameLeaves(cfg, d, index.value, call, e, wire);
      } else {
        OtherLeaves(cfg, d, index.value, call);
      }
      CommittedLeaves(index.value, call.b.message, decision, id, e);
    }
  }

  /** A call about the settled message itself commits nothing and only syncs. */
  lemma SameLeaves(cfg: Config, d: Spool, records: Records, call: Call, e: Entry, wire: bytes)
    requires Settled(cfg, d, call.b.message, e, wire) && Spares(call, call.b.message)
    requires call.b.message in records && records[call.b.message] == e
    ensures
      var decision := Decide(cfg, d, records, call);
      decision.commit.None? && forall x :: x in decision.files ==> x.Sync?
  {
  }

  lemma OtherLeaves(cfg: Config, d: Spool, records: Records, call: Call)
    ensures forall x :: x in Decide(cfg, d, records, call).files ==> (x.PutWire? || x.RemoveWire? ==> x.id == call.b.message)
    ensures forall x :: x in Decide(cfg, d, records, call).files ==> !x.PutIndex?
  {
  }

  lemma CommittedLeaves(records: Records, about: string, decision: Decision, id: string, e: Entry)
    requires id in records && records[id] == e && (about == id ==> decision.commit.None?)
    requires forall x :: x in decision.files ==> !x.PutIndex? && (x.PutWire? || x.RemoveWire? ==> x.id == about != id)
    ensures Leaves(Committed(records, about, decision), id, e)
  {
  }

  lemma PowerLossKeepsSettled(cfg: Config, d: Spool, after: Spool, id: string, e: Entry, wire: bytes)
    requires Settled(cfg, d, id, e, wire) && Survives(d, after)
    ensures Settled(cfg, after, id, e, wire)
  {
    assert Settles(d.WireCell(id), after.WireCell(id));
  }

  predicate SparesAll(steps: seq<Step>, id: string) {
    forall x :: x in steps ==> !x.Damage? && (x.Perform? ==> Spares(x.call, id))
  }

  lemma {:induction false} RunKeepsSettled(cfg: Config, w: World, steps: seq<Step>, id: string, e: Entry, wire: bytes)
    requires PossibleRun(cfg, w, steps) && Settled(cfg, w.disk, id, e, wire) && SparesAll(steps, id)
    ensures Settled(cfg, Run(cfg, w, steps).disk, id, e, wire)
    decreases |steps|
  {
    if steps != [] {
      var step := steps[0];
      assert step in steps;
      if step.Perform? {
        var writes := Done(CallPlan(cfg, w.disk, step.call), step.cut);
        CallLeaves(cfg, w.disk, step.call, id, e, wire);
        WritesKeepSettled(cfg, w.disk, id, e, wire, writes);
        TrackFollowsDisk(w, writes);
      } else {
        PowerLossKeepsSettled(cfg, w.disk, step.after, id, e, wire);
      }
      RunKeepsSettled(cfg, Next(cfg, w, step), steps[1..], id, e, wire);
    }
  }

  lemma OneExec(d: Spool, a: Write)
    ensures Exec(d, [a]) == Apply(d, a)
  {
    assert [a][1..] == [];
  }

  lemma ThreeExec(d: Spool, a: Write, b: Write, c: Write)
    ensures Exec(d, [a, b, c]) == Apply(Apply(Apply(d, a), b), c)
  {
    OneExec(d, a);
    OneExec(Apply(d, a), b);
    OneExec(Apply(Apply(d, a), b), c);
    ExecAppend(Apply(d, a), [b], [c]);
    ExecAppend(d, [a], [b] + [c]);
    assert [a, b, c] == [a] + ([b] + [c]);
  }

  /** Storing for the first time: index, then wire, each synced. */
  lemma FirstStoreSettles(cfg: Config, d: Spool, records: Records, id: string, e: Entry, wire: bytes)
    requires There(d.dir) && d.key.seen == Some(Authentic(())) && id in records && records[id] == e
    requires e.Stage() == Prepared && e.size == |wire| && e.digest == cfg.hash(wire) && e.binding.message == id
    ensures Settled(cfg, Exec(d, [Sync, PutIndex(records), Sync] + [PutWire(id, wire), Sync, Sync]), id, e, wire)
  {
    ThreeExec(d, Sync, PutIndex(records), Sync);
    var d1 := Apply(Apply(Apply(d, Sync), PutIndex(records)), Sync);
    ExecAppend(d, [Sync, PutIndex(records), Sync], [PutWire(id, wire), Sync, Sync]);
    ThreeExec(d1, PutWire(id, wire), Sync, Sync);
    var d2 := Apply(d1, PutWire(id, wire));
    assert d2.WireCell(id).seen == Some(Authentic(wire));
    SyncSettles(cfg, d2, id, e, wire);
    SyncSettles(cfg, Apply(d2, Sync), id, e, wire);
  }

  lemma SyncSettles(cfg: Config, d: Spool, id: string, e: Entry, wire: bytes)
    requires There(d.dir) && d.key.seen == Some(Authentic(())) && Holds(d.index.seen, id, e)
    requires d.WireCell(id).seen == Some(Authentic(wire))
    requires e.Stage() == Prepared && e.size == |wire| && e.digest == cfg.hash(wire) && e.binding.message == id
    ensures Settled(cfg, Apply(d, Sync), id, e, wire)
  {
    assert Apply(d, Sync).WireCell(id) == d.WireCell(id).Synced();
  }

  /** A store that returned, unless the message was admitted before, leaves its wire settled. */
  lemma StoreSettles(cfg: Config, w: World, call: Call)
    requires Inv(w) && ReadIndex(cfg, w.disk) == Some(w.facts) && call.Store? && call.Admissible(cfg)
    requires
      var decision := Decide(cfg, w.disk, w.facts, call);
      decision.reply.Stored? && decision.reply.entry.Stage() == Prepared
    ensures
      var decision := Decide(cfg, w.disk, w.facts, call);
      Settled(cfg, Exec(w.disk, Committed(w.facts, call.b.message, decision)), call.b.message, decision.reply.entry, call.wire)
  {
    StoreDecides(cfg, w.disk, w.facts, call);
    var decision := Decide(cfg, w.disk, w.facts, call);
    DecisionSettles(cfg, w.disk, w.facts, call.b.message, decision, call.wire);
  }

  /** What a store that leaves a prepared entry has decided. */
  predicate StoresBy(cfg: Config, d: Spool, records: Records, id: string, decision: Decision, wire: bytes) {
    && decision.reply.Stored?
    && var e := decision.reply.entry;
       && e.Stage() == Prepared && e.size == |wire| && e.digest == cfg.hash(wire) && e.binding.message == id
       && if decision.commit.Some? then decision.commit.value == e && decision.files == [PutWire(id, wire), Sync, Sync]
          else id in records && records[id] == e && decision.files == [Sync] && d.WireCell(id).seen == Some(Authentic(wire))
  }

  lemma StoreDecides(cfg: Config, d: Spool, records: Records, call: Call)
    requires Good(records, cfg.principal) && call.Store? && call.Admissible(cfg)
    requires
      var decision := Decide(cfg, d, records, call);
      decision.reply.Stored? && decision.reply.entry.Stage() == Prepared
    ensures StoresBy(cfg, d, records, call.b.message, Decide(cfg, d, records, call), call.wire)
  {
    assert records[call.b.message].Shape(cfg.principal, call.b.message);
  }

  lemma DecisionSettles(cfg: Config, d: Spool, records: Records, id: string, decision: Decision, wire: bytes)
    requires There(d.dir) && ReadIndex(cfg, d) == Some(records) && StoresBy(cfg, d, records, id, decision, wire)
    ensures Settled(cfg, Exec(d, Committed(records, id, decision)), id, decision.reply.entry, wire)
  {
    var e := decision.reply.entry;
    if decision.commit.Some? {
      var index := records[id := e];
      assert Committed(records, id, decision) == [Sync, PutIndex(index), Sync] + [PutWire(id, wire), Sync, Sync];
      FirstStoreSettles(cfg, d, index, id, e, wire);
    } else {
      assert Committed(records, id, decision) == [Sync] + [Sync];
      RepeatSettles(cfg, d, id, e, wire);
    }
  }

  lemma RepeatSettles(cfg: Config, d: Spool, id: string, e: Entry, wire: bytes)
    requires There(d.dir) && d.key.seen == Some(Authentic(())) && Holds(d.index.seen, id, e)
    requires d.WireCell(id).seen == Some(Authentic(wire))
    requires e.Stage() == Prepared && e.size == |wire| && e.digest == cfg.hash(wire) && e.binding.message == id
    ensures Settled(cfg, Exec(d, [Sync] + [Sync]), id, e, wire)
  {
    ExecAppend(d, [Sync], [Sync]);
    OneExec(d, Sync);
    OneExec(Apply(d, Sync), Sync);
    SyncSettles(cfg, d, id, e, wire);
    SyncSettles(cfg, Apply(d, Sync), id, e, wire);
  }

  lemma StoredIsSettled(cfg: Config, w: World, store: Step)
    requires Inv(w) && store.Perform? && store.call.Store? && Possible(w, store)
    requires ReplyTo(cfg, w, store).Stored? && ReplyTo(cfg, w, store).entry.Stage() == Prepared
    ensures
      var e := ReplyTo(cfg, w, store).entry;
      e.binding == store.call.b && Settled(cfg, Next(cfg, w, store).disk, store.call.b.message, e, store.call.wire)
  {
    ReplyIsDecided(cfg, w, store);
    var o := Opened(cfg, w);
    StoreSettles(cfg, o, store.call);
    var init := InitWrites(cfg, w.disk).value;
    TrackFollowsDisk(w, init);
    ExecAppend(w.disk, init, OpenedPlan(cfg, o.disk, store.call).writes);
    TrackFollowsDisk(w, CallPlan(cfg, w.disk, store.call).writes);
  }

  /** Once a store has returned, any number of cut-off calls and power losses later,
      with the message neither retired nor rejected, a load returns exactly its wire. */
  lemma StoredWireSurvives(cfg: Config, before: seq<Step>, store: Step, between: seq<Step>)
    requires PossibleRun(cfg, FRESH, before)
    requires var w := Run(cfg, FRESH, before);
      && store.Perform? && store.call.Store? && Possible(w, store)
      && ReplyTo(cfg, w, store).Stored? && ReplyTo(cfg, w, store).entry.Stage() == Prepared
      && PossibleRun(cfg, Next(cfg, w, store), between)
    requires SparesAll(between, store.call.b.message) && AllNonZero(before) && NonZero(store) && AllNonZero(between)
    ensures
      var d := Run(cfg, Next(cfg, Run(cfg, FRESH, before), store), between).disk;
      CallPlan(cfg, d, Load(store.call.b)).reply == Loaded(store.call.wire)
  {
    var w := Run(cfg, FRESH, before);
    RunKeepsInv(cfg, FRESH, before);
    StoredIsSettled(cfg, w, store);
    var id, e := store.call.b.message, ReplyTo(cfg, w, store).entry;
    var w1 := Next(cfg, w, store);
    RunKeepsHealthy(cfg, FRESH, before);
    StepKeepsHealthy(cfg, w, store);
    RunKeepsHealthy(cfg, w1, between);
    RunKeepsSettled(cfg, w1, between, id, e, store.call.wire);
    SettledLoads(cfg, Run(cfg, w1, between).disk, id, e, store.call.wire);
  }

  /** A settled wire is what the next uninterrupted load of its binding returns. */
  lemma SettledLoads(cfg: Config, d: Spool, id: string, e: Entry, wire: bytes)
    requires Healthy(cfg, d) && Settled(cfg, d, id, e, wire)
    ensures CallPlan(cfg, d, Load(e.binding)).reply == Loaded(wire)
  {
    var index := d.index.seen.value.value;
    SettledReads(cfg, d, id, e, wire, index);
    ReadableLoads(cfg, d, id, e, wire, index);
  }

  lemma ReadableLoads(cfg: Config, d: Spool, id: string, e: Entry, wire: bytes, index: Records)
    requires Settled(cfg, d, id, e, wire) && Load(e.binding).Admissible(cfg)
    requires ReadIndex(cfg, d) == Some(index) && id in index && index[id] == e
    ensures CallPlan(cfg, d, Load(e.binding)).reply == Loaded(wire)
  {
    SyncKeepsRead(cfg, d);
    WritesKeepSettled(cfg, d, id, e, wire, [Sync]);
    LoadDecided(cfg, Exec(d, [Sync]), index, id, e, wire);
    LoadReply(cfg, d, e.binding, index, wire);
  }

  lemma SettledReads(cfg: Config, d: Spool, id: string, e: Entry, wire: bytes, index: Records)
    requires Healthy(cfg, d) && Settled(cfg, d, id, e, wire) && d.index.seen == Some(Authentic(index))
    ensures ReadIndex(cfg, d) == Some(index) && Load(e.binding).Admissible(cfg)
  {
    assert GoodCell(cfg, d.index.seen);
    assert index[id].Shape(cfg.principal, id);
  }

  lemma SyncKeepsRead(cfg: Config, d: Spool)
    ensures ReadIndex(cfg, Exec(d, [Sync])) == ReadIndex(cfg, d)
  {
    OneExec(d, Sync);
  }

  lemma LoadReply(cfg: Config, d: Spool, b: MessageBinding, index: Records, wire: bytes)
    requires Load(b).Admissible(cfg) && d.dir.seen.Some? && ReadIndex(cfg, d).Some?
    requires ReadIndex(cfg, Exec(d, [Sync])) == Some(index)
    requires Decide(cfg, Exec(d, [Sync]), index, Load(b)).reply == Loaded(wire)
    ensures CallPlan(cfg, d, Load(b)).reply == Loaded(wire)
  {
    assert OpenedPlan(cfg, Exec(d, [Sync]), Load(b)).reply == Loaded(wire);
  }

  lemma LoadDecided(cfg: Config, d: Spool, records: Records, id: string, e: Entry, wire: bytes)
    requires Settled(cfg, d, id, e, wire) && id in records && records[id] == e
    ensures Decide(cfg, d, records, Load(e.binding)).reply == Loaded(wire)
  {
    assert ReadWire(cfg, d, e) == Some(wire);
  }
}
