/** All interleavings of the sharing coordinator's worker with wakes, kicks,
    handler failures, overflows and reconnects: no accepted wake is lost, the
    queue stays well formed and bounded, and waiting work is served in order. */
module CoordinatorRuns {
  import opened Bytes
  import opened Coordinator

  /** Life of one socket: authenticated, promoted, dropped, torn down. */
  datatype Link = Down | Authed | Up | Ending

  /** `started` and `fullAtStart` are the revisions when the job was taken. */
  datatype Worker =
    | Idle
    | Busy(job: Job, started: nat, fullAtStart: nat, callback: Option<Snapshot>)
    | Backoff(job: Job, started: nat, fullAtStart: nat)

  /** What was asked for and what was done about it, by revision: the newest wake
      accepted for a key, the wakes merged into its queue entry, the start of the
      last finished job that served it, the callback that blocked it. */
  datatype Ledger = Ledger(wakes: map<string, nat>, asked: map<string, seq<Wake>>,
                           settled: map<string, nat>, settledFull: nat, blockedAt: map<string, nat>)

  datatype World = World(c: Coord, link: Link, worker: Worker, ledger: Ledger)

  datatype Step =
    | Wake(domain: Domain, wake: Coordinator.Wake)
    | Kick(pairs: bool, projects: bool, installation: string)
    | MalformedWake
    | Auth | Promote | GoLive | LinkLost | Teardown
    | Take
    | Callback(key: string)
    | HandlerFailed
    | Drain(project: string)
    | Finish(retry: bool)
    | ContextDone
    | Requeue

  /** A client whose coordinator has just been created and kicked, while offline. */
  function Start(pairs: bool, projects: bool, installation: string): World {
    var c := Coord(None, 0, map[], [], {}, false, 0, 0, map[], pairs, projects, installation, false, 0, 0);
    World(c.Kick(), Down, Idle, Ledger(map[], map[], map[], 0, map[]))
  }

  predicate Possible(w: World, step: Step) {
    match step
    case Wake(domain, wake) => ValidId(wake.grant) && (domain != Pair ==> wake.generation == 0)
    case Auth => w.link.Down?
    case Promote => w.link.Authed?
    case GoLive => w.link.Up?
    case LinkLost => w.link.Up?
    case Teardown => w.link.Ending?
    case Take => w.worker.Idle?
    case Callback(key) => w.worker.Busy? && (w.worker.job.full || key == w.worker.job.key)
    case HandlerFailed => w.worker.Busy? && w.worker.callback.Some?
    case Drain(project) =>
      w.worker.Busy? && ValidId(project) && (w.worker.job.full || w.worker.job.key == JobKey(OwnerProject, project))
    case Finish(_) => w.worker.Busy?
    case ContextDone => w.worker.Backoff? && w.c.session != Some(w.worker.job.session)
    case Requeue => w.worker.Backoff?
    case _ => true
  }

  /** No session change, kick or enablement since the worker took its job. */
  predicate Fresh(w: World)
    requires !w.worker.Idle?
  {
    w.c.session == Some(w.worker.job.session) && w.c.fullRevision == w.worker.fullAtStart
  }

  function Asked(l: Ledger, key: string): seq<Coordinator.Wake> {
    if key in l.asked then l.asked[key] else []
  }

  function NextQueue(w: World, key: string, wake: Coordinator.Wake): World {
    var c := w.c.QueueKey(key, wake);
    w.(c := c, ledger := w.ledger.(wakes := w.ledger.wakes[key := c.revision],
    asked := if w.c.Overflows(key) then map[] else w.ledger.asked[key := Asked(w.ledger, key) + [wake]]))
  }

  function NextTake(w: World): World
    requires w.worker.Idle?
  {
    var (c, job) := w.c.NextJob();
    if job.None? then w.(c := c)
    else w.(c := c, worker := Busy(job.value, w.c.revision, w.c.fullRevision, None),
    ledger := if job.value.full then w.ledger else w.ledger.(asked := w.ledger.asked - {job.value.key}))
  }

  function NextHandlerFailed(w: World): World
    requires w.worker.Busy? && w.worker.callback.Some?
  {
    var snap := w.worker.callback.value;
    var c := w.c.BlockFailed(w.worker.job, snap);
    w.(c := c, worker := w.worker.(callback := None),
    ledger := if c == w.c then w.ledger
    else w.ledger.(blockedAt := w.ledger.blockedAt[snap.key := snap.at], asked := w.ledger.asked - {snap.key}))
  }

  function Max(a: nat, b: nat): nat {
    if a < b then b else a
  }

  function SettledAt(l: Ledger, key: string): nat {
    if key in l.settled then l.settled[key] else 0
  }

  function NextFinish(w: World, retry: bool): World
    requires w.worker.Busy?
  {
    var job := w.worker.job;
    if retry then
      w.(worker := if w.c.session == Some(job.session) then Backoff(job, w.worker.started, w.worker.fullAtStart) else Idle)
    else
      w.(worker := Idle,
      ledger := if !Fresh(w) then w.ledger
      else if job.full then w.ledger.(settledFull := Max(w.ledger.settledFull, w.worker.started))
      else w.ledger.(settled := w.ledger.settled[job.key := Max(SettledAt(w.ledger, job.key), w.worker.started)]))
  }

  function NextDrain(w: World, key: string, project: string): World
    requires w.worker.Busy?
  {
    var c := w.c.DrainKey(w.worker.job, key, project);
    w.(c := c, ledger := if c.session == w.c.session then w.ledger else w.ledger.(asked := map[]))
  }

  function Next(w: World, step: Step): World
    requires Possible(w, step)
  {
    match step
    case Wake(domain, wake) => if w.c.Accepts(domain) then NextQueue(w, JobKey(domain, wake.grant), wake) else w
    case Kick(pairs, projects, installation) =>
      var c := w.c.(pairs := w.c.pairs || pairs, projects := w.c.projects || projects,
      installation := if installation == "" then w.c.installation else installation).Kick();
      w.(c := c, ledger := if c.session == w.c.session then w.ledger else w.ledger.(asked := map[]))
    case MalformedWake => Cleared(w, w.c.Disconnected(w.c.generation))
    case Auth => w.(c := w.c.(generation := w.c.generation + 1), link := Authed)
    case Promote => w.(c := w.c.(connected := true), link := Up)
    case GoLive => Cleared(w, w.c.StartSession())
    case LinkLost => w.(c := w.c.(connected := false), link := Ending)
    case Teardown => Cleared(w.(link := Down), w.c.Disconnected(w.c.generation))
    case Take => NextTake(w)
    case Callback(key) =>
      w.(worker := w.worker.(callback := Some(Snapshot(key, w.c.fullRevision, w.c.GrantRevision(key), w.c.revision))))
    case HandlerFailed => NextHandlerFailed(w)
    case Drain(project) => NextDrain(w, JobKey(OwnerProject, project), project)
    case Finish(retry) => NextFinish(w, retry)
    case ContextDone => w.(worker := Idle)
    case Requeue => w.(c := w.c.RequeueRetry(w.worker.job), worker := Idle)
  }

  function Cleared(w: World, c: Coord): World {
    w.(c := c, ledger := if c == w.c then w.ledger else w.ledger.(asked := map[]))
  }

  predicate PossibleRun(w: World, steps: seq<Step>)
    decreases |steps|
  {
    steps != [] ==> Possible(w, steps[0]) && PossibleRun(Next(w, steps[0]), steps[1..])
  }

  function Run(w: World, steps: seq<Step>): World
    requires PossibleRun(w, steps)
    decreases |steps|
  {
    if steps == [] then w else Run(Next(w, steps[0]), steps[1..])
  }

  // ---------------------------------------------------------------- the queue

  /** Every pending key is queued exactly once; blocked work is never pending; the
      worker alone may exceed the cap, by its one job. */
  predicate QueueOk(c: Coord, worker: Worker) {
    && NoDuplicates(c.order)
    && (forall k :: k in c.pending ==> k in c.order)
    && c.pending.Keys !! c.blocked
    && |c.pending| <= WAKE_CAP + 1
    && (!worker.Idle? && !worker.job.full ==> |c.pending| <= WAKE_CAP)
  }

  /** Pending work and the worker's job carry the key of their own domain. */
  predicate KeysOk(c: Coord, worker: Worker) {
    && PendingKeysOk(c)
    && (!worker.Idle? && !worker.job.full ==> JobOk(worker.job))
  }

  predicate KeyOk(key: string, wake: Coordinator.Wake) {
    ValidId(wake.grant) && key == JobKey(DomainOf(key, wake.grant), wake.grant)
  }

  predicate JobOk(job: Job) {
    ValidId(job.grant) && job.key == JobKey(job.domain, job.grant)
  }

  lemma {:induction false} LiveIn(order: seq<string>, pending: map<string, Coordinator.Wake>, k: string)
    ensures k in Live(order, pending) <==> k in order && k in pending
  {
    if order != [] {
      LiveIn(order[1..], pending, k);
      assert k in order <==> k == order[0] || k in order[1..];
    }
  }

  lemma {:induction false} LiveNoDuplicates(order: seq<string>, pending: map<string, Coordinator.Wake>)
    requires NoDuplicates(order)
    ensures NoDuplicates(Live(order, pending))
  {
    if order != [] {
      LiveNoDuplicates(order[1..], pending);
      LiveIn(order[1..], pending, order[0]);
    }
  }

  lemma {:induction false} DropStaleSuffix(order: seq<string>, pending: map<string, Coordinator.Wake>)
    requires NoDuplicates(order)
    ensures NoDuplicates(DropStale(order, pending))
    ensures forall k :: k in pending ==> (k in order <==> k in DropStale(order, pending))
    ensures Live(DropStale(order, pending), pending) == Live(order, pending)
  {
    if order != [] && order[0] !in pending {
      DropStaleSuffix(order[1..], pending);
    }
  }

  lemma EnqueueQueueOk(c: Coord, key: string, wake: Coordinator.Wake, worker: Worker)
    requires QueueOk(c, worker) && key !in c.blocked
    requires key !in c.pending ==> |c.pending| < WAKE_CAP || (|c.pending| == WAKE_CAP && (worker.Idle? || worker.job.full))
    ensures QueueOk(c.Enqueue(key, wake), worker)
  {
    var c' := c.Enqueue(key, wake);
    assert c'.pending.Keys == c.pending.Keys + {key};
    assert |c'.pending| == |c'.pending.Keys| && |c.pending| == |c.pending.Keys|;
    if key !in c.pending {
      LiveNoDuplicates(c.order, c.pending);
      LiveIn(c.order, c.pending, key);
      forall k | k in c.pending ensures k in c'.order { LiveIn(c.order, c.pending, k); }
      assert key in c'.order;
    } else {
      assert c'.pending.Keys == c.pending.Keys;
    }
  }

  lemma RemoveShrinks(m: map<string, Coordinator.Wake>, key: string)
    ensures |m - {key}| == if key in m then |m| - 1 else |m|
  {
    assert (m - {key}).Keys == m.Keys - {key};
    assert |m - {key}| == |(m - {key}).Keys|;
    assert |m| == |m.Keys|;
  }

  lemma WakeQueueOk(w: World, key: string, wake: Coordinator.Wake)
    requires QueueOk(w.c, w.worker)
    ensures QueueOk(w.c.QueueKey(key, wake), w.worker)
  {
    if !w.c.Overflows(key) {
      EnqueueQueueOk(w.c.(blocked := w.c.blocked - {key}), key, w.c.Merged(key, wake), w.worker);
    }
  }

  lemma HeadRemoved(rest: seq<string>, pending: map<string, Coordinator.Wake>)
    requires NoDuplicates(rest) && rest != [] && forall k :: k in pending ==> k in rest
    ensures NoDuplicates(rest[1..])
    ensures forall k :: k in pending - {rest[0]} ==> k in rest[1..]
  {
    assert rest == [rest[0]] + rest[1..];
  }

  lemma TakeQueueOk(c: Coord)
    requires QueueOk(c, Idle)
    ensures
      var (c', job) := c.NextJob();
      QueueOk(c', if job.None? then Idle else Busy(job.value, c.revision, c.fullRevision, None))
  {
    var rest := DropStale(c.order, c.pending);
    DropStaleSuffix(c.order, c.pending);
    if rest != [] {
      RemoveShrinks(c.pending, rest[0]);
      HeadRemoved(rest, c.pending);
    } else {
      assert c.pending.Keys == {};
    }
  }

  lemma DrainQueueOk(w: World, key: string, project: string)
    requires QueueOk(w.c, w.worker) && w.worker.Busy?
    ensures QueueOk(w.c.DrainKey(w.worker.job, key, project), w.worker)
  {
    var c := w.c.(pending := w.c.pending - {key});
    RemoveShrinks(w.c.pending, key);
    if key !in w.c.blocked && |c.pending| < WAKE_CAP {
      EnqueueQueueOk(c, key, Coordinator.Wake(project, 0, if key in w.c.pending then w.c.pending[key].kind else Message), w.worker);
    }
  }

  lemma RequeueQueueOk(w: World)
    requires QueueOk(w.c, w.worker) && w.worker.Backoff?
    ensures QueueOk(w.c.RequeueRetry(w.worker.job), Idle)
  {
    var job := w.worker.job;
    if !job.full && job.key !in w.c.blocked && job.key !in w.c.pending {
      EnqueueQueueOk(w.c, job.key, Coordinator.Wake(job.grant, 0, job.kind), Idle);
    }
  }

  lemma StepKeepsQueue(w: World, step: Step)
    requires QueueOk(w.c, w.worker) && Possible(w, step)
    ensures QueueOk(Next(w, step).c, Next(w, step).worker)
  {
    match step
    case Wake(domain, wake) => WakeQueueOk(w, JobKey(domain, wake.grant), wake);
    case Take => TakeQueueOk(w.c);
    case HandlerFailed => RemoveShrinks(w.c.pending, w.worker.callback.value.key);
    case Drain(project) => DrainQueueOk(w, JobKey(OwnerProject, project), project);
    case Requeue => RequeueQueueOk(w);
    case _ =>
  }

  lemma DomainRecovered(d: Domain, id: string)
    requires ValidId(id)
    ensures DomainOf(JobKey(d, id), id) == d
  {
    KeysSeparateDomains(d, id, Project, id);
    KeysSeparateDomains(d, id, OwnerProject, id);
  }

  predicate PendingKeysOk(c: Coord) {
    forall k :: k in c.pending ==> KeyOk(k, c.pending[k])
  }

  lemma WakeKeysOk(c: Coord, domain: Domain, wake: Coordinator.Wake)
    requires PendingKeysOk(c) && ValidId(wake.grant)
    ensures PendingKeysOk(c.QueueWake(domain, wake))
  {
    var key := JobKey(domain, wake.grant);
    DomainRecovered(domain, wake.grant);
    assert KeyOk(key, wake);
    assert KeyOk(key, c.Merged(key, wake));
  }

  lemma TakeKeysOk(c: Coord)
    requires PendingKeysOk(c)
    ensures PendingKeysOk(c.NextJob().0)
    ensures c.NextJob().1.Some? && !c.NextJob().1.value.full ==> JobOk(c.NextJob().1.value)
  {
    var rest := DropStale(c.order, c.pending);
    if rest != [] {
      assert KeyOk(rest[0], c.pending[rest[0]]);
    }
  }

  lemma StepKeepsKeys(w: World, step: Step)
    requires KeysOk(w.c, w.worker) && Possible(w, step)
    ensures KeysOk(Next(w, step).c, Next(w, step).worker)
  {
    match step
    case Wake(domain, wake) => WakeKeysOk(w.c, domain, wake);
    case Take => TakeKeysOk(w.c);
    case Drain(project) => DomainRecovered(OwnerProject, project);
    case Requeue => if JobOk(w.worker.job) { DomainRecovered(w.worker.job.domain, w.worker.job.grant); }
    case _ =>
  }

  // ---------------------------------------------------------------- no accepted wake is lost

  /** A session belongs to the connection it was started on, and while there is no
      session a full rescan is due. */
  predicate SessionOk(w: World) {
    && (w.c.connected <==> w.link.Up?)
    && (w.c.session.None? ==> w.c.full)
    && (w.c.session.Some? ==>
          && (w.link.Up? || w.link.Ending?)
          && w.c.connection == w.c.generation && w.c.session.value < w.c.nextSession)
    && (!w.worker.Idle? ==>
          && w.worker.job.session < w.c.nextSession
          && (w.c.session == Some(w.worker.job.session) ==> w.c.connection == w.worker.job.connection))
  }

  predicate RevisionsOk(w: World) {
    && w.c.fullRevision <= w.c.revision
    && (forall k :: k in w.c.grantRevision ==> w.c.grantRevision[k] <= w.c.revision)
    && (forall k :: k in w.ledger.wakes ==> w.ledger.wakes[k] <= w.c.revision)
    && (!w.worker.Idle? ==>
          && w.worker.started <= w.c.revision && w.worker.fullAtStart <= w.c.revision
          && (!Fresh(w) ==> w.c.full))
  }

  /** A callback's snapshot either includes the newest wake of its key, or is
      recognisably older than it. */
  predicate SnapshotOk(w: World) {
    w.worker.Busy? && w.worker.callback.Some? ==>
      var snap := w.worker.callback.value;
      && snap.grantRevision <= snap.at <= w.c.revision
      && (w.c.session == Some(w.worker.job.session) && snap.key in w.ledger.wakes ==>
            w.ledger.wakes[snap.key] <= snap.at || w.c.GrantRevision(snap.key) > snap.at)
  }

  predicate BlockedOk(w: World) {
    w.c.session.Some? ==> forall k :: k in w.c.blocked && k in w.ledger.wakes ==>
      k in w.ledger.blockedAt && w.ledger.wakes[k] <= w.ledger.blockedAt[k]
  }

  predicate Serving(w: World, key: string) {
    && !w.worker.Idle? && (w.worker.job.full || w.worker.job.key == key)
    && w.c.session == Some(w.worker.job.session)
    && key in w.ledger.wakes && w.ledger.wakes[key] <= w.worker.started
  }

  predicate Settled(l: Ledger, key: string)
    requires key in l.wakes
  {
    l.wakes[key] <= l.settledFull || (key in l.settled && l.wakes[key] <= l.settled[key])
  }

  /** Where the newest wake of a key can be. */
  predicate Covered(w: World, key: string)
    requires key in w.ledger.wakes
  {
    || key in w.c.pending
    || w.c.full
    || Serving(w, key)
    || (key in w.c.blocked && key in w.ledger.blockedAt && w.ledger.wakes[key] <= w.ledger.blockedAt[key])
    || (key !in w.c.blocked && Settled(w.ledger, key))
  }

  predicate WakesCovered(w: World) {
    forall k :: k in w.ledger.wakes ==> Covered(w, k)
  }

  predicate WorkOk(w: World) {
    SessionOk(w) && RevisionsOk(w) && SnapshotOk(w) && BlockedOk(w) && WakesCovered(w)
  }

  lemma WakeKeepsWork(w: World, key: string, wake: Coordinator.Wake)
    requires WorkOk(w) && w.c.session.Some?
    ensures WorkOk(NextQueue(w, key, wake))
  {
  }

  lemma KickKeepsWork(w: World, step: Step)
    requires WorkOk(w) && step.Kick?
    ensures WorkOk(Next(w, step))
  {
  }

  lemma LinkKeepsWork(w: World, step: Step)
    requires WorkOk(w) && Possible(w, step)
    requires step.MalformedWake? || step.Auth? || step.Promote? || step.GoLive? || step.LinkLost? || step.Teardown?
    ensures WorkOk(Next(w, step))
  {
  }

  lemma TakeKeepsWork(w: World)
    requires WorkOk(w) && w.worker.Idle?
    ensures WorkOk(NextTake(w))
  {
  }

  lemma HandlerKeepsWork(w: World, step: Step)
    requires WorkOk(w) && Possible(w, step) && (step.Callback? || step.HandlerFailed?)
    ensures WorkOk(Next(w, step))
  {
  }

  /** More pending work, or an honest reset, can only improve coverage. */
  lemma MorePendingKeepsWork(w: World, w': World)
    requires WorkOk(w)
    requires w'.c == w.c.(pending := w'.c.pending, order := w'.c.order) && w.c.pending.Keys <= w'.c.pending.Keys
    requires w'.link == w.link && w'.worker == w.worker && w'.ledger == w.ledger
    ensures WorkOk(w')
  {
    forall k | k in w'.ledger.wakes ensures Covered(w', k) {
      assert Covered(w, k);
      assert Serving(w, k) ==> Serving(w', k);
    }
  }

  lemma ResetKeepsWork(w: World, w': World)
    requires WorkOk(w)
    requires w'.c == w.c.Reset()
    requires w'.link == w.link && w'.worker == w.worker && w'.ledger == w.ledger.(asked := w'.ledger.asked)
    ensures WorkOk(w')
  {
  }

  lemma DrainKeepsWork(w: World, key: string, project: string)
    requires WorkOk(w) && w.worker.Busy?
    ensures WorkOk(NextDrain(w, key, project))
  {
    var w' := NextDrain(w, key, project);
    if w.c.session == Some(w.worker.job.session) && w.c.connection == w.worker.job.connection && key !in w.c.blocked {
      if |w.c.pending - {key}| >= WAKE_CAP {
        ResetKeepsWork(w, w');
      } else {
        assert w'.c.pending.Keys == w.c.pending.Keys + {key};
        MorePendingKeepsWork(w, w');
      }
    }
  }

  lemma FinishKeepsWork(w: World, step: Step)
    requires WorkOk(w) && Possible(w, step) && (step.Finish? || step.ContextDone? || step.Requeue?)
    ensures WorkOk(Next(w, step))
  {
  }

  lemma StepKeepsWork(w: World, step: Step)
    requires WorkOk(w) && Possible(w, step)
    ensures WorkOk(Next(w, step))
  {
    match step
    case Wake(domain, wake) => if w.c.Accepts(domain) { WakeKeepsWork(w, JobKey(domain, wake.grant), wake); }
    case Kick(_, _, _) => KickKeepsWork(w, step);
    case Take => TakeKeepsWork(w);
    case Callback(_) => HandlerKeepsWork(w, step);
    case HandlerFailed => HandlerKeepsWork(w, step);
    case Drain(project) => DrainKeepsWork(w, JobKey(OwnerProject, project), project);
    case Finish(_) => FinishKeepsWork(w, step);
    case ContextDone => FinishKeepsWork(w, step);
    case Requeue => FinishKeepsWork(w, step);
    case _ => LinkKeepsWork(w, step);
  }

  // ---------------------------------------------------------------- coalescing

  predicate Serves(entry: Coordinator.Wake, wake: Coordinator.Wake) {
    wake.generation <= entry.generation && (wake.kind.State? ==> entry.kind.State?)
  }

  predicate AskedOf(key: string, wake: Coordinator.Wake) {
    KeyOk(key, wake) && (DomainOf(key, wake.grant) != Pair ==> wake.generation == 0)
  }

  /** Every wake merged into a queue entry is served by it: the entry has at least
      its generation, and a state wake makes it a state entry. */
  predicate AskedOk(c: Coord, l: Ledger) {
    forall k :: k in l.asked ==>
      k in c.pending && forall i :: 0 <= i < |l.asked[k]| ==> AskedOf(k, l.asked[k][i]) && Serves(c.pending[k], l.asked[k][i])
  }

  lemma WakeKeepsAsked(w: World, key: string, wake: Coordinator.Wake)
    requires AskedOk(w.c, w.ledger) && AskedOf(key, wake)
    ensures AskedOk(NextQueue(w, key, wake).c, NextQueue(w, key, wake).ledger)
  {
    var w' := NextQueue(w, key, wake);
    if !w.c.Overflows(key) {
      var merged := w.c.Merged(key, wake);
      assert Serves(merged, wake);
      forall i | 0 <= i < |w'.ledger.asked[key]|
        ensures AskedOf(key, w'.ledger.asked[key][i]) && Serves(merged, w'.ledger.asked[key][i])
      {
        if i < |Asked(w.ledger, key)| {
          assert Serves(w.c.pending[key], Asked(w.ledger, key)[i]);
        }
      }
    }
  }

  lemma DrainKeepsAsked(w: World, project: string)
    requires AskedOk(w.c, w.ledger) && w.worker.Busy? && ValidId(project)
    ensures
      var w' := NextDrain(w, JobKey(OwnerProject, project), project);
      AskedOk(w'.c, w'.ledger)
  {
    var key := JobKey(OwnerProject, project);
    var w' := NextDrain(w, key, project);
    if key in w.ledger.asked && w'.c.session == w.c.session && key !in w.c.blocked {
      forall i | 0 <= i < |w.ledger.asked[key]| ensures w.ledger.asked[key][i].generation == 0 {
        var wake := w.ledger.asked[key][i];
        assert AskedOf(key, wake);
        KeysSeparateDomains(OwnerProject, project, DomainOf(key, wake.grant), wake.grant);
      }
    }
  }

  lemma StepKeepsAsked(w: World, step: Step)
    requires AskedOk(w.c, w.ledger) && SessionOk(w) && Possible(w, step)
    ensures AskedOk(Next(w, step).c, Next(w, step).ledger)
  {
    match step
    case Wake(domain, wake) =>
      DomainRecovered(domain, wake.grant);
      if w.c.Accepts(domain) { WakeKeepsAsked(w, JobKey(domain, wake.grant), wake); }
    case Drain(project) => DrainKeepsAsked(w, project);
    case Kick(_, _, _) =>
    case Take =>
    case HandlerFailed =>
    case Requeue =>
    case _ =>
  }

  // ---------------------------------------------------------------- first come, first served

  /** The keys waiting ahead of `key`. */
  function Ahead(waiting: seq<string>, key: string): set<string> {
    if waiting == [] || waiting[0] == key then {} else {waiting[0]} + Ahead(waiting[1..], key)
  }

  lemma {:induction false} AheadAppend(waiting: seq<string>, k: string, key: string)
    requires key in waiting
    ensures Ahead(waiting + [k], key) == Ahead(waiting, key)
  {
    if waiting[0] != key {
      assert (waiting + [k])[1..] == waiting[1..] + [k];
      AheadAppend(waiting[1..], k, key);
    }
  }

  lemma {:induction false} AheadRemove(order: seq<string>, pending: map<string, Coordinator.Wake>, k: string, key: string)
    requires k != key
    ensures Ahead(Live(order, pending - {k}), key) <= Ahead(Live(order, pending), key)
  {
    if order != [] {
      AheadRemove(order[1..], pending, k, key);
    }
  }

  lemma {:induction false} LiveOfLive(order: seq<string>, pending: map<string, Coordinator.Wake>, k: string, wake: Coordinator.Wake)
    requires k !in pending
    ensures Live(Live(order, pending) + [k], pending[k := wake]) == Live(order, pending) + [k]
  {
    if order == [] {
      assert [k][1..] == [];
    } else {
      LiveOfLive(order[1..], pending, k, wake);
      if order[0] in pending {
        var rest := Live(order[1..], pending);
        assert ([order[0]] + rest + [k])[1..] == rest + [k];
      }
    }
  }

  lemma {:induction false} LiveSameKeys(order: seq<string>, p: map<string, Coordinator.Wake>, q: map<string, Coordinator.Wake>)
    requires p.Keys == q.Keys
    ensures Live(order, p) == Live(order, q)
  {
    if order != [] {
      assert order[0] in p <==> order[0] in q;
      LiveSameKeys(order[1..], p, q);
    }
  }

  /** New work joins at the back. */
  lemma EnqueueJoinsAtBack(c: Coord, k: string, wake: Coordinator.Wake)
    ensures c.Enqueue(k, wake).Waiting() == if k in c.pending then c.Waiting() else c.Waiting() + [k]
  {
    if k in c.pending {
      assert c.pending[k := wake].Keys == c.pending.Keys;
      LiveSameKeys(c.order, c.pending, c.pending[k := wake]);
    } else {
      LiveOfLive(c.order, c.pending, k, wake);
    }
  }

  /** A targeted job is always the one that has waited longest. */
  lemma TakeServesTheFront(c: Coord)
    requires NoDuplicates(c.order)
    ensures
      var (c', job) := c.NextJob();
      && (job.Some? && !job.value.full ==>
            c.Waiting() != [] && job.value.key == c.Waiting()[0] && c'.Waiting() == c.Waiting()[1..])
      && (job.None? || job.value.full ==> c'.Waiting() == c.Waiting())
  {
    var rest := DropStale(c.order, c.pending);
    DropStaleSuffix(c.order, c.pending);
    if c.Current() && !c.full && rest != [] {
      assert Live(rest, c.pending) == [rest[0]] + Live(rest[1..], c.pending);
      LiveWithout(rest[1..], c.pending, rest[0]);
    }
  }

  lemma {:induction false} LiveWithout(order: seq<string>, pending: map<string, Coordinator.Wake>, k: string)
    requires k !in order
    ensures Live(order, pending - {k}) == Live(order, pending)
  {
    if order != [] {
      LiveWithout(order[1..], pending, k);
    }
  }

  lemma AheadOfTail(waiting: seq<string>, key: string)
    requires waiting != [] && key in waiting[1..] && NoDuplicates(waiting)
    ensures Ahead(waiting[1..], key) <= Ahead(waiting, key) && waiting[0] in Ahead(waiting, key)
    ensures waiting[0] !in Ahead(waiting[1..], key)
  {
    AheadAmong(waiting[1..], key);
  }

  lemma {:induction false} AheadAmong(waiting: seq<string>, key: string)
    ensures forall k :: k in Ahead(waiting, key) ==> k in waiting
  {
    if waiting != [] {
      AheadAmong(waiting[1..], key);
    }
  }

  predicate Drains(step: Step, key: string) {
    step.Drain? && JobKey(OwnerProject, step.project) == key
  }

  lemma DrainKeepsAhead(w: World, k: string, project: string, key: string)
    requires QueueOk(w.c, w.worker) && w.worker.Busy? && k != key
    requires key in w.c.pending && key in NextDrain(w, k, project).c.pending
    ensures Ahead(NextDrain(w, k, project).c.Waiting(), key) <= Ahead(w.c.Waiting(), key)
  {
    var c' := NextDrain(w, k, project).c;
    if c' != w.c {
      var c := w.c.(pending := w.c.pending - {k});
      AheadRemove(w.c.order, w.c.pending, k, key);
      EnqueueJoinsAtBack(c, k, c'.pending[k]);
      LiveIn(c.order, c.pending, key);
      AheadAppend(c.Waiting(), k, key);
    }
  }

  lemma EnqueueKeepsAhead(c: Coord, k: string, wake: Coordinator.Wake, key: string)
    requires key in c.pending && key in c.order
    ensures Ahead(c.Enqueue(k, wake).Waiting(), key) == Ahead(c.Waiting(), key)
  {
    EnqueueJoinsAtBack(c, k, wake);
    LiveIn(c.order, c.pending, key);
    AheadAppend(c.Waiting(), k, key);
  }

  /** The key of the targeted job a step starts, if any. */
  function Starts(w: World, step: Step): seq<string>
    requires Possible(w, step)
  {
    if step.Take? then
      var job := w.c.NextJob().1;
      if job.Some? && !job.value.full then [job.value.key] else []
    else []
  }

  lemma TakeKeepsAhead(w: World, key: string)
    requires QueueOk(w.c, w.worker) && w.worker.Idle? && key in w.c.pending && key in NextTake(w).c.pending
    ensures Ahead(NextTake(w).c.Waiting(), key) <= Ahead(w.c.Waiting(), key)
    ensures forall k :: k in Starts(w, Take) ==>
      k in Ahead(w.c.Waiting(), key) && k !in Ahead(NextTake(w).c.Waiting(), key)
  {
    TakeServesTheFront(w.c);
    LiveNoDuplicates(w.c.order, w.c.pending);
    TakeQueueOk(w.c);
    LiveIn(NextTake(w).c.order, NextTake(w).c.pending, key);
    if Starts(w, Take) != [] {
      AheadOfTail(w.c.Waiting(), key);
    }
  }

  lemma WakeKeepsAhead(c: Coord, k: string, wake: Coordinator.Wake, key: string)
    requires key in c.pending && key in c.order
    ensures !c.Overflows(k) ==> Ahead(c.QueueKey(k, wake).Waiting(), key) == Ahead(c.Waiting(), key)
  {
    EnqueueKeepsAhead(c, k, c.Merged(k, wake), key);
  }

  /** While a key waits, no step puts work ahead of it, except a drain
      continuation that sends the key itself to the back. */
  lemma StepNeverOvertakes(w: World, step: Step, key: string)
    requires QueueOk(w.c, w.worker) && Possible(w, step) && !Drains(step, key)
    requires key in w.c.pending && key in Next(w, step).c.pending
    ensures Ahead(Next(w, step).c.Waiting(), key) <= Ahead(w.c.Waiting(), key)
    ensures forall k :: k in Starts(w, step) ==>
      k in Ahead(w.c.Waiting(), key) && k !in Ahead(Next(w, step).c.Waiting(), key)
  {
    match step
    case Wake(domain, wake) => WakeNeverOvertakes(w, domain, wake, key);
    case Take => TakeKeepsAhead(w, key);
    case Drain(project) => DrainNeverOvertakes(w, project, key);
    case _ => OtherNeverOvertakes(w, step, key);
  }

  lemma WakeNeverOvertakes(w: World, domain: Domain, wake: Coordinator.Wake, key: string)
    requires QueueOk(w.c, w.worker) && Possible(w, Step.Wake(domain, wake))
    requires key in w.c.pending && key in Next(w, Step.Wake(domain, wake)).c.pending
    ensures Ahead(Next(w, Step.Wake(domain, wake)).c.Waiting(), key) <= Ahead(w.c.Waiting(), key)
  {
    WakeKeepsAhead(w.c, JobKey(domain, wake.grant), wake, key);
  }

  lemma DrainNeverOvertakes(w: World, project: string, key: string)
    requires QueueOk(w.c, w.worker) && Possible(w, Drain(project)) && !Drains(Drain(project), key)
    requires key in w.c.pending && key in Next(w, Drain(project)).c.pending
    ensures Ahead(Next(w, Drain(project)).c.Waiting(), key) <= Ahead(w.c.Waiting(), key)
  {
    DrainKeepsAhead(w, JobKey(OwnerProject, project), project, key);
  }

  lemma OtherNeverOvertakes(w: World, step: Step, key: string)
    requires QueueOk(w.c, w.worker) && Possible(w, step) && !step.Wake? && !step.Take? && !step.Drain?
    requires key in w.c.pending && key in Next(w, step).c.pending
    ensures Ahead(Next(w, step).c.Waiting(), key) <= Ahead(w.c.Waiting(), key)
  {
    match step
    case HandlerFailed =>
      if w.worker.callback.value.key != key { AheadRemove(w.c.order, w.c.pending, w.worker.callback.value.key, key); }
    case Requeue => EnqueueKeepsAhead(w.c, w.worker.job.key, Coordinator.Wake(w.worker.job.grant, 0, w.worker.job.kind), key);
    case _ =>
  }

  predicate WaitsThroughout(w: World, steps: seq<Step>, key: string)
    requires PossibleRun(w, steps)
    decreases |steps|
  {
    && key in w.c.pending
    && (steps != [] ==> !Drains(steps[0], key) && WaitsThroughout(Next(w, steps[0]), steps[1..], key))
  }

  function Started(w: World, steps: seq<Step>): seq<string>
    requires PossibleRun(w, steps)
    decreases |steps|
  {
    if steps == [] then [] else Starts(w, steps[0]) + Started(Next(w, steps[0]), steps[1..])
  }

  // ---------------------------------------------------------------- theorems over all runs

  predicate Inv(w: World) {
    QueueOk(w.c, w.worker) && KeysOk(w.c, w.worker) && WorkOk(w) && AskedOk(w.c, w.ledger)
  }

  lemma StepKeepsInv(w: World, step: Step)
    requires Inv(w) && Possible(w, step)
    ensures Inv(Next(w, step))
  {
    StepKeepsQueue(w, step);
    StepKeepsKeys(w, step);
    StepKeepsWork(w, step);
    StepKeepsAsked(w, step);
  }

  lemma {:induction false} RunKeepsInv(w: World, steps: seq<Step>)
    requires Inv(w) && PossibleRun(w, steps)
    ensures Inv(Run(w, steps))
    decreases |steps|
  {
    if steps != [] {
      StepKeepsInv(w, steps[0]);
      RunKeepsInv(Next(w, steps[0]), steps[1..]);
    }
  }

  lemma StartInv(pairs: bool, projects: bool, installation: string)
    ensures Inv(Start(pairs, projects, installation))
  {
  }

  /** No accepted wake is lost. In every interleaving, the newest wake of a key is
      still queued, or due in a full rescan, or in the hands of a job started after
      it, or was blocked by a handler whose snapshot included it, or was served by a
      job started after it that finished without asking for a retry. */
  lemma NoAcceptedWakeIsLost(pairs: bool, projects: bool, installation: string, steps: seq<Step>, key: string)
    requires PossibleRun(Start(pairs, projects, installation), steps)
    requires key in Run(Start(pairs, projects, installation), steps).ledger.wakes
    ensures Covered(Run(Start(pairs, projects, installation), steps), key)
  {
    StartInv(pairs, projects, installation);
    RunKeepsInv(Start(pairs, projects, installation), steps);
  }

  /** In every reachable state the queue has no duplicates, holds every pending key,
      never holds blocked work, never exceeds the cap plus one, leads each key back to
      its own domain, and serves every wake merged into it; and whenever there is no
      session, a full rescan is due. */
  lemma QueueStaysWellFormed(pairs: bool, projects: bool, installation: string, steps: seq<Step>)
    requires PossibleRun(Start(pairs, projects, installation), steps)
    ensures
      var w := Run(Start(pairs, projects, installation), steps);
      && NoDuplicates(w.c.order) && (forall k :: k in w.c.pending ==> k in w.c.order)
      && w.c.pending.Keys !! w.c.blocked
      && |w.c.pending| <= 257
      && PendingKeysOk(w.c)
      && AskedOk(w.c, w.ledger)
      && (w.c.session.None? ==> w.c.full)
  {
    StartInv(pairs, projects, installation);
    RunKeepsInv(Start(pairs, projects, installation), steps);
  }

  /** Waiting is first come, first served: as long as a key waits, every targeted job
      started is for a key that was ahead of it to begin with, and each of those is
      started at most once, so the wait is bounded by the queue it met. */
  lemma {:induction false} WaitingIsBounded(w: World, steps: seq<Step>, key: string)
    requires Inv(w) && PossibleRun(w, steps) && WaitsThroughout(w, steps, key)
    ensures forall k :: k in Started(w, steps) ==> k in Ahead(w.c.Waiting(), key)
    ensures NoDuplicates(Started(w, steps))
    decreases |steps|
  {
    if steps != [] {
      StepKeepsInv(w, steps[0]);
      StepNeverOvertakes(w, steps[0], key);
      WaitingIsBounded(Next(w, steps[0]), steps[1..], key);
      JoinStarted(Starts(w, steps[0]), Started(Next(w, steps[0]), steps[1..]),
                  Ahead(w.c.Waiting(), key), Ahead(Next(w, steps[0]).c.Waiting(), key));
    }
  }

  /** At most one job started by this step, then those that were still ahead after it. */
  lemma JoinStarted(first: seq<string>, later: seq<string>, before: set<string>, after: set<string>)
    requires |first| <= 1 && NoDuplicates(later) && after <= before
    requires forall k :: k in first ==> k in before && k !in after
    requires forall k :: k in later ==> k in after
    ensures NoDuplicates(first + later) && forall k :: k in first + later ==> k in before
  {
    if first != [] { assert first[0] in first && first[0] !in later; }
  }
}
