/** What the sharing coordinator gets done: exactly when a wake, a failure or a
    drain takes effect, and that an undisturbed worker empties the queue in order
    until every accepted wake is served. */
module CoordinatorProgress {
  import opened Bytes
  import opened Coordinator
  import opened CoordinatorRuns
  import Lru

  // ---------------------------------------------------------------- when a call takes effect

  predicate Overflowed(c: Coord, c': Coord) {
    c' == c.(session := None, pending := map[], order := [], full := true)
  }

  /** A wake is ignored exactly when there is no current session or its domain is
      off; it overflows exactly when its key is new and 256 keys are pending; else
      its key is pending, unblocked, at the back if new, with the larger generation
      and state if either asks for state, and its revision is the newest. */
  lemma WakeTakesEffect(c: Coord, domain: Domain, wake: Coordinator.Wake)
    ensures
      var key := JobKey(domain, wake.grant);
      var c' := c.QueueWake(domain, wake);
      var on := match domain case Pair => c.pairs case Project => c.projects case OwnerProject => c.installation != "";
      if !(c.session.Some? && c.connected && c.connection == c.generation && on) then c' == c
      else if key !in c.pending && |c.pending| >= 256 then Overflowed(c, c')
      else
        && c' == c.(pending := c'.pending, order := c'.order, blocked := c.blocked - {key},
        revision := c.revision + 1, grantRevision := c.grantRevision[key := c.revision + 1])
        && key in c'.pending && c'.pending == c.pending[key := c'.pending[key]]
        && c'.pending[key].generation ==
           (if key in c.pending then Max(c.pending[key].generation, wake.generation) else wake.generation)
        && (c'.pending[key].kind.State? <==> wake.kind.State? || (key in c.pending && c.pending[key].kind.State?))
        && c'.Waiting() == if key in c.pending then c.Waiting() else c.Waiting() + [key]
  {
    var key := JobKey(domain, wake.grant);
    if !c.Overflows(key) { QueueKeyJoins(c, key, wake); }
  }

  lemma QueueKeyJoins(c: Coord, key: string, wake: Coordinator.Wake)
    requires !c.Overflows(key)
    ensures c.QueueKey(key, wake).Waiting() == if key in c.pending then c.Waiting() else c.Waiting() + [key]
  {
    EnqueueJoinsAtBack(c, key, c.Merged(key, wake));
  }

  /** More of an inbox remains: the key goes to the very back, keeping a state
      request, exactly when the job is still the session's and the key is not
      blocked; with 256 other keys pending the queue overflows instead. */
  lemma DrainTakesEffect(c: Coord, job: Job, project: string)
    ensures
      var key := JobKey(OwnerProject, project);
      var c' := c.RequeueDrain(job, project);
      if c.session != Some(job.session) || c.connection != job.connection || key in c.blocked then c' == c
      else if |c.pending - {key}| >= 256 then Overflowed(c, c')
      else
        && c' == c.(pending := c'.pending, order := c'.order)
        && c'.pending == c.pending[key := Coordinator.Wake(project, 0, if key in c.pending then c.pending[key].kind else Message)]
        && c'.Waiting() == Lru.Without(c.Waiting(), key) + [key]
  {
    var key := JobKey(OwnerProject, project);
    if c.session == Some(job.session) && c.connection == job.connection && key !in c.blocked && |c.pending - {key}| < 256 {
      var wake := Coordinator.Wake(project, 0, if key in c.pending then c.pending[key].kind else Message);
      DrainJoins(c, key, wake);
    }
  }

  lemma DrainJoins(c: Coord, key: string, wake: Coordinator.Wake)
    ensures
      var c' := c.(pending := c.pending - {key}).Enqueue(key, wake);
      c'.pending == c.pending[key := wake] && c'.Waiting() == Lru.Without(c.Waiting(), key) + [key]
  {
    EnqueueJoinsAtBack(c.(pending := c.pending - {key}), key, wake);
    LiveRemoved(c.order, c.pending, key);
  }

  /** A job to be retried goes back, with its own grant and kind, exactly when its
      session and connection are still the current ones: a rescan becomes due again,
      a key joins the back unless it is blocked or already asked for anew. */
  lemma RetryTakesEffect(c: Coord, job: Job)
    ensures
      var c' := c.RequeueRetry(job);
      if c.session != Some(job.session) || c.connection != job.connection then c' == c
      else if job.full then c' == c.(full := true)
      else if job.key in c.blocked || job.key in c.pending then c' == c
      else
        && c' == c.(pending := c.pending[job.key := Coordinator.Wake(job.grant, 0, job.kind)], order := c'.order)
        && c'.Waiting() == c.Waiting() + [job.key]
  {
    EnqueueJoinsAtBack(c, job.key, Coordinator.Wake(job.grant, 0, job.kind));
  }

  lemma {:induction false} LiveRemoved(order: seq<string>, pending: map<string, Coordinator.Wake>, key: string)
    ensures Live(order, pending - {key}) == Lru.Without(Live(order, pending), key)
  {
    if order != [] {
      LiveRemoved(order[1..], pending, key);
    }
  }

  // ---------------------------------------------------------------- when a failure blocks

  /** A callback's snapshot tells a later kick or wake from an earlier one. */
  predicate SnapshotTells(w: World) {
    && (forall k :: k in w.c.grantRevision ==> k in w.ledger.wakes && w.c.grantRevision[k] <= w.ledger.wakes[k])
    && (w.worker.Busy? && w.worker.callback.Some? ==>
          var snap := w.worker.callback.value;
          && snap.fullRevision <= snap.at
          && (w.c.fullRevision == snap.fullRevision || w.c.fullRevision > snap.at)
          && (w.c.session == Some(w.worker.job.session) ==>
                w.c.GrantRevision(snap.key) == snap.grantRevision || w.c.GrantRevision(snap.key) > snap.at))
  }

  lemma WakeKeepsSnapshot(w: World, key: string, wake: Coordinator.Wake)
    requires SnapshotTells(w) && WorkOk(w)
    ensures SnapshotTells(NextQueue(w, key, wake))
  {
  }

  lemma DrainKeepsSnapshot(w: World, key: string, project: string)
    requires SnapshotTells(w) && w.worker.Busy?
    ensures SnapshotTells(NextDrain(w, key, project))
  {
  }

  lemma WorkerKeepsSnapshot(w: World, step: Step)
    requires SnapshotTells(w) && WorkOk(w) && Possible(w, step)
    requires step.Take? || step.Callback? || step.HandlerFailed? || step.Finish? || step.ContextDone? || step.Requeue?
    ensures SnapshotTells(Next(w, step))
  {
  }

  lemma StepKeepsSnapshot(w: World, step: Step)
    requires SnapshotTells(w) && WorkOk(w) && Possible(w, step)
    ensures SnapshotTells(Next(w, step))
  {
    match step
    case Wake(domain, wake) => if w.c.Accepts(domain) { WakeKeepsSnapshot(w, JobKey(domain, wake.grant), wake); }
    case Drain(project) => DrainKeepsSnapshot(w, JobKey(OwnerProject, project), project);
    case Kick(_, _, _) =>
    case MalformedWake =>
    case Auth =>
    case Promote =>
    case GoLive =>
    case LinkLost =>
    case Teardown =>
    case _ => WorkerKeepsSnapshot(w, step);
  }

  lemma {:induction false} RunKeepsSnapshot(w: World, steps: seq<Step>)
    requires SnapshotTells(w) && Inv(w) && PossibleRun(w, steps)
    ensures SnapshotTells(Run(w, steps)) && Inv(Run(w, steps))
    decreases |steps|
  {
    if steps != [] {
      StepKeepsInv(w, steps[0]);
      StepKeepsSnapshot(w, steps[0]);
      RunKeepsSnapshot(Next(w, steps[0]), steps[1..]);
    }
  }

  /** A handler that fails blocks its key and drops its pending entry exactly when
      nothing new was asked for since its callback began: same session, no kick or
      session start, no accepted wake of that key. Otherwise it changes nothing. */
  lemma FailureBlocksUnlessAskedAgain(pairs: bool, projects: bool, installation: string, steps: seq<Step>)
    requires PossibleRun(Start(pairs, projects, installation), steps)
    requires Possible(Run(Start(pairs, projects, installation), steps), HandlerFailed)
    ensures
      var w := Run(Start(pairs, projects, installation), steps);
      var snap := w.worker.callback.value;
      var quiet :=
        && w.c.session == Some(w.worker.job.session) && w.c.fullRevision <= snap.at
        && (snap.key in w.ledger.wakes ==> w.ledger.wakes[snap.key] <= snap.at);
      Next(w, HandlerFailed).c ==
        if quiet then w.c.(blocked := w.c.blocked + {snap.key}, pending := w.c.pending - {snap.key}) else w.c
  {
    StartInv(pairs, projects, installation);
    RunKeepsSnapshot(Start(pairs, projects, installation), steps);
  }

  // ---------------------------------------------------------------- an undisturbed worker

  /** n jobs, each taken and finished without asking for a retry. */
  function Rounds(n: nat): seq<Step> {
    if n == 0 then [] else [Take, Finish(false)] + Rounds(n - 1)
  }

  predicate Ready(w: World) {
    Inv(w) && w.worker.Idle? && w.c.Current()
  }

  function Due(c: Coord): nat {
    |c.pending| + if c.full then 1 else 0
  }

  lemma TakeIsDue(c: Coord)
    requires QueueOk(c, Idle) && c.Current() && Due(c) > 0
    ensures
      var (c', job) := c.NextJob();
      && job.Some? && c'.Current() && Due(c') == Due(c) - 1 && c'.blocked == c.blocked
      && (if job.value.full then [] else [job.value.key]) + c'.Waiting() == c.Waiting()
  {
    NextJobHandsOut(c);
    TakeServesTheFront(c);
    if !c.full {
      assert c.pending.Keys != {};
      var k :| k in c.pending;
      assert k in c.order;
      RemoveShrinks(c.pending, c.NextJob().1.value.key);
    }
  }

  lemma OneRound(w: World)
    requires Ready(w) && Due(w.c) > 0
    ensures Possible(w, Take) && Possible(Next(w, Take), Finish(false))
    ensures
      var w' := Next(Next(w, Take), Finish(false));
      && Ready(w') && Due(w'.c) == Due(w.c) - 1
      && w'.ledger.wakes == w.ledger.wakes && w'.c.blocked == w.c.blocked
      && Starts(w, Take) + w'.c.Waiting() == w.c.Waiting()
  {
    TakeIsDue(w.c);
    StepKeepsInv(w, Take);
    StepKeepsInv(Next(w, Take), Finish(false));
  }

  lemma StepSplits(w: World, step: Step, rest: seq<Step>)
    requires Possible(w, step) && PossibleRun(Next(w, step), rest)
    ensures PossibleRun(w, [step] + rest) && Run(w, [step] + rest) == Run(Next(w, step), rest)
    ensures Started(w, [step] + rest) == Starts(w, step) + Started(Next(w, step), rest)
  {
    assert ([step] + rest)[1..] == rest;
  }

  lemma RoundSplits(w: World, rest: seq<Step>)
    requires Possible(w, Take) && Possible(Next(w, Take), Finish(false))
    requires PossibleRun(Next(Next(w, Take), Finish(false)), rest)
    ensures
      var steps := [Take, Finish(false)] + rest;
      var w' := Next(Next(w, Take), Finish(false));
      && PossibleRun(w, steps) && Run(w, steps) == Run(w', rest)
      && Started(w, steps) == Starts(w, Take) + Started(w', rest)
  {
    StepSplits(Next(w, Take), Finish(false), rest);
    StepSplits(w, Take, [Finish(false)] + rest);
    assert [Take] + ([Finish(false)] + rest) == [Take, Finish(false)] + rest;
  }

  /** What a run of rounds leaves behind. */
  predicate Emptied(w: World, rounds: seq<Step>, w': World)
    requires PossibleRun(w, rounds)
  {
    && Due(w'.c) == 0 && w'.ledger.wakes == w.ledger.wakes && w'.c.blocked == w.c.blocked
    && Started(w, rounds) == w.c.Waiting()
  }

  lemma {:induction false} RoundsServeAll(w: World)
    requires Ready(w)
    ensures PossibleRun(w, Rounds(Due(w.c)))
    ensures Ready(Run(w, Rounds(Due(w.c))))
    ensures Emptied(w, Rounds(Due(w.c)), Run(w, Rounds(Due(w.c))))
    decreases Due(w.c), 1
  {
    if Due(w.c) == 0 {
      NothingWaits(w.c);
    } else {
      OneRound(w);
      OneMoreRound(w, Due(w.c) - 1);
    }
  }

  lemma {:induction false} OneMoreRound(w: World, n: nat)
    requires Possible(w, Take) && Possible(Next(w, Take), Finish(false))
    requires
      var w' := Next(Next(w, Take), Finish(false));
      && Ready(w') && Due(w'.c) == n < Due(w.c)
      && w'.ledger.wakes == w.ledger.wakes && w'.c.blocked == w.c.blocked
      && Starts(w, Take) + w'.c.Waiting() == w.c.Waiting()
    ensures PossibleRun(w, Rounds(n + 1))
    ensures Ready(Run(w, Rounds(n + 1)))
    ensures Emptied(w, Rounds(n + 1), Run(w, Rounds(n + 1)))
    decreases Due(w.c), 0
  {
    RoundsServeAll(Next(Next(w, Take), Finish(false)));
    RoundSplits(w, Rounds(n));
  }

  lemma NothingWaits(c: Coord)
    requires Due(c) == 0
    ensures c.Waiting() == [] && c.pending == map[]
  {
    assert c.pending.Keys == {};
    if c.Waiting() != [] {
      LiveIn(c.order, c.pending, c.Waiting()[0]);
    }
  }

  /** Progress: from every reachable current state with an idle worker, one round
      for a due rescan and one per pending key, with nothing between, clear the
      rescan and empty the queue, start each waiting key once and in waiting order,
      and leave no accepted wake behind that is not served or blocked. */
  lemma IdleWorkerEmptiesTheQueue(pairs: bool, projects: bool, installation: string, steps: seq<Step>)
    requires PossibleRun(Start(pairs, projects, installation), steps)
    requires Run(Start(pairs, projects, installation), steps).worker.Idle?
    requires Run(Start(pairs, projects, installation), steps).c.Current()
    ensures
      var w := Run(Start(pairs, projects, installation), steps);
      var rounds := Rounds(|w.c.pending| + if w.c.full then 1 else 0);
      && PossibleRun(w, rounds)
      && var w' := Run(w, rounds);
      && !w'.c.full && w'.c.pending == map[] && w'.worker.Idle?
      && Started(w, rounds) == w.c.Waiting()
      && (forall k :: k in w.ledger.wakes ==> k in w'.ledger.wakes && (k in w.c.blocked || Settled(w'.ledger, k)))
  {
    StartInv(pairs, projects, installation);
    RunKeepsInv(Start(pairs, projects, installation), steps);
    var w := Run(Start(pairs, projects, installation), steps);
    RoundsServeAll(w);
    NothingLeft(w, Rounds(Due(w.c)));
  }

  /** Recovery: whatever happened before, a kick on a live link followed by
      undisturbed rounds serves every wake ever accepted, blocked ones included. */
  lemma KickRecoversEverything(pairs: bool, projects: bool, installation: string, steps: seq<Step>, kick: Step)
    requires PossibleRun(Start(pairs, projects, installation), steps) && kick.Kick?
    requires Run(Start(pairs, projects, installation), steps).worker.Idle?
    requires Run(Start(pairs, projects, installation), steps).link.Up?
    ensures
      var w := Next(Run(Start(pairs, projects, installation), steps), kick);
      var rounds := Rounds(|w.c.pending| + 1);
      && w.c.full && w.c.fullRevision > Run(Start(pairs, projects, installation), steps).c.revision
      && PossibleRun(w, rounds)
      && forall k :: k in w.ledger.wakes ==> k in Run(w, rounds).ledger.wakes && Settled(Run(w, rounds).ledger, k)
  {
    StartInv(pairs, projects, installation);
    RunKeepsInv(Start(pairs, projects, installation), steps);
    var before := Run(Start(pairs, projects, installation), steps);
    KickMakesReady(before, kick);
    var w := Next(before, kick);
    RoundsServeAll(w);
    NothingLeft(w, Rounds(Due(w.c)));
  }

  lemma KickMakesReady(w: World, kick: Step)
    requires Inv(w) && kick.Kick? && w.worker.Idle? && w.link.Up?
    ensures Ready(Next(w, kick)) && Next(w, kick).c.full && Next(w, kick).c.blocked == {}
  {
    StepKeepsInv(w, kick);
  }

  /** With nothing due and an idle worker, a wake not blocked has been served. */
  lemma NothingLeft(w: World, rounds: seq<Step>)
    requires PossibleRun(w, rounds) && Ready(Run(w, rounds)) && Emptied(w, rounds, Run(w, rounds))
    ensures
      var w' := Run(w, rounds);
      && !w'.c.full && w'.c.pending == map[]
      && (forall k :: k in w.ledger.wakes ==> k in w'.ledger.wakes && (k in w.c.blocked || Settled(w'.ledger, k)))
  {
    var w' := Run(w, rounds);
    NothingWaits(w'.c);
    forall k | k in w.ledger.wakes ensures k in w.c.blocked || Settled(w'.ledger, k) {
      assert Covered(w', k);
    }
  }

  /** Whatever breaks the link asks for a rescan: after a malformed hint or the end
      of a connection there is no session and a rescan is due; a connection gone live
      has an empty queue, a rescan due, and a session no job in hand belongs to. */
  lemma LinkChangesAskForRescan(pairs: bool, projects: bool, installation: string, steps: seq<Step>, step: Step)
    requires PossibleRun(Start(pairs, projects, installation), steps)
    requires Possible(Run(Start(pairs, projects, installation), steps), step)
    ensures
      var w := Run(Start(pairs, projects, installation), steps);
      var w' := Next(w, step);
      && (step.MalformedWake? || step.Teardown? ==> w'.c.session.None? && w'.c.full)
      && (step.GoLive? ==>
            && w'.c.Current() && w'.c.full && w'.c.pending == map[] && w'.c.blocked == {} && w'.c.session != w.c.session
            && (!w'.worker.Idle? ==> w'.c.session != Some(w'.worker.job.session)))
  {
    StartInv(pairs, projects, installation);
    RunKeepsInv(Start(pairs, projects, installation), steps);
  }
}
