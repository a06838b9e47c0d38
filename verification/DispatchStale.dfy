/** Exactly when the dispatch guarantees hold: a handle kept from before its ID was
    forgotten and dispatched again submits for the new incarnation, which may not have
    been admitted or started yet. Each guarantee survives a submission if and only if
    the incarnation it finds has got far enough, and at any limits some run of the
    client reaches the states in which it has not. */
module DispatchStale {
  import opened Bytes
  import opened Lru
  import opened Dispatch

  /** `handle` is left over: its ID is in flight again as `k`, not yet started. */
  predicate LeftOver(s: State, handle: nat, k: nat) {
    && handle in s.entries && s.entries[handle].Submits() && k in s.entries && k != handle
    && s.entries[k].id == s.entries[handle].id && s.entries[k].id in s.inflight && s.inflight[s.entries[k].id] == k
    && (s.entries[k].phase.Admitting? || s.entries[k].phase.Admitted?) && s.entries[k].claim.Free?
  }

  /** A submission that finds an unwritten admission goes through a left-over handle. */
  lemma NotSettledIsLeftOver(s: State, t: nat, handle: nat)
    requires Inv(s) && Possible(s, Lookup(t, handle)) && !Settled(s, Lookup(t, handle))
    ensures
      var k := s.inflight[s.entries[handle].id];
      LeftOver(s, handle, k) && s.entries[k].phase.Admitting?
  {
    var id := s.entries[handle].id;
    var k := s.inflight[id];
    assert InflightOk(s.entries, s.seen, id, k);
    assert EntryOk(s.inflight, k, s.entries[k]);
  }

  /** A submission that is not fresh goes through a left-over handle. */
  lemma NotFreshIsLeftOver(s: State, t: nat, handle: nat)
    requires FreshInv(s) && Possible(s, Lookup(t, handle)) && !Fresh(s, Lookup(t, handle))
    ensures LeftOver(s, handle, s.inflight[s.entries[handle].id])
  {
    var id := s.entries[handle].id;
    var k := s.inflight[id];
    assert InflightOk(s.entries, s.seen, id, k);
    assert EntryOk(s.inflight, k, s.entries[k]);
  }

  function Submit(t: nat, handle: nat): seq<Step> {
    [Lookup(t, handle), TakeFlag(t), Bind(t), Record(t, true, [], [], "completed", 0)]
  }

  lemma {:induction false} RunAppend(s: State, a: seq<Step>, b: seq<Step>)
    requires PossibleRun(s, a) && PossibleRun(Run(s, a), b)
    ensures PossibleRun(s, a + b) && Run(s, a + b) == Run(Run(s, a), b)
    decreases |a|
  {
    if a == [] {
      assert a + b == b;
    } else {
      assert (a + b)[0] == a[0] && (a + b)[1..] == a[1..] + b;
      RunAppend(Next(s, a[0]), a[1..], b);
    }
  }

  lemma RunOne(s: State, step: Step)
    requires Possible(s, step)
    ensures PossibleRun(s, [step]) && Run(s, [step]) == Next(s, step)
  {
    assert [step][1..] == [];
  }

  lemma RunTwo(s: State, a: Step, b: Step)
    requires Possible(s, a) && Possible(Next(s, a), b)
    ensures PossibleRun(s, [a, b]) && Run(s, [a, b]) == Next(Next(s, a), b)
  {
    RunOne(s, a);
    RunOne(Next(s, a), b);
    RunAppend(s, [a], [b]);
    assert [a] + [b] == [a, b];
  }

  /** A submission through any handle is recorded for the incarnation in flight. */
  lemma SubmissionIsRecorded(s: State, t: nat, handle: nat, k: nat)
    requires handle in s.entries && s.entries[handle].Submits() && k in s.entries && t !in s.attempts
    requires s.entries[handle].id in s.inflight && s.inflight[s.entries[handle].id] == k && s.entries[k].claim.Free?
    ensures PossibleRun(s, Submit(t, handle))
    ensures
      var s' := Run(s, Submit(t, handle));
      var id := s.entries[handle].id;
      && s'.inflight == s.inflight && s'.seen == s.seen && s'.acks == s.acks && s'.limits == s.limits && s'.made == s.made
      && s'.completed == s.completed && s'.attempts == s.attempts && s'.generation == s.generation
      && id in s'.pending && s'.pending[id].incarnation == k && s'.pending[id].payload.dispatch == s.entries[k].dispatch
      && k in s'.entries && s'.entries[k].phase == s.entries[k].phase && s'.entries[k].id == s.entries[k].id
      && s'.entries[k].dispatch == s.entries[k].dispatch && s'.entries.Keys == s.entries.Keys
      && (forall j :: j in s.entries && j != k ==> s'.entries[j] == s.entries[j])
  {
    var id := s.entries[handle].id;
    var record := Record(t, true, [], [], "completed", 0);
    ClaimSteps(s, t, handle, k);
    var e2 := s.entries[k].(claim := ByAttempt(t));
    var s2 := s.(entries := s.entries[k := e2], attempts := s.attempts[t := Claimed(id, k)]);
    RecordSteps(s2, t, id, k);
    RunAppend(s, [Lookup(t, handle), TakeFlag(t)], [Bind(t), record]);
    assert Submit(t, handle) == [Lookup(t, handle), TakeFlag(t)] + [Bind(t), record];
    assert s.attempts[t := Claimed(id, k)] - {t} == s.attempts;
  }

  lemma ClaimSteps(s: State, t: nat, handle: nat, k: nat)
    requires handle in s.entries && s.entries[handle].Submits() && k in s.entries && t !in s.attempts
    requires s.entries[handle].id in s.inflight && s.inflight[s.entries[handle].id] == k && s.entries[k].claim.Free?
    ensures PossibleRun(s, [Lookup(t, handle), TakeFlag(t)])
    ensures Run(s, [Lookup(t, handle), TakeFlag(t)]) ==
      s.(entries := s.entries[k := s.entries[k].(claim := ByAttempt(t))],
         attempts := s.attempts[t := Claimed(s.entries[handle].id, k)])
  {
    var id := s.entries[handle].id;
    var s1 := Next(s, Lookup(t, handle));
    assert s1 == s.(attempts := s.attempts[t := Looked(id, k)]);
    RunTwo(s, Lookup(t, handle), TakeFlag(t));
    assert s1.attempts[t := Claimed(id, k)] == s.attempts[t := Claimed(id, k)];
  }

  /** The result of a claimed submission, recorded with an empty envelope. */
  function Recorded(s: State, t: nat, id: string, k: nat): State
    requires k in s.entries
  {
    var e := s.entries[k];
    var p := Payload(e.dispatch, id, true, [], [], "completed", 0, e.generation != s.generation);
    s.(entries := s.entries[k := e.(claim := InPending, recorded := Some(p))], attempts := s.attempts - {t},
       pending := s.pending[id := Result(k, p, e.generation, p.Wire())], sends := s.sends + {Sent(k, p)})
  }

  lemma RecordSteps(s: State, t: nat, id: string, k: nat)
    requires t in s.attempts && s.attempts[t] == Claimed(id, k) && k in s.entries && id in s.inflight && s.inflight[id] == k
    ensures
      var record := Record(t, true, [], [], "completed", 0);
      PossibleRun(s, [Bind(t), record]) && Run(s, [Bind(t), record]) == Recorded(s, t, id, k)
  {
    var record := Record(t, true, [], [], "completed", 0);
    var s1 := Next(s, Bind(t));
    assert s1 == s.(attempts := s.attempts[t := Bound(id, k, k)]);
    assert PayloadOf(s1, record).Wire() <= 17;
    RunTwo(s, Bind(t), record);
    assert s1.attempts - {t} == s.attempts - {t};
  }

  /** From any state with a left-over handle whose ID is being admitted again, a
      submission followed by a failed admission write retains a result that no
      invocation in flight owns. */
  lemma StaleSubmissionStrandsAResult(s: State, t: nat, handle: nat, k: nat)
    requires LeftOver(s, handle, k) && s.entries[k].phase.Admitting? && t !in s.attempts
    ensures
      var steps := Submit(t, handle) + [AcceptFails(k)];
      PossibleRun(s, steps) && !(Run(s, steps).pending.Keys <= Run(s, steps).inflight.Keys)
  {
    SubmissionIsRecorded(s, t, handle, k);
    var s1 := Run(s, Submit(t, handle));
    RunOne(s1, AcceptFails(k));
    RunAppend(s, Submit(t, handle), [AcceptFails(k)]);
    var s2 := Next(s1, AcceptFails(k));
    assert s.entries[k].id in s2.pending.Keys && s.entries[k].id !in s2.inflight.Keys;
  }

  /** Every result sent for an incarnation carries that incarnation's dispatch ID. */
  predicate OwnDispatch(s: State) {
    forall x :: x in s.sends ==> x.incarnation in s.entries && x.payload.dispatch == s.entries[x.incarnation].dispatch
  }

  /** A dispatch ID other than that of `e`. */
  function Other(e: Entry): string {
    e.dispatch + "'"
  }

  /** The admission write fails under a claimed submission, and the ID arrives again. */
  function Replace(k: nat, e: Entry): seq<Step> {
    [AcceptFails(k), Arrive(e.id, Other(e))]
  }

  function Misattribute(t: nat, handle: nat, k: nat, e: Entry): seq<Step> {
    [Lookup(t, handle), TakeFlag(t)] + (Replace(k, e) + [Bind(t), Record(t, true, [], [], "completed", 0)])
  }

  predicate Unknown(s: State, id: string) {
    id !in s.seen && id !in s.completed.items && |s.inflight| <= s.limits.active && s.made !in s.entries
  }

  lemma ReplaceSteps(s: State, t: nat, k: nat)
    requires k in s.entries && s.entries[k].phase.Admitting? && s.entries[k].id in s.inflight && Unknown(s, s.entries[k].id)
    ensures PossibleRun(s, Replace(k, s.entries[k]))
    ensures
      var s' := Run(s, Replace(k, s.entries[k]));
      var id := s.entries[k].id;
      && s'.attempts == s.attempts && s'.generation == s.generation && id in s'.inflight && s'.inflight[id] == s.made
      && s.made in s'.entries && s'.entries[s.made].dispatch == Other(s.entries[k])
      && k in s'.entries && s'.entries[k] == s.entries[k].(phase := Dropped)
  {
    var e := s.entries[k];
    var s1 := Next(s, AcceptFails(k));
    assert s.inflight.Keys == s1.inflight.Keys + {e.id};
    assert |s1.inflight| == |s1.inflight.Keys| && |s.inflight| == |s.inflight.Keys|;
    assert Next(s1, Arrive(e.id, Other(e))) == Arrived(s1, e.id, Other(e));
    RunTwo(s, AcceptFails(k), Arrive(e.id, Other(e)));
  }

  lemma BoundElsewhere(s: State, t: nat, id: string, k: nat, again: nat)
    requires t in s.attempts && s.attempts[t] == Claimed(id, k) && k in s.entries && id in s.inflight
    requires s.inflight[id] == again && again in s.entries && s.entries[again].dispatch != s.entries[k].dispatch
    ensures
      var steps := [Bind(t), Record(t, true, [], [], "completed", 0)];
      PossibleRun(s, steps) && !OwnDispatch(Run(s, steps))
  {
    var record := Record(t, true, [], [], "completed", 0);
    var s1 := Next(s, Bind(t));
    assert s1 == s.(attempts := s.attempts[t := Bound(id, k, again)]);
    assert PayloadOf(s1, record).Wire() <= 17;
    RunTwo(s, Bind(t), record);
    var s2 := Next(s1, record);
    assert Sent(k, PayloadOf(s1, record)) in s2.sends && s2.entries[k].dispatch == s.entries[k].dispatch;
  }

  /** From any such state, an admission write that fails while the submission is under
      way, and a new dispatch of the ID, send a result under a foreign dispatch ID. */
  lemma StaleSubmissionIsMisattributed(s: State, t: nat, handle: nat, k: nat)
    requires LeftOver(s, handle, k) && s.entries[k].phase.Admitting? && t !in s.attempts && Unknown(s, s.entries[k].id)
    ensures
      var steps := Misattribute(t, handle, k, s.entries[k]);
      PossibleRun(s, steps) && !OwnDispatch(Run(s, steps))
  {
    var e := s.entries[k];
    ClaimSteps(s, t, handle, k);
    var claim := [Lookup(t, handle), TakeFlag(t)];
    var s2 := Run(s, claim);
    assert Replace(k, s2.entries[k]) == Replace(k, e);
    ReplaceSteps(s2, t, k);
    var s3 := Run(s2, Replace(k, e));
    var last := [Bind(t), Record(t, true, [], [], "completed", 0)];
    BoundElsewhere(s3, t, e.id, k, s2.made);
    RunAppend(s2, Replace(k, e), last);
    RunAppend(s, claim, Replace(k, e) + last);
  }

  /** Some handler can start now whose ID is in the duplicate window. */
  predicate StartsInsideTheWindow(s: State) {
    exists k :: k in s.entries && s.entries[k].phase.Admitted? && s.entries[k].id in s.seen
  }

  function Receive(u: nat, e: Entry): seq<Step> {
    [TakeAck(u, e.id, Receipt(e.dispatch, true, "")), Retire(u)]
  }

  lemma ReceiptRetires(s: State, u: nat, id: string, k: nat)
    requires s.limits.Valid() && u !in s.acks && id in s.pending && s.pending[id].incarnation == k
    requires k in s.entries && s.entries[k].id == id && s.entries[k].phase.Admitted?
    requires s.pending[id].payload.dispatch == s.entries[k].dispatch != ""
    ensures PossibleRun(s, Receive(u, s.entries[k])) && StartsInsideTheWindow(Run(s, Receive(u, s.entries[k])))
  {
    var receipt := Receipt(s.entries[k].dispatch, true, "");
    var s1 := Next(s, TakeAck(u, id, receipt));
    assert s1.acks[u].id == id && s1.acks[u].result.incarnation == k;
    RunTwo(s, TakeAck(u, id, receipt), Retire(u));
    AddToHas(s1.seen, id, s1.limits.seen);
    var s2 := Next(s1, Retire(u));
    assert k in s2.entries && s2.entries[k].phase.Admitted? && s2.entries[k].id in s2.seen;
  }

  /** The dispatch thread goes on to write the admission, if it had not. */
  function Proceed(k: nat, e: Entry): seq<Step> {
    if e.phase.Admitting? then [AcceptSent(k)] else []
  }

  function Overtake(t: nat, u: nat, handle: nat, k: nat, e: Entry): seq<Step> {
    Submit(t, handle) + (Proceed(k, e) + Receive(u, e))
  }

  lemma ProceedSteps(s: State, k: nat, e: Entry)
    requires k in s.entries && s.entries[k].phase == e.phase && (e.phase.Admitting? || e.phase.Admitted?)
    ensures PossibleRun(s, Proceed(k, e))
    ensures Run(s, Proceed(k, e)) == s.(entries := s.entries[k := s.entries[k].(phase := Admitted)])
  {
    if e.phase.Admitting? {
      RunOne(s, AcceptSent(k));
    } else {
      assert s.entries[k := s.entries[k].(phase := Admitted)] == s.entries;
    }
  }

  /** From any state with a left-over handle, a submission and its receipt retire the
      ID while the dispatch thread still goes on to start the handler: a start inside
      the duplicate window. */
  lemma StaleSubmissionStartsInsideTheWindow(s: State, t: nat, u: nat, handle: nat, k: nat)
    requires s.limits.Valid() && LeftOver(s, handle, k) && t !in s.attempts && u !in s.acks && s.entries[k].dispatch != ""
    ensures
      var steps := Overtake(t, u, handle, k, s.entries[k]);
      PossibleRun(s, steps) && StartsInsideTheWindow(Run(s, steps))
  {
    var e := s.entries[k];
    SubmissionIsRecorded(s, t, handle, k);
    var s1 := Run(s, Submit(t, handle));
    ProceedSteps(s1, k, e);
    var s2 := Run(s1, Proceed(k, e));
    assert Receive(u, s2.entries[k]) == Receive(u, e);
    ReceiptRetires(s2, u, e.id, k);
    RunAppend(s1, Proceed(k, e), Receive(u, e));
    RunAppend(s, Submit(t, handle), Proceed(k, e) + Receive(u, e));
  }

  lemma AddToHas(order: seq<string>, key: string, cap: nat)
    requires cap >= 1
    ensures key in AddTo(order, key, cap)
  {
    if key !in order && |order| + 1 > cap {
      assert order != [] ==> ([key] + order)[..|order|][0] == key;
    }
  }

  // ---------------------------------------------------------------- the exact conditions

  /** Without submissions nothing can be stale. */
  lemma {:induction false} WithoutLookups(s: State, steps: seq<Step>)
    requires PossibleRun(s, steps) && forall i :: 0 <= i < |steps| ==> !steps[i].Lookup?
    ensures SettledRun(s, steps) && FreshRun(s, steps)
    decreases |steps|
  {
    if steps != [] {
      assert forall i :: 0 <= i < |steps| - 1 ==> steps[1..][i] == steps[i + 1];
      WithoutLookups(Next(s, steps[0]), steps[1..]);
    }
  }

  /** A run that begins with the only submission in it. */
  lemma AfterLookup(s: State, steps: seq<Step>)
    requires PossibleRun(s, steps) && steps != [] && steps[0].Lookup?
    requires forall i :: 1 <= i < |steps| ==> !steps[i].Lookup?
    ensures
      var s1 := Next(s, steps[0]);
      SettledRun(s1, steps[1..]) && FreshRun(s1, steps[1..]) && PossibleRun(s1, steps[1..]) && Run(s1, steps[1..]) == Run(s, steps)
  {
    assert forall i :: 0 <= i < |steps| - 1 ==> steps[1..][i] == steps[i + 1];
    WithoutLookups(Next(s, steps[0]), steps[1..]);
  }

  predicate BoundAfter(s: State, rest: seq<Step>) {
    PossibleRun(s, rest) && Run(s, rest).pending.Keys <= Run(s, rest).inflight.Keys
  }

  /** Retained results stay with invocations in flight, however the run goes on, if and
      only if the submission does not find an unwritten admission. */
  lemma BoundSurvivesIff(s: State, t: nat, handle: nat)
    requires Inv(s) && Possible(s, Lookup(t, handle))
    ensures
      var s1 := Next(s, Lookup(t, handle));
      Settled(s, Lookup(t, handle)) <==> forall rest :: SettledRun(s1, rest) ==> BoundAfter(s1, rest)
  {
    var s1 := Next(s, Lookup(t, handle));
    if Settled(s, Lookup(t, handle)) {
      StepKeepsInv(s, Lookup(t, handle));
      forall rest | SettledRun(s1, rest) ensures BoundAfter(s1, rest) {
        RunKeepsInv(s1, rest);
        PendingInFlight(Run(s1, rest));
      }
    } else {
      NotSettledIsLeftOver(s, t, handle);
      var k := s.inflight[s.entries[handle].id];
      StaleSubmissionStrandsAResult(s, t, handle, k);
      var steps := Submit(t, handle) + [AcceptFails(k)];
      AfterLookup(s, steps);
      assert SettledRun(s1, steps[1..]) && !BoundAfter(s1, steps[1..]);
    }
  }

  predicate OutcomeAfter(s: State, rest: seq<Step>) {
    PossibleRun(s, rest) && OwnDispatch(Run(s, rest))
  }

  /** No result is ever sent under a foreign dispatch ID, however the run goes on, under
      exactly the same condition. */
  lemma OutcomeSurvivesIff(s: State, t: nat, handle: nat)
    requires Inv(s) && Possible(s, Lookup(t, handle))
    ensures
      var s1 := Next(s, Lookup(t, handle));
      Settled(s, Lookup(t, handle)) <==> forall rest :: SettledRun(s1, rest) ==> OutcomeAfter(s1, rest)
  {
    var s1 := Next(s, Lookup(t, handle));
    if Settled(s, Lookup(t, handle)) {
      StepKeepsInv(s, Lookup(t, handle));
      forall rest | SettledRun(s1, rest) ensures OutcomeAfter(s1, rest) {
        RunKeepsInv(s1, rest);
        SendsAreOwn(Run(s1, rest));
      }
    } else {
      NotSettledIsLeftOver(s, t, handle);
      var k := s.inflight[s.entries[handle].id];
      InFlightIsUnknown(s, s.entries[k].id);
      StaleSubmissionIsMisattributed(s, t, handle, k);
      var steps := Misattribute(t, handle, k, s.entries[k]);
      AfterLookup(s, steps);
      assert SettledRun(s1, steps[1..]) && !OutcomeAfter(s1, steps[1..]);
    }
  }

  lemma SendsAreOwn(s: State)
    requires Inv(s)
    ensures OwnDispatch(s)
  {
    forall x | x in s.sends ensures x.incarnation in s.entries && x.payload.dispatch == s.entries[x.incarnation].dispatch {
      assert OutcomeOk(s.entries, x.incarnation, x.payload);
    }
  }

  lemma InFlightIsUnknown(s: State, id: string)
    requires Inv(s) && id in s.inflight
    ensures Unknown(s, id)
  {
    assert InflightOk(s.entries, s.seen, id, s.inflight[id]);
  }

  predicate WindowAfter(s: State, rest: seq<Step>) {
    PossibleRun(s, rest) && !StartsInsideTheWindow(Run(s, rest))
  }

  /** No handler can start for an ID in the duplicate window, however the run goes on,
      if and only if the submission finds nothing or an incarnation that was started or
      refused. */
  lemma WindowSurvivesIff(s: State, t: nat, handle: nat)
    requires FreshInv(s) && Possible(s, Lookup(t, handle))
    ensures
      var s1 := Next(s, Lookup(t, handle));
      Fresh(s, Lookup(t, handle)) <==> forall rest :: FreshRun(s1, rest) ==> WindowAfter(s1, rest)
  {
    var s1 := Next(s, Lookup(t, handle));
    if Fresh(s, Lookup(t, handle)) {
      StepKeepsFreshInv(s, Lookup(t, handle));
      forall rest | FreshRun(s1, rest) ensures WindowAfter(s1, rest) {
        RunKeepsFreshInv(s1, rest);
        FreshStartsOutside(Run(s1, rest));
      }
    } else {
      NotFreshIsLeftOver(s, t, handle);
      var k := s.inflight[s.entries[handle].id];
      var u := Unused(s.acks.Keys);
      assert EntryOk(s.inflight, k, s.entries[k]);
      StaleSubmissionStartsInsideTheWindow(s, t, u, handle, k);
      var steps := Overtake(t, u, handle, k, s.entries[k]);
      AfterLookup(s, steps);
      assert FreshRun(s1, steps[1..]) && !WindowAfter(s1, steps[1..]);
    }
  }

  lemma FreshStartsOutside(s: State)
    requires FreshInv(s)
    ensures !StartsInsideTheWindow(s)
  {
    forall k | k in s.entries && s.entries[k].phase.Admitted? ensures s.entries[k].id !in s.seen {
      assert EntryOk(s.inflight, k, s.entries[k]);
      assert InflightOk(s.entries, s.seen, s.entries[k].id, k);
    }
  }

  /** A thread number not in use. */
  lemma Unused(used: set<nat>) returns (u: nat)
    ensures u !in used
  {
    u := Above(used);
  }

  lemma {:induction false} Above(used: set<nat>) returns (bound: nat)
    ensures forall x :: x in used ==> x < bound
  {
    if used == {} {
      bound := 0;
    } else {
      var x :| x in used;
      var rest := Above(used - {x});
      bound := if x < rest then rest else x + 1;
      assert forall y :: y in used ==> y == x || y in used - {x};
    }
  }

  // ---------------------------------------------------------------- such states are reached, at any limits

  function Admit(id: string, k: nat): seq<Step> {
    [Arrive(id, "d"), AcceptSent(k)] + [StartHandler(k)]
  }

  function Settle(id: string): seq<Step> {
    [TakeAck(0, id, Receipt("d", true, "")), Retire(0)]
  }

  /** Nothing in progress, and `id` unknown. */
  predicate Quiet(s: State, id: string) {
    && s.limits.Valid() && s.inflight == map[] && s.attempts == map[] && s.acks == map[]
    && (forall j :: j in s.entries ==> j < s.made)
    && id !in s.completed.items && id !in s.seen
  }

  lemma AdmitStarts(s: State, id: string)
    requires Quiet(s, id)
    ensures PossibleRun(s, Admit(id, s.made))
    ensures
      var s' := Run(s, Admit(id, s.made));
      s' == s.(entries := s.entries[s.made := Entry(id, "d", s.generation, Started, Free, None)],
               inflight := map[id := s.made], made := s.made + 1)
  {
    var k := s.made;
    var s1 := Next(s, Arrive(id, "d"));
    assert s1 == Arrived(s, id, "d");
    RunTwo(s, Arrive(id, "d"), AcceptSent(k));
    var s2 := Next(s1, AcceptSent(k));
    RunOne(s2, StartHandler(k));
    RunAppend(s, [Arrive(id, "d"), AcceptSent(k)], [StartHandler(k)]);
  }

  lemma SettleRetires(s: State, id: string)
    requires id in s.pending && s.pending[id].payload.dispatch == "d" && s.pending[id].incarnation in s.entries
    requires s.acks == map[]
    ensures PossibleRun(s, Settle(id))
    ensures
      var s' := Run(s, Settle(id));
      var r := s.pending[id];
      && s'.limits == s.limits && s'.attempts == s.attempts && s'.acks == map[] && s'.made == s.made
      && s'.inflight == s.inflight - {id} && s'.seen == AddTo(s.seen, id, s.limits.seen)
      && s'.completed == Evict(s.completed.Put(id, r, r.encoded), s.limits.cached, s.limits.cachedBytes)
      && s'.entries == s.entries[r.incarnation := s.entries[r.incarnation].(claim := Retired)]
  {
    var r := s.pending[id];
    var s1 := Next(s, TakeAck(0, id, Receipt("d", true, "")));
    var taken := s.entries[r.incarnation := s.entries[r.incarnation].(claim := ByAck(0))];
    assert s1 == s.(pending := s.pending - {id}, acks := s.acks[0 := Ack(id, r)], entries := taken);
    RunTwo(s, TakeAck(0, id, Receipt("d", true, "")), Retire(0));
    RetireAfter(s1, id, r);
    assert taken[r.incarnation := s.entries[r.incarnation].(claim := Retired)]
        == s.entries[r.incarnation := s.entries[r.incarnation].(claim := Retired)];
    assert s.acks[0 := Ack(id, r)] - {0} == map[];
  }

  lemma RetireAfter(s: State, id: string, r: Result)
    requires 0 in s.acks && s.acks[0] == Ack(id, r) && r.incarnation in s.entries
    ensures Possible(s, Retire(0)) && Next(s, Retire(0)) == Completed(s, 0)
  {
  }

  function Life(id: string, k: nat): seq<Step> {
    Admit(id, k) + (Submit(0, k) + Settle(id))
  }

  /** From `s` to `s'` one invocation `k` of `id` has come and gone with result `r`. */
  ghost predicate Over(s: State, s': State, id: string, k: nat, r: Result) {
    && s'.limits == s.limits && s'.inflight == map[] && s'.attempts == map[] && s'.acks == map[]
    && s'.seen == AddTo(s.seen, id, s.limits.seen)
    && s'.completed == Evict(s.completed.Put(id, r, r.encoded), s.limits.cached, s.limits.cachedBytes)
    && s'.entries.Keys == s.entries.Keys + {k} && s'.entries[k].phase.Started? && s'.entries[k].id == id
    && (forall j :: j in s.entries && j != k ==> s'.entries[j] == s.entries[j])
  }

  /** One whole invocation, from dispatch to receipt. */
  lemma LifeRetires(s: State, id: string) returns (r: Result)
    requires Quiet(s, id)
    ensures PossibleRun(s, Life(id, s.made))
    ensures var s' := Run(s, Life(id, s.made)); Over(s, s', id, s.made, r) && s'.made == s.made + 1
  {
    var k := s.made;
    AdmitStarts(s, id);
    var s1 := Run(s, Admit(id, k));
    r := FinishRetires(s1, id, k);
    var s2 := Run(s1, Submit(0, k) + Settle(id));
    RunAppend(s, Admit(id, k), Submit(0, k) + Settle(id));
    AdmittedOver(s, s1, s2, id, k, r);
  }

  lemma AdmittedOver(s: State, s1: State, s2: State, id: string, k: nat, r: Result)
    requires Over(s1, s2, id, k, r) && s1.limits == s.limits && s1.seen == s.seen && s1.completed == s.completed
    requires k in s1.entries && s1.entries == s.entries[k := s1.entries[k]]
    ensures Over(s, s2, id, k, r)
  {
  }

  lemma FinishRetires(s: State, id: string, k: nat) returns (r: Result)
    requires s.inflight == map[id := k] && s.attempts == map[] && s.acks == map[]
    requires k in s.entries && s.entries[k] == Entry(id, "d", s.generation, Started, Free, None)
    ensures PossibleRun(s, Submit(0, k) + Settle(id))
    ensures var s' := Run(s, Submit(0, k) + Settle(id)); Over(s, s', id, k, r) && s'.made == s.made
  {
    SubmissionIsRecorded(s, 0, k, k);
    var s2 := Run(s, Submit(0, k));
    r := s2.pending[id];
    SettleRetires(s2, id);
    RunAppend(s, Submit(0, k), Settle(id));
    assert map[id := k] - {id} == map[];
  }

  /** The last `c` of the first `n` names, newest first, as the window keeps them. */
  function Newest(n: nat, c: nat): seq<string>
    requires c <= n
  {
    seq(c, i requires 0 <= i < c => Name(n - 1 - i))
  }

  /** The same, oldest first, as the cache keeps them. */
  function Oldest(n: nat, c: nat): seq<string>
    requires c <= n
  {
    seq(c, i requires 0 <= i < c => Name(n - c + i))
  }

  function Least(a: nat, b: nat): nat {
    if a < b then a else b
  }

  lemma NewNameUnknown(n: nat, c: nat, d: nat)
    requires c <= n && d <= n
    ensures Name(n) !in Newest(n, c) && Name(n) !in Oldest(n, d)
  {
    forall i: nat | i < c ensures Newest(n, c)[i] != Name(n) { NamesDiffer(n - 1 - i, n); }
    forall i: nat | i < d ensures Oldest(n, d)[i] != Name(n) { NamesDiffer(n - d + i, n); }
  }

  lemma FirstNameForgotten(n: nat, c: nat)
    requires c < n
    ensures Name(0) !in Newest(n, c) && Name(0) !in Oldest(n, c)
  {
    forall i: nat | i < c ensures Newest(n, c)[i] != Name(0) { NamesDiffer(n - 1 - i, 0); }
    forall i: nat | i < c ensures Oldest(n, c)[i] != Name(0) { NamesDiffer(n - c + i, 0); }
  }

  lemma WindowGrows(n: nat, cap: nat)
    requires cap >= 1
    ensures AddTo(Newest(n, Least(n, cap)), Name(n), cap) == Newest(n + 1, Least(n + 1, cap))
  {
    var c := Least(n, cap);
    NewNameUnknown(n, c, 0);
    var all := [Name(n)] + Newest(n, c);
    assert all == Newest(n + 1, c + 1);
    if c + 1 > cap { assert all[..c] == Newest(n + 1, c); }
  }

  lemma {:induction false} EvictKeepsNewest(c: Cache<Result>, cap: nat, maxBytes: nat) returns (d: nat)
    ensures d <= |c.order| && Evict(c, cap, maxBytes).order == c.order[d..] && |c.order| - d <= cap
    decreases |c.order|
  {
    if c.Fits(cap, maxBytes) || c.order == [] {
      d := 0;
    } else {
      var d' := EvictKeepsNewest(c.Pop(), cap, maxBytes);
      d := d' + 1;
      assert c.order[1..][d'..] == c.order[d..];
    }
  }

  lemma PutNewest(order: seq<string>, n: nat, m: nat)
    requires m <= n && order == Oldest(n, m)
    ensures Without(order, Name(n)) + [Name(n)] == Oldest(n + 1, m + 1)
  {
    NewNameUnknown(n, 0, m);
    WithoutAbsent(order, Name(n));
  }

  lemma OldestDropped(n: nat, m: nat, d: nat)
    requires d <= m <= n
    ensures Oldest(n, m)[d..] == Oldest(n, m - d)
  {
  }

  lemma CacheStaysValid(c: Cache<Result>, id: string, r: Result, limits: Limits)
    requires c.Valid()
    ensures Evict(c.Put(id, r, r.encoded), limits.cached, limits.cachedBytes).Valid()
  {
    PutKeepsValid(c, id, r, r.encoded);
    EvictKeepsValues(c.Put(id, r, r.encoded), limits.cached, limits.cachedBytes);
  }

  lemma CacheGrows(c: Cache<Result>, n: nat, m: nat, r: Result, limits: Limits) returns (m': nat)
    requires m <= n && c.order == Oldest(n, m)
    ensures m' <= n + 1 && m' <= limits.cached
    ensures Evict(c.Put(Name(n), r, r.encoded), limits.cached, limits.cachedBytes).order == Oldest(n + 1, m')
  {
    PutNewest(c.order, n, m);
    var d := EvictKeepsNewest(c.Put(Name(n), r, r.encoded), limits.cached, limits.cachedBytes);
    m' := m + 1 - d;
    OldestDropped(n + 1, m + 1, d);
  }

  /** `n` invocations have come and gone; the cache holds the last `m`. */
  ghost predicate Gone(s: State, limits: Limits, n: nat, m: nat) {
    && s.limits == limits && s.inflight == map[] && s.attempts == map[] && s.acks == map[] && s.made == n
    && (forall j :: j in s.entries ==> j < n)
    && (n > 0 ==> 0 in s.entries && s.entries[0].phase.Started? && s.entries[0].id == Name(0))
    && s.seen == Newest(n, Least(n, limits.seen))
    && s.completed.Valid() && m <= limits.cached && m <= n && s.completed.order == Oldest(n, m)
  }

  lemma OneMoreGone(s: State, limits: Limits, n: nat, m: nat) returns (m': nat)
    requires limits.Valid() && Gone(s, limits, n, m)
    ensures PossibleRun(s, Life(Name(n), n)) && Gone(Run(s, Life(Name(n), n)), limits, n + 1, m')
  {
    NewNameUnknown(n, Least(n, limits.seen), m);
    var r := LifeRetires(s, Name(n));
    WindowGrows(n, limits.seen);
    CacheStaysValid(s.completed, Name(n), r, limits);
    m' := CacheGrows(s.completed, n, m, r, limits);
  }

  lemma {:induction false} ManyGone(limits: Limits, n: nat) returns (steps: seq<Step>, m: nat)
    requires limits.Valid()
    ensures PossibleRun(Start(limits), steps) && Gone(Run(Start(limits), steps), limits, n, m)
  {
    if n == 0 {
      steps, m := [], 0;
    } else {
      var before, m0 := ManyGone(limits, n - 1);
      var s := Run(Start(limits), before);
      m := OneMoreGone(s, limits, n - 1, m0);
      RunAppend(Start(limits), before, Life(Name(n - 1), n - 1));
      steps := before + Life(Name(n - 1), n - 1);
    }
  }

  /** The first handle is left over: its ID is being admitted again as `k`. */
  ghost predicate Stale(s: State, limits: Limits, k: nat) {
    && LeftOver(s, 0, k) && s.entries[k].phase.Admitting? && s.entries[k].dispatch == "d" && Unknown(s, s.entries[k].id)
    && s.limits == limits && s.attempts == map[] && s.acks == map[]
  }

  lemma ArriveAgain(s: State, limits: Limits, n: nat, m: nat)
    requires limits.Valid() && Gone(s, limits, n, m) && n > limits.seen && n > limits.cached
    ensures Stale(Next(s, Arrive(Name(0), "d")), limits, n)
  {
    FirstNameForgotten(n, Least(n, limits.seen));
    FirstNameForgotten(n, m);
    assert Next(s, Arrive(Name(0), "d")) == Arrived(s, Name(0), "d");
  }

  /** With any limits the client can have, including its own, enough other invocations
      make both memories forget an ID whose handle is still around. */
  lemma LeftOverIsReachable(limits: Limits) returns (steps: seq<Step>, k: nat)
    requires limits.Valid()
    ensures PossibleRun(Start(limits), steps) && Stale(Run(Start(limits), steps), limits, k)
  {
    k := limits.seen + limits.cached + 1;
    var before, m := ManyGone(limits, k);
    var s := Run(Start(limits), before);
    ArriveAgain(s, limits, k, m);
    RunOne(s, Arrive(Name(0), "d"));
    RunAppend(Start(limits), before, [Arrive(Name(0), "d")]);
    steps := before + [Arrive(Name(0), "d")];
  }

  /** So at any limits undisciplined handles break the bound: a reachable state retains
      a result for an ID that is not in flight. */
  lemma UndisciplinedHandlesBreakTheBound(limits: Limits) returns (steps: seq<Step>)
    requires limits.Valid()
    ensures PossibleRun(Start(limits), steps)
    ensures !(Run(Start(limits), steps).pending.Keys <= Run(Start(limits), steps).inflight.Keys)
  {
    var before, k := LeftOverIsReachable(limits);
    var more := Submit(0, 0) + [AcceptFails(k)];
    StaleSubmissionStrandsAResult(Run(Start(limits), before), 0, 0, k);
    RunAppend(Start(limits), before, more);
    steps := before + more;
  }

  /** They break the outcome: a result is sent under a foreign dispatch ID. */
  lemma UndisciplinedHandlesMisattribute(limits: Limits) returns (steps: seq<Step>)
    requires limits.Valid()
    ensures PossibleRun(Start(limits), steps) && !OwnDispatch(Run(Start(limits), steps))
  {
    var before, k := LeftOverIsReachable(limits);
    var s := Run(Start(limits), before);
    var more := Misattribute(0, 0, k, s.entries[k]);
    StaleSubmissionIsMisattributed(s, 0, 0, k);
    RunAppend(Start(limits), before, more);
    steps := before + more;
  }

  /** And they break the window: a handler can start for an ID just retired. */
  lemma UndisciplinedHandlesBreakTheWindow(limits: Limits) returns (steps: seq<Step>)
    requires limits.Valid()
    ensures PossibleRun(Start(limits), steps) && StartsInsideTheWindow(Run(Start(limits), steps))
  {
    var before, k := LeftOverIsReachable(limits);
    var s := Run(Start(limits), before);
    var more := Overtake(0, 0, 0, k, s.entries[k]);
    StaleSubmissionStartsInsideTheWindow(s, 0, 0, 0, k);
    RunAppend(Start(limits), before, more);
    steps := before + more;
  }
}
