/** Invocation dispatch (sdk/dispatch.go): duplicate suppression, one result per
    dispatched invocation, results kept until the server's durable receipt.

    Every step is one critical section or atomic operation of the dispatch,
    completion, acknowledgement and retry threads. An incarnation is one
    asyncInvocation object: the same invocation ID can be dispatched again, as a new
    incarnation, once both bounded memories have forgotten it. */
module Dispatch {
  import opened Bytes
  import opened Lru

  const MAX_WIRE := 512 * 1024
  const MAX_PENDING := 32 * 1024 * 1024
  const RESERVE := 1024
  const RETRY_BATCH := 32

  /** `base` is the encoded length without the reconcile flag. */
  datatype Payload = Payload(dispatch: string, invocation: string, ok: bool, envelope: bytes, aad: bytes,
                             code: string, base: nat, reconcile: bool)
  {
    /** The flag adds `"reconcile":true,` to the encoding. */
    function Wire(): nat {
      base + if reconcile then 17 else 0
    }

    /** Equal in everything but the reconcile flag. */
    predicate SameOutcome(other: Payload) {
      this == other.(reconcile := reconcile)
    }
  }

  datatype Result = Result(incarnation: nat, payload: Payload, generation: nat, encoded: nat)

  /** How far the dispatch thread got: admission not yet written, admission write
      failed, written, handler running or done, refused without a handler. */
  datatype Phase = Admitting | Dropped | Admitted | Started | Refused

  /** Who owns the submission; the object's flag is set unless it is `Free`. */
  datatype Claim = Free | ByAttempt(thread: nat) | InPending | ByAck(thread: nat) | Retired

  datatype Entry = Entry(id: string, dispatch: string, generation: nat, phase: Phase, claim: Claim,
                         recorded: Option<Payload>)
  {
    /** Its handler or its refusal may submit a result. */
    predicate Submits() {
      phase.Started? || phase.Refused?
    }

    /** Its admission was written, or it was refused. */
    predicate Decided() {
      phase.Admitted? || Submits()
    }
  }

  /** A thread in completeInvocationWith: has looked the entry up, has won its flag,
      has looked the entry up again for its dispatch ID. */
  datatype Attempt =
    | Looked(id: string, k: nat)
    | Claimed(id: string, k: nat)
    | Bound(id: string, k: nat, again: nat)

  datatype Ack = Ack(id: string, result: Result)

  /** The server's receipt for a result: recorded, or not and why. */
  datatype Receipt = Receipt(dispatch: string, recorded: bool, code: string) {
    predicate Final() {
      dispatch != "" && (recorded || code == "dispatch_rejected")
    }
  }

  datatype Sent = Sent(incarnation: nat, payload: Payload)

  datatype Limits = Limits(active: nat, seen: nat, cached: nat, cachedBytes: nat) {
    predicate Valid() {
      active >= 1 && seen >= 1 && cached >= 1
    }
  }

  const SDK_LIMITS: Limits := Limits(MAX_PENDING / MAX_WIRE, DEFAULT_CAP, DEFAULT_CAP, 8 * 1024 * 1024)

  datatype State = State(limits: Limits, generation: nat, entries: map<nat, Entry>, made: nat,
                         inflight: map<string, nat>, pending: map<string, Result>, completed: Cache<Result>,
                         seen: seq<string>, attempts: map<nat, Attempt>, acks: map<nat, Ack>,
                         retired: seq<string>, sends: set<Sent>)

  function Start(limits: Limits): State {
    State(limits, 0, map[], 0, map[], map[], Cache([], map[], map[]), [], map[], map[], [], {})
  }

  // ---------------------------------------------------------------- steps

  /** `Complete` and the refusals start at `Lookup`, through the handle of an
      incarnation whose handler was started or which was refused. */
  datatype Step =
    | Arrive(id: string, dispatch: string)
    | Refuse(k: nat)
    | AcceptFails(k: nat)
    | AcceptSent(k: nat)
    | StartHandler(k: nat)
    | Lookup(thread: nat, handle: nat)
    | TakeFlag(thread: nat)
    | Bind(thread: nat)
    | GiveUp(thread: nat)
    | Record(thread: nat, ok: bool, envelope: bytes, aad: bytes, code: string, base: nat)
    | Retry(ids: set<string>)
    | TakeAck(thread: nat, id: string, receipt: Receipt)
    | Retire(thread: nat)
    | Reconnect

  function PayloadOf(s: State, step: Step): Payload
    requires step.Record? && step.thread in s.attempts && s.attempts[step.thread].Bound?
    requires s.attempts[step.thread].again in s.entries
  {
    var a := s.attempts[step.thread];
    var e := s.entries[a.again];
    Payload(e.dispatch, a.id, step.ok, step.envelope, step.aad, step.code, step.base, e.generation != s.generation)
  }

  predicate Possible(s: State, step: Step) {
    match step
    case Arrive(_, dispatch) => dispatch != ""
    case Refuse(k) => k in s.entries && (s.entries[k].phase.Admitting? || s.entries[k].phase.Admitted?)
    case AcceptFails(k) => k in s.entries && s.entries[k].phase.Admitting?
    case AcceptSent(k) => k in s.entries && s.entries[k].phase.Admitting?
    case StartHandler(k) => k in s.entries && s.entries[k].phase.Admitted?
    case Lookup(t, h) => t !in s.attempts && h in s.entries && s.entries[h].Submits()
    case TakeFlag(t) => t in s.attempts && s.attempts[t].Looked? && s.attempts[t].k in s.entries
    case Bind(t) => t in s.attempts && s.attempts[t].Claimed? && s.attempts[t].k in s.entries
    case GiveUp(t) => t in s.attempts && !s.attempts[t].Looked? && s.attempts[t].k in s.entries
    case Record(t, _, _, _, _, _) =>
      && t in s.attempts && s.attempts[t].Bound? && s.attempts[t].k in s.entries && s.attempts[t].again in s.entries
      && PayloadOf(s, step).Wire() <= MAX_WIRE - RESERVE
    case Retry(ids) => ids <= s.pending.Keys && |ids| <= RETRY_BATCH
    case TakeAck(u, id, _) =>
      u !in s.acks && (id in s.pending ==> s.pending[id].incarnation in s.entries)
    case Retire(u) => u in s.acks && s.acks[u].result.incarnation in s.entries
    case Reconnect => true
  }

  function Arrived(s: State, id: string, dispatch: string): State {
    if id in s.completed.items then
      var cached := s.completed.items[id];
      s.(completed := s.completed.Touch(id),
         sends := if cached.payload.dispatch == dispatch then s.sends + {Sent(cached.incarnation, cached.payload)} else s.sends)
    else if id in s.seen || id in s.inflight || |s.inflight| >= s.limits.active then s
    else
      s.(entries := s.entries[s.made := Entry(id, dispatch, s.generation, Admitting, Free, None)],
         inflight := s.inflight[id := s.made], made := s.made + 1)
  }

  /** A receipt takes the result it names, and only if it is final. */
  predicate Takes(s: State, id: string, receipt: Receipt) {
    id in s.pending && s.pending[id].payload.dispatch == receipt.dispatch && receipt.Final()
  }

  function Resent(s: State, id: string): Result
    requires id in s.pending
  {
    var r := s.pending[id];
    r.(payload := r.payload.(reconcile := r.generation != s.generation))
  }

  function Retried(s: State, ids: set<string>): State
    requires ids <= s.pending.Keys
  {
    s.(pending := map id | id in s.pending :: if id in ids then Resent(s, id) else s.pending[id],
       sends := s.sends + set id | id in ids :: Sent(s.pending[id].incarnation, Resent(s, id).payload))
  }

  function Completed(s: State, u: nat): State
    requires u in s.acks && s.acks[u].result.incarnation in s.entries
  {
    var a := s.acks[u];
    s.(inflight := s.inflight - {a.id}, acks := s.acks - {u},
       completed := Evict(s.completed.Put(a.id, a.result, a.result.encoded), s.limits.cached, s.limits.cachedBytes),
       seen := AddTo(s.seen, a.id, s.limits.seen), retired := s.retired + [a.id],
       entries := s.entries[a.result.incarnation := s.entries[a.result.incarnation].(claim := Retired)])
  }

  function Taken(s: State, u: nat, id: string): State
    requires id in s.pending && s.pending[id].incarnation in s.entries
  {
    var r := s.pending[id];
    s.(pending := s.pending - {id}, acks := s.acks[u := Ack(id, r)],
       entries := s.entries[r.incarnation := s.entries[r.incarnation].(claim := ByAck(u))])
  }

  function Kept(s: State, step: Step): State
    requires step.Record? && step.thread in s.attempts && s.attempts[step.thread].Bound?
    requires s.attempts[step.thread].k in s.entries && s.attempts[step.thread].again in s.entries
  {
    var a := s.attempts[step.thread];
    var p := PayloadOf(s, step);
    s.(entries := s.entries[a.k := s.entries[a.k].(claim := InPending, recorded := Some(p))],
       attempts := s.attempts - {step.thread},
       pending := s.pending[a.id := Result(a.k, p, s.entries[a.again].generation, p.Wire())],
       sends := s.sends + {Sent(a.k, p)})
  }

  function Phased(s: State, k: nat, phase: Phase): State
    requires k in s.entries
  {
    s.(entries := s.entries[k := s.entries[k].(phase := phase)])
  }

  function Next(s: State, step: Step): State
    requires Possible(s, step)
  {
    match step
    case Arrive(id, dispatch) => Arrived(s, id, dispatch)
    case Refuse(k) => Phased(s, k, Refused)
    case AcceptFails(k) => Phased(s, k, Dropped).(inflight := s.inflight - {s.entries[k].id})
    case AcceptSent(k) => Phased(s, k, Admitted)
    case StartHandler(k) => Phased(s, k, Started)
    case Lookup(t, h) =>
      var id := s.entries[h].id;
      if id in s.inflight then s.(attempts := s.attempts[t := Looked(id, s.inflight[id])]) else s
    case TakeFlag(t) =>
      var a := s.attempts[t];
      if s.entries[a.k].claim.Free? then
        s.(entries := s.entries[a.k := s.entries[a.k].(claim := ByAttempt(t))],
           attempts := s.attempts[t := Claimed(a.id, a.k)])
      else s.(attempts := s.attempts - {t})
    case Bind(t) =>
      var a := s.attempts[t];
      if a.id in s.inflight then s.(attempts := s.attempts[t := Bound(a.id, a.k, s.inflight[a.id])])
      else s.(entries := s.entries[a.k := s.entries[a.k].(claim := Free)], attempts := s.attempts - {t})
    case GiveUp(t) =>
      var a := s.attempts[t];
      s.(entries := s.entries[a.k := s.entries[a.k].(claim := Free)], attempts := s.attempts - {t})
    case Record(_, _, _, _, _, _) => Kept(s, step)
    case Retry(ids) => Retried(s, ids)
    case TakeAck(u, id, receipt) =>
      if Takes(s, id, receipt) then Taken(s, u, id) else s
    case Retire(u) => Completed(s, u)
    case Reconnect => s.(generation := s.generation + 1)
  }

  /** The incarnation a submission finds in flight. */
  function Found(s: State, step: Step): Option<Entry> {
    if step.Lookup? && step.handle in s.entries && s.entries[step.handle].id in s.inflight
       && s.inflight[s.entries[step.handle].id] in s.entries
    then Some(s.entries[s.inflight[s.entries[step.handle].id]]) else None
  }

  /** A submission does not find an incarnation whose admission is still unwritten. */
  predicate Settled(s: State, step: Step) {
    Found(s, step).Some? ==> Found(s, step).value.Decided()
  }

  /** A submission finds nothing, or an incarnation that was started or refused. */
  predicate Fresh(s: State, step: Step) {
    Found(s, step).Some? ==> Found(s, step).value.Submits()
  }

  /** What a caller can keep to: nothing is submitted through a handle whose own result
      has already been retired. */
  predicate Disciplined(s: State, step: Step) {
    step.Lookup? && step.handle in s.entries ==> !s.entries[step.handle].claim.Retired?
  }

  predicate PossibleRun(s: State, steps: seq<Step>)
    decreases |steps|
  {
    steps != [] ==> Possible(s, steps[0]) && PossibleRun(Next(s, steps[0]), steps[1..])
  }

  predicate SettledRun(s: State, steps: seq<Step>)
    decreases |steps|
  {
    steps != [] ==> Possible(s, steps[0]) && Settled(s, steps[0]) && SettledRun(Next(s, steps[0]), steps[1..])
  }

  predicate FreshRun(s: State, steps: seq<Step>)
    decreases |steps|
  {
    steps != [] ==> Possible(s, steps[0]) && Fresh(s, steps[0]) && FreshRun(Next(s, steps[0]), steps[1..])
  }

  predicate DisciplinedRun(s: State, steps: seq<Step>)
    decreases |steps|
  {
    steps != [] ==> Possible(s, steps[0]) && Disciplined(s, steps[0]) && DisciplinedRun(Next(s, steps[0]), steps[1..])
  }

  function Run(s: State, steps: seq<Step>): State
    requires PossibleRun(s, steps)
    decreases |steps|
  {
    if steps == [] then s else Run(Next(s, steps[0]), steps[1..])
  }

  // ---------------------------------------------------------------- the invariant

  predicate EntryOk(inflight: map<string, nat>, k: nat, e: Entry) {
    && e.dispatch != "" && (e.phase.Dropped? ==> e.claim.Free?)
    && (!e.claim.Free? ==> e.Decided())
    && (!e.phase.Dropped? && !e.claim.Retired? ==> e.id in inflight && inflight[e.id] == k)
    && (e.recorded.Some? <==> e.claim.InPending? || e.claim.ByAck? || e.claim.Retired?)
  }

  predicate InflightOk(entries: map<nat, Entry>, seen: seq<string>, id: string, k: nat) {
    && k in entries && entries[k].id == id && !entries[k].phase.Dropped? && !entries[k].claim.Retired?
    && id !in seen
  }

  predicate AttemptOk(entries: map<nat, Entry>, t: nat, a: Attempt) {
    && a.k in entries && entries[a.k].id == a.id && entries[a.k].Decided()
    && (!a.Looked? ==> entries[a.k].claim == ByAttempt(t))
    && (a.Bound? ==> a.again == a.k)
  }

  /** A result of incarnation `k`: the recorded outcome, with its own dispatch ID. */
  predicate OutcomeOk(entries: map<nat, Entry>, k: nat, p: Payload) {
    && k in entries && entries[k].recorded.Some? && p.SameOutcome(entries[k].recorded.value)
    && p.dispatch == entries[k].dispatch && p.invocation == entries[k].id
  }

  predicate ResultOk(entries: map<nat, Entry>, id: string, r: Result, claim: Claim) {
    && OutcomeOk(entries, r.incarnation, r.payload) && entries[r.incarnation].id == id
    && entries[r.incarnation].claim == claim && r.generation == entries[r.incarnation].generation
    && r.payload.base <= MAX_WIRE - RESERVE && r.encoded <= MAX_WIRE - RESERVE
  }

  predicate EntriesOk(entries: map<nat, Entry>, made: nat, inflight: map<string, nat>) {
    forall k :: k in entries ==> k < made && EntryOk(inflight, k, entries[k])
  }

  predicate InflightsOk(entries: map<nat, Entry>, seen: seq<string>, inflight: map<string, nat>) {
    forall id :: id in inflight ==> InflightOk(entries, seen, id, inflight[id])
  }

  predicate AttemptsOk(entries: map<nat, Entry>, attempts: map<nat, Attempt>) {
    forall t :: t in attempts ==> AttemptOk(entries, t, attempts[t])
  }

  predicate PendingOk(entries: map<nat, Entry>, pending: map<string, Result>) {
    forall id :: id in pending ==> ResultOk(entries, id, pending[id], InPending)
  }

  predicate AcksOk(entries: map<nat, Entry>, acks: map<nat, Ack>) {
    forall u :: u in acks ==> ResultOk(entries, acks[u].id, acks[u].result, ByAck(u))
  }

  predicate CachedOk(entries: map<nat, Entry>, items: map<string, Result>) {
    forall id :: id in items ==> ResultOk(entries, id, items[id], Retired)
  }

  predicate SendsOk(entries: map<nat, Entry>, sends: set<Sent>) {
    forall x :: x in sends ==> OutcomeOk(entries, x.incarnation, x.payload)
  }

  predicate Uncached(inflight: map<string, nat>, items: map<string, Result>) {
    forall id :: id in inflight ==> id !in items
  }

  ghost predicate Inv(s: State) {
    && s.limits.Valid() && |s.inflight| <= s.limits.active && s.completed.Valid()
    && s.seen == AddAll(s.retired, s.limits.seen)
    && EntriesOk(s.entries, s.made, s.inflight) && InflightsOk(s.entries, s.seen, s.inflight)
    && AttemptsOk(s.entries, s.attempts) && PendingOk(s.entries, s.pending) && AcksOk(s.entries, s.acks)
    && CachedOk(s.entries, s.completed.items) && SendsOk(s.entries, s.sends) && Uncached(s.inflight, s.completed.items)
  }

  // ---------------------------------------------------------------- changing one entry

  /** What every change of an entry keeps. */
  predicate Grows(e: Entry, e': Entry) {
    && e'.id == e.id && e'.dispatch == e.dispatch && e'.generation == e.generation
    && (e.recorded.Some? ==> e'.recorded == e.recorded) && (e.Decided() ==> e'.Decided())
  }

  lemma AttemptsFrame(entries: map<nat, Entry>, attempts: map<nat, Attempt>, k: nat, e': Entry)
    requires AttemptsOk(entries, attempts) && k in entries && Grows(entries[k], e')
    requires e'.claim == entries[k].claim || !entries[k].claim.ByAttempt?
    ensures AttemptsOk(entries[k := e'], attempts)
  {
    forall t | t in attempts ensures AttemptOk(entries[k := e'], t, attempts[t]) {
      assert AttemptOk(entries, t, attempts[t]);
    }
  }

  /** Letting go of a flag its only holder leaves with. */
  lemma AttemptsRelease(entries: map<nat, Entry>, attempts: map<nat, Attempt>, t: nat, e': Entry)
    requires AttemptsOk(entries, attempts) && t in attempts && !attempts[t].Looked? && attempts[t].k in entries
    requires Grows(entries[attempts[t].k], e')
    ensures AttemptsOk(entries[attempts[t].k := e'], attempts - {t})
  {
    forall x | x in attempts - {t} ensures AttemptOk(entries[attempts[t].k := e'], x, attempts[x]) {
      assert AttemptOk(entries, x, attempts[x]) && AttemptOk(entries, t, attempts[t]);
    }
  }

  lemma PendingFrame(entries: map<nat, Entry>, pending: map<string, Result>, k: nat, e': Entry)
    requires PendingOk(entries, pending) && k in entries && Grows(entries[k], e')
    requires e'.claim == entries[k].claim || !entries[k].claim.InPending?
    ensures PendingOk(entries[k := e'], pending)
  {
    forall id | id in pending ensures ResultOk(entries[k := e'], id, pending[id], InPending) {
      assert ResultOk(entries, id, pending[id], InPending);
    }
  }

  lemma AcksFrame(entries: map<nat, Entry>, acks: map<nat, Ack>, k: nat, e': Entry)
    requires AcksOk(entries, acks) && k in entries && Grows(entries[k], e')
    requires e'.claim == entries[k].claim || !entries[k].claim.ByAck?
    ensures AcksOk(entries[k := e'], acks)
  {
    forall u | u in acks ensures ResultOk(entries[k := e'], acks[u].id, acks[u].result, ByAck(u)) {
      assert ResultOk(entries, acks[u].id, acks[u].result, ByAck(u));
    }
  }

  lemma CachedFrame(entries: map<nat, Entry>, items: map<string, Result>, k: nat, e': Entry)
    requires CachedOk(entries, items) && k in entries && Grows(entries[k], e')
    requires e'.claim == entries[k].claim || !entries[k].claim.Retired?
    ensures CachedOk(entries[k := e'], items)
  {
    forall id | id in items ensures ResultOk(entries[k := e'], id, items[id], Retired) {
      assert ResultOk(entries, id, items[id], Retired);
    }
  }

  lemma SendsFrame(entries: map<nat, Entry>, sends: set<Sent>, k: nat, e': Entry)
    requires SendsOk(entries, sends) && k in entries && Grows(entries[k], e')
    ensures SendsOk(entries[k := e'], sends)
  {
    forall x | x in sends ensures OutcomeOk(entries[k := e'], x.incarnation, x.payload) {
      assert OutcomeOk(entries, x.incarnation, x.payload);
    }
  }

  /** What was recorded, taken, cached or sent stays right when no claim changes. */
  lemma OutcomesFrame(s: State, k: nat, e': Entry)
    requires PendingOk(s.entries, s.pending) && AcksOk(s.entries, s.acks) && CachedOk(s.entries, s.completed.items)
    requires SendsOk(s.entries, s.sends) && k in s.entries && Grows(s.entries[k], e')
    requires e'.claim == s.entries[k].claim || s.entries[k].claim.Free? || s.entries[k].claim.ByAttempt?
    ensures PendingOk(s.entries[k := e'], s.pending) && AcksOk(s.entries[k := e'], s.acks)
    ensures CachedOk(s.entries[k := e'], s.completed.items) && SendsOk(s.entries[k := e'], s.sends)
  {
    PendingFrame(s.entries, s.pending, k, e');
    AcksFrame(s.entries, s.acks, k, e');
    CachedFrame(s.entries, s.completed.items, k, e');
    SendsFrame(s.entries, s.sends, k, e');
  }

  /** A change that neither drops nor retires an entry leaves what is in flight as it was. */
  lemma TableFrame(entries: map<nat, Entry>, made: nat, inflight: map<string, nat>, seen: seq<string>, k: nat, e': Entry)
    requires EntriesOk(entries, made, inflight) && InflightsOk(entries, seen, inflight)
    requires k in entries && e'.id == entries[k].id && EntryOk(inflight, k, e')
    requires (e'.phase.Dropped? ==> entries[k].phase.Dropped?) && (e'.claim.Retired? ==> entries[k].claim.Retired?)
    ensures EntriesOk(entries[k := e'], made, inflight) && InflightsOk(entries[k := e'], seen, inflight)
  {
    forall id | id in inflight ensures InflightOk(entries[k := e'], seen, id, inflight[id]) {
      assert InflightOk(entries, seen, id, inflight[id]);
    }
  }

  /** Taking an entry out of flight, dropped or retired. */
  lemma TableRemove(entries: map<nat, Entry>, made: nat, inflight: map<string, nat>, seen: seq<string>, seen': seq<string>,
                    k: nat, e': Entry)
    requires EntriesOk(entries, made, inflight) && InflightsOk(entries, seen, inflight)
    requires k in entries && e'.id == entries[k].id && e'.id in inflight && inflight[e'.id] == k
    requires EntryOk(inflight - {e'.id}, k, e')
    requires forall id :: id in seen' ==> id in seen || id == e'.id
    ensures
      var inflight' := inflight - {e'.id};
      && EntriesOk(entries[k := e'], made, inflight') && InflightsOk(entries[k := e'], seen', inflight')
      && |inflight'| <= |inflight|
  {
    var entries', inflight' := entries[k := e'], inflight - {e'.id};
    assert inflight'.Keys == inflight.Keys - {e'.id};
    forall j | j in entries' ensures j < made && EntryOk(inflight', j, entries'[j]) {
      assert EntryOk(inflight, j, entries[j]);
    }
    forall id | id in inflight && id != e'.id ensures InflightOk(entries[k := e'], seen', id, inflight[id]) {
      assert InflightOk(entries, seen, id, inflight[id]);
    }
  }

  // ---------------------------------------------------------------- every step keeps it

  lemma ReplayKeepsInv(s: State, id: string, dispatch: string)
    requires Inv(s) && id in s.completed.items
    ensures Inv(Arrived(s, id, dispatch))
  {
    TouchKeepsValid(s.completed, id);
    var cached := s.completed.items[id];
    assert ResultOk(s.entries, id, cached, Retired);
    var sent := Sent(cached.incarnation, cached.payload);
    assert SendsOk(s.entries, s.sends + {sent});
  }

  /** A new incarnation in flight changes nothing for the others. */
  lemma TableAdd(entries: map<nat, Entry>, made: nat, inflight: map<string, nat>, seen: seq<string>, e: Entry)
    requires EntriesOk(entries, made, inflight) && InflightsOk(entries, seen, inflight)
    requires e.dispatch != "" && e.id !in inflight && e.id !in seen && e.phase.Admitting? && e.claim.Free? && e.recorded.None?
    ensures made !in entries
    ensures EntriesOk(entries[made := e], made + 1, inflight[e.id := made])
    ensures InflightsOk(entries[made := e], seen, inflight[e.id := made])
    ensures |inflight[e.id := made]| == |inflight| + 1
  {
    var entries', inflight' := entries[made := e], inflight[e.id := made];
    assert inflight'.Keys == inflight.Keys + {e.id};
    forall k | k in entries' ensures k < made + 1 && EntryOk(inflight', k, entries'[k]) {
      if k != made { assert EntryOk(inflight, k, entries[k]); }
    }
  }

  lemma ThreadsAdd(s: State, e: Entry)
    requires s.made !in s.entries
    requires AttemptsOk(s.entries, s.attempts) && PendingOk(s.entries, s.pending) && AcksOk(s.entries, s.acks)
    requires CachedOk(s.entries, s.completed.items) && SendsOk(s.entries, s.sends)
    ensures
      var entries := s.entries[s.made := e];
      && AttemptsOk(entries, s.attempts) && PendingOk(entries, s.pending) && AcksOk(entries, s.acks)
      && CachedOk(entries, s.completed.items) && SendsOk(entries, s.sends)
  {
  }

  lemma ArriveKeepsInv(s: State, id: string, dispatch: string)
    requires Inv(s) && id !in s.completed.items && dispatch != ""
    ensures Inv(Arrived(s, id, dispatch))
  {
    if id !in s.seen && id !in s.inflight && |s.inflight| < s.limits.active {
      var e := Entry(id, dispatch, s.generation, Admitting, Free, None);
      TableAdd(s.entries, s.made, s.inflight, s.seen, e);
      ThreadsAdd(s, e);
    }
  }

  lemma PhaseKeepsInv(s: State, k: nat, phase: Phase)
    requires Inv(s) && k in s.entries && (s.entries[k].phase.Admitting? || s.entries[k].phase.Admitted?)
    requires !phase.Dropped? && !phase.Admitting?
    ensures Inv(Phased(s, k, phase))
  {
    var e' := s.entries[k].(phase := phase);
    assert EntryOk(s.inflight, k, s.entries[k]);
    TableFrame(s.entries, s.made, s.inflight, s.seen, k, e');
    AttemptsFrame(s.entries, s.attempts, k, e');
    OutcomesFrame(s, k, e');
  }

  lemma AcceptFailsKeepsInv(s: State, k: nat)
    requires Inv(s) && k in s.entries && s.entries[k].phase.Admitting?
    ensures Inv(Phased(s, k, Dropped).(inflight := s.inflight - {s.entries[k].id}))
  {
    var e' := s.entries[k].(phase := Dropped);
    assert EntryOk(s.inflight, k, s.entries[k]);
    TableRemove(s.entries, s.made, s.inflight, s.seen, s.seen, k, e');
    AttemptsFrame(s.entries, s.attempts, k, e');
    OutcomesFrame(s, k, e');
  }

  lemma LookupKeepsInv(s: State, step: Step)
    requires Inv(s) && step.Lookup? && Possible(s, step) && Settled(s, step)
    ensures Inv(Next(s, step))
  {
  }

  lemma TakeFlagKeepsInv(s: State, step: Step)
    requires Inv(s) && step.TakeFlag? && Possible(s, step)
    ensures Inv(Next(s, step))
  {
    var a := s.attempts[step.thread];
    assert AttemptOk(s.entries, step.thread, a);
    if s.entries[a.k].claim.Free? {
      var e' := s.entries[a.k].(claim := ByAttempt(step.thread));
      assert EntryOk(s.inflight, a.k, s.entries[a.k]);
      TableFrame(s.entries, s.made, s.inflight, s.seen, a.k, e');
      AttemptsClaim(s.entries, s.attempts, step.thread, e');
      OutcomesFrame(s, a.k, e');
    }
  }

  lemma AttemptsClaim(entries: map<nat, Entry>, attempts: map<nat, Attempt>, t: nat, e': Entry)
    requires AttemptsOk(entries, attempts) && t in attempts && attempts[t].k in entries
    requires entries[attempts[t].k].claim.Free? && Grows(entries[attempts[t].k], e') && e'.claim == ByAttempt(t)
    ensures AttemptsOk(entries[attempts[t].k := e'], attempts[t := Claimed(attempts[t].id, attempts[t].k)])
  {
    AttemptsFrame(entries, attempts, attempts[t].k, e');
  }

  lemma BindKeepsInv(s: State, step: Step)
    requires Inv(s) && step.Bind? && Possible(s, step)
    ensures Inv(Next(s, step))
  {
    var a := s.attempts[step.thread];
    assert AttemptOk(s.entries, step.thread, a);
    assert EntryOk(s.inflight, a.k, s.entries[a.k]);
  }

  lemma GiveUpKeepsInv(s: State, step: Step)
    requires Inv(s) && step.GiveUp? && Possible(s, step)
    ensures Inv(Next(s, step))
  {
    var a := s.attempts[step.thread];
    assert AttemptOk(s.entries, step.thread, a);
    assert EntryOk(s.inflight, a.k, s.entries[a.k]);
    var e' := s.entries[a.k].(claim := Free);
    TableFrame(s.entries, s.made, s.inflight, s.seen, a.k, e');
    AttemptsRelease(s.entries, s.attempts, step.thread, e');
    OutcomesFrame(s, a.k, e');
  }

  lemma RecordKeepsInv(s: State, step: Step)
    requires Inv(s) && step.Record? && Possible(s, step)
    ensures Inv(Next(s, step))
  {
    var a := s.attempts[step.thread];
    assert AttemptOk(s.entries, step.thread, a);
    assert EntryOk(s.inflight, a.k, s.entries[a.k]);
    var p := PayloadOf(s, step);
    var e' := s.entries[a.k].(claim := InPending, recorded := Some(p));
    TableFrame(s.entries, s.made, s.inflight, s.seen, a.k, e');
    AttemptsRelease(s.entries, s.attempts, step.thread, e');
    OutcomesFrame(s, a.k, e');
    OutcomePut(s.entries[a.k := e'], s.pending, s.sends, a.id, Result(a.k, p, s.entries[a.again].generation, p.Wire()));
  }

  lemma OutcomePut(entries: map<nat, Entry>, pending: map<string, Result>, sends: set<Sent>, id: string, r: Result)
    requires PendingOk(entries, pending) && SendsOk(entries, sends) && ResultOk(entries, id, r, InPending)
    ensures PendingOk(entries, pending[id := r]) && SendsOk(entries, sends + {Sent(r.incarnation, r.payload)})
  {
  }

  lemma RetryKeepsInv(s: State, step: Step)
    requires Inv(s) && step.Retry? && Possible(s, step)
    ensures Inv(Next(s, step))
  {
    var s' := Next(s, step);
    forall id | id in s'.pending ensures ResultOk(s'.entries, id, s'.pending[id], InPending) {
      assert ResultOk(s.entries, id, s.pending[id], InPending);
    }
    forall x | x in s'.sends ensures OutcomeOk(s'.entries, x.incarnation, x.payload) {
      if x !in s.sends {
        var id :| id in step.ids && x == Sent(s.pending[id].incarnation, Resent(s, id).payload);
        assert ResultOk(s.entries, id, s.pending[id], InPending);
      }
    }
  }

  lemma TakeAckKeepsInv(s: State, step: Step)
    requires Inv(s) && step.TakeAck? && Possible(s, step)
    ensures Inv(Next(s, step))
  {
    if Takes(s, step.id, step.receipt) { TakenKeepsInv(s, step.thread, step.id); }
  }

  lemma TakenKeepsInv(s: State, u: nat, id: string)
    requires Inv(s) && id in s.pending && s.pending[id].incarnation in s.entries && u !in s.acks
    ensures Inv(Taken(s, u, id))
  {
    var r := s.pending[id];
    var k := r.incarnation;
    assert ResultOk(s.entries, id, r, InPending);
    assert EntryOk(s.inflight, k, s.entries[k]);
    var e' := s.entries[k].(claim := ByAck(u));
    TableFrame(s.entries, s.made, s.inflight, s.seen, k, e');
    AttemptsFrame(s.entries, s.attempts, k, e');
    PendingTaken(s.entries, s.pending, id, e');
    AcksFrame(s.entries, s.acks, k, e');
    AcksPut(s.entries[k := e'], s.acks, u, id, r);
    CachedFrame(s.entries, s.completed.items, k, e');
    SendsFrame(s.entries, s.sends, k, e');
  }

  lemma AcksPut(entries: map<nat, Entry>, acks: map<nat, Ack>, u: nat, id: string, r: Result)
    requires AcksOk(entries, acks) && ResultOk(entries, id, r, ByAck(u))
    ensures AcksOk(entries, acks[u := Ack(id, r)])
  {
  }

  lemma PendingTaken(entries: map<nat, Entry>, pending: map<string, Result>, id: string, e': Entry)
    requires PendingOk(entries, pending) && id in pending && Grows(entries[pending[id].incarnation], e')
    ensures PendingOk(entries[pending[id].incarnation := e'], pending - {id})
  {
    var k := pending[id].incarnation;
    forall x | x in pending - {id} ensures ResultOk(entries[k := e'], x, pending[x], InPending) {
      assert ResultOk(entries, x, pending[x], InPending) && ResultOk(entries, id, pending[id], InPending);
    }
  }

  lemma AckTaken(entries: map<nat, Entry>, acks: map<nat, Ack>, u: nat, e': Entry)
    requires AcksOk(entries, acks) && u in acks && Grows(entries[acks[u].result.incarnation], e')
    ensures AcksOk(entries[acks[u].result.incarnation := e'], acks - {u})
  {
    var k := acks[u].result.incarnation;
    forall x | x in acks - {u} ensures ResultOk(entries[k := e'], acks[x].id, acks[x].result, ByAck(x)) {
      assert ResultOk(entries, acks[x].id, acks[x].result, ByAck(x));
      assert ResultOk(entries, acks[u].id, acks[u].result, ByAck(u));
    }
  }

  lemma CachedPut(entries: map<nat, Entry>, c: Cache<Result>, id: string, r: Result, limits: Limits)
    requires c.Valid() && CachedOk(entries, c.items) && ResultOk(entries, id, r, Retired)
    ensures
      var c' := Evict(c.Put(id, r, r.encoded), limits.cached, limits.cachedBytes);
      c'.Valid() && CachedOk(entries, c'.items) && forall x :: x in c'.items ==> x in c.items || x == id
  {
    PutKeepsValid(c, id, r, r.encoded);
    EvictKeepsValues(c.Put(id, r, r.encoded), limits.cached, limits.cachedBytes);
  }

  lemma RetireKeepsInv(s: State, step: Step)
    requires Inv(s) && step.Retire? && Possible(s, step)
    ensures Inv(Next(s, step))
  {
    var a := s.acks[step.thread];
    var k := a.result.incarnation;
    assert ResultOk(s.entries, a.id, a.result, ByAck(step.thread));
    assert EntryOk(s.inflight, k, s.entries[k]);
    var e' := s.entries[k].(claim := Retired);
    var log := s.retired + [a.id];
    assert log[..|log| - 1] == s.retired;
    TableRemove(s.entries, s.made, s.inflight, s.seen, AddTo(s.seen, a.id, s.limits.seen), k, e');
    AttemptsFrame(s.entries, s.attempts, k, e');
    PendingFrame(s.entries, s.pending, k, e');
    AckTaken(s.entries, s.acks, step.thread, e');
    CachedFrame(s.entries, s.completed.items, k, e');
    SendsFrame(s.entries, s.sends, k, e');
    CachedPut(s.entries[k := e'], s.completed, a.id, a.result, s.limits);
  }

  lemma StepKeepsInv(s: State, step: Step)
    requires Inv(s) && Possible(s, step) && Settled(s, step)
    ensures Inv(Next(s, step))
  {
    match step
    case Arrive(id, dispatch) =>
      if id in s.completed.items { ReplayKeepsInv(s, id, dispatch); } else { ArriveKeepsInv(s, id, dispatch); }
    case AcceptFails(k) => AcceptFailsKeepsInv(s, k);
    case Refuse(k) => PhaseKeepsInv(s, k, Refused);
    case AcceptSent(k) => PhaseKeepsInv(s, k, Admitted);
    case StartHandler(k) => PhaseKeepsInv(s, k, Started);
    case Lookup(_, _) => LookupKeepsInv(s, step);
    case TakeFlag(_) => TakeFlagKeepsInv(s, step);
    case Bind(_) => BindKeepsInv(s, step);
    case GiveUp(_) => GiveUpKeepsInv(s, step);
    case Record(_, _, _, _, _, _) => RecordKeepsInv(s, step);
    case Retry(_) => RetryKeepsInv(s, step);
    case TakeAck(_, _, _) => TakeAckKeepsInv(s, step);
    case Retire(_) => RetireKeepsInv(s, step);
    case Reconnect => assert Next(s, step) == s.(generation := s.generation + 1);
  }

  lemma {:induction false} RunKeepsInv(s: State, steps: seq<Step>)
    requires Inv(s) && SettledRun(s, steps)
    ensures PossibleRun(s, steps) && Inv(Run(s, steps))
    decreases |steps|
  {
    if steps != [] {
      StepKeepsInv(s, steps[0]);
      RunKeepsInv(Next(s, steps[0]), steps[1..]);
    }
  }

  // ---------------------------------------------------------------- fresh submissions keep more

  /** Only incarnations started or refused are claimed. */
  predicate ClaimsOk(entries: map<nat, Entry>, attempts: map<nat, Attempt>) {
    && (forall k :: k in entries && !entries[k].claim.Free? ==> entries[k].Submits())
    && (forall t :: t in attempts ==> attempts[t].k in entries && entries[attempts[t].k].Submits())
  }

  ghost predicate FreshInv(s: State) {
    Inv(s) && ClaimsOk(s.entries, s.attempts)
  }

  lemma FreshIsSettled(s: State, step: Step)
    requires Fresh(s, step)
    ensures Settled(s, step)
  {
  }

  /** Any change of an entry that keeps it started or refused once it is, and does not
      claim it before. */
  lemma ClaimsFrame(entries: map<nat, Entry>, attempts: map<nat, Attempt>, k: nat, e': Entry)
    requires ClaimsOk(entries, attempts) && k in entries
    requires (entries[k].Submits() ==> e'.Submits()) && (e'.claim.Free? || e'.Submits())
    ensures ClaimsOk(entries[k := e'], attempts)
  {
  }

  lemma LookupKeepsClaims(s: State, step: Step)
    requires FreshInv(s) && step.Lookup? && Possible(s, step) && Fresh(s, step)
    ensures ClaimsOk(Next(s, step).entries, Next(s, step).attempts)
  {
    var id := s.entries[step.handle].id;
    if id in s.inflight { assert InflightOk(s.entries, s.seen, id, s.inflight[id]); }
  }

  lemma ThreadsKeepClaims(s: State, step: Step)
    requires ClaimsOk(s.entries, s.attempts) && Possible(s, step)
    requires step.TakeFlag? || step.Bind? || step.GiveUp? || step.Record?
    ensures ClaimsOk(Next(s, step).entries, Next(s, step).attempts)
  {
    var k, s' := s.attempts[step.thread].k, Next(s, step);
    ClaimsFrame(s.entries, s.attempts, k, s'.entries[k]);
    assert s'.entries == s.entries[k := s'.entries[k]];
  }

  lemma ArrivalsKeepClaims(s: State, id: string, dispatch: string)
    requires EntriesOk(s.entries, s.made, s.inflight) && ClaimsOk(s.entries, s.attempts)
    ensures ClaimsOk(Arrived(s, id, dispatch).entries, Arrived(s, id, dispatch).attempts)
  {
  }

  lemma ReceiptsKeepClaims(s: State, step: Step)
    requires FreshInv(s) && Possible(s, step) && (step.TakeAck? || step.Retire?)
    ensures ClaimsOk(Next(s, step).entries, Next(s, step).attempts)
  {
    if step.Retire? {
      var r := s.acks[step.thread].result;
      assert ResultOk(s.entries, s.acks[step.thread].id, r, ByAck(step.thread));
      ClaimsFrame(s.entries, s.attempts, r.incarnation, s.entries[r.incarnation].(claim := Retired));
    } else if Takes(s, step.id, step.receipt) {
      var r := s.pending[step.id];
      assert ResultOk(s.entries, step.id, r, InPending);
      ClaimsFrame(s.entries, s.attempts, r.incarnation, s.entries[r.incarnation].(claim := ByAck(step.thread)));
    }
  }

  lemma StepKeepsFreshInv(s: State, step: Step)
    requires FreshInv(s) && Possible(s, step) && Fresh(s, step)
    ensures FreshInv(Next(s, step))
  {
    FreshIsSettled(s, step);
    StepKeepsInv(s, step);
    StepKeepsClaims(s, step);
  }

  lemma StepKeepsClaims(s: State, step: Step)
    requires FreshInv(s) && Possible(s, step) && Fresh(s, step)
    ensures ClaimsOk(Next(s, step).entries, Next(s, step).attempts)
  {
    match step
    case Arrive(id, dispatch) => ArrivalsKeepClaims(s, id, dispatch);
    case AcceptFails(k) => ClaimsFrame(s.entries, s.attempts, k, s.entries[k].(phase := Dropped));
    case Refuse(k) => ClaimsFrame(s.entries, s.attempts, k, s.entries[k].(phase := Refused));
    case AcceptSent(k) => ClaimsFrame(s.entries, s.attempts, k, s.entries[k].(phase := Admitted));
    case StartHandler(k) => ClaimsFrame(s.entries, s.attempts, k, s.entries[k].(phase := Started));
    case Lookup(_, _) => LookupKeepsClaims(s, step);
    case Retry(_) => assert Next(s, step).entries == s.entries && Next(s, step).attempts == s.attempts;
    case TakeAck(_, _, _) => ReceiptsKeepClaims(s, step);
    case Retire(_) => ReceiptsKeepClaims(s, step);
    case Reconnect => assert Next(s, step).entries == s.entries && Next(s, step).attempts == s.attempts;
    case _ => ThreadsKeepClaims(s, step);
  }

  lemma {:induction false} RunKeepsFreshInv(s: State, steps: seq<Step>)
    requires FreshInv(s) && FreshRun(s, steps)
    ensures PossibleRun(s, steps) && FreshInv(Run(s, steps))
    decreases |steps|
  {
    if steps != [] {
      StepKeepsFreshInv(s, steps[0]);
      RunKeepsFreshInv(Next(s, steps[0]), steps[1..]);
    }
  }

  lemma {:induction false} FreshRunIsSettled(s: State, steps: seq<Step>)
    requires FreshRun(s, steps)
    ensures SettledRun(s, steps)
    decreases |steps|
  {
    if steps != [] {
      FreshIsSettled(s, steps[0]);
      FreshRunIsSettled(Next(s, steps[0]), steps[1..]);
    }
  }

  /** A handle whose result is not retired is the one in flight. */
  lemma DisciplinedIsFresh(s: State, step: Step)
    requires Inv(s) && Possible(s, step) && Disciplined(s, step)
    ensures Fresh(s, step)
  {
    if step.Lookup? { assert EntryOk(s.inflight, step.handle, s.entries[step.handle]); }
  }

  /** Keeping to the rule on retired handles is enough for everything below. */
  lemma {:induction false} DisciplinedRunIsFresh(s: State, steps: seq<Step>)
    requires FreshInv(s) && DisciplinedRun(s, steps)
    ensures FreshRun(s, steps) && SettledRun(s, steps) && PossibleRun(s, steps)
    decreases |steps|
  {
    if steps != [] {
      DisciplinedIsFresh(s, steps[0]);
      StepKeepsFreshInv(s, steps[0]);
      DisciplinedRunIsFresh(Next(s, steps[0]), steps[1..]);
    }
  }

  // ---------------------------------------------------------------- every run

  function RetainedBytes(pending: map<string, Result>, ids: seq<string>): nat
    requires forall id :: id in ids ==> id in pending
  {
    if ids == [] then 0 else pending[ids[0]].payload.Wire() + RetainedBytes(pending, ids[1..])
  }

  lemma {:induction false} RetainedAtMost(pending: map<string, Result>, ids: seq<string>, each: nat)
    requires forall id :: id in ids ==> id in pending && pending[id].payload.Wire() <= each
    ensures RetainedBytes(pending, ids) <= |ids| * each
    decreases |ids|
  {
    if ids != [] {
      RetainedAtMost(pending, ids[1..], each);
      assert |ids| * each == (|ids| - 1) * each + each;
    }
  }

  /** Every retained result belongs to an invocation in flight, at most 64 are in
      flight, and a retained wire stays below the frame limit whichever way a retry
      sets its flag; all of them together stay below 32 MiB. */
  lemma RetainedResultsAreBounded(steps: seq<Step>, ids: seq<string>)
    requires SettledRun(Start(SDK_LIMITS), steps) && PossibleRun(Start(SDK_LIMITS), steps)
    requires Lists(Run(Start(SDK_LIMITS), steps), ids)
    ensures Bounded(Run(Start(SDK_LIMITS), steps), ids)
  {
    RunKeepsInv(Start(SDK_LIMITS), steps);
    LimitsNeverChange(Start(SDK_LIMITS), steps);
    StateIsBounded(Run(Start(SDK_LIMITS), steps), ids);
  }

  /** Some retained results, each once. */
  predicate Lists(s: State, ids: seq<string>) {
    NoDuplicates(ids) && forall id :: id in ids ==> id in s.pending
  }

  predicate Bounded(s: State, ids: seq<string>)
    requires Lists(s, ids)
  {
    && s.pending.Keys <= s.inflight.Keys && |s.inflight| <= 64
    && (forall id :: id in s.pending ==> s.pending[id].payload.base + 17 < MAX_WIRE)
    && RetainedBytes(s.pending, ids) < MAX_PENDING
  }

  lemma StateIsBounded(s: State, ids: seq<string>)
    requires Inv(s) && s.limits == SDK_LIMITS && Lists(s, ids)
    ensures Bounded(s, ids)
  {
    PendingInFlight(s);
    WiresFit(s);
    RetainedFit(s, ids);
  }

  lemma WiresFit(s: State)
    requires Inv(s)
    ensures forall id :: id in s.pending ==> s.pending[id].payload.base <= MAX_WIRE - RESERVE
  {
    forall id | id in s.pending ensures s.pending[id].payload.base <= MAX_WIRE - RESERVE {
      assert ResultOk(s.entries, id, s.pending[id], InPending);
    }
  }

  lemma RetainedFit(s: State, ids: seq<string>)
    requires s.pending.Keys <= s.inflight.Keys && |s.inflight| <= 64
    requires forall id :: id in s.pending ==> s.pending[id].payload.base <= MAX_WIRE - RESERVE
    requires NoDuplicates(ids) && forall id :: id in ids ==> id in s.pending
    ensures RetainedBytes(s.pending, ids) < MAX_PENDING
  {
    var each := MAX_WIRE - RESERVE + 17;
    RetainedAtMost(s.pending, ids, each);
    DistinctCount(ids);
    SubsetCount(Elements(ids), s.inflight.Keys);
    assert |s.inflight.Keys| == |s.inflight|;
    assert |ids| * each <= 64 * each;
  }

  lemma PendingInFlight(s: State)
    requires Inv(s)
    ensures s.pending.Keys <= s.inflight.Keys
  {
    forall id | id in s.pending ensures id in s.inflight {
      assert ResultOk(s.entries, id, s.pending[id], InPending);
      var k := s.pending[id].incarnation;
      assert EntryOk(s.inflight, k, s.entries[k]);
    }
  }

  lemma {:induction false} LimitsNeverChange(s: State, steps: seq<Step>)
    requires PossibleRun(s, steps)
    ensures Run(s, steps).limits == s.limits
    decreases |steps|
  {
    if steps != [] { LimitsNeverChange(Next(s, steps[0]), steps[1..]); }
  }

  /** Every result ever sent for one incarnation (first send, retry or replay from the
      cache) is the one first recorded, up to the reconcile flag, under its own
      dispatch ID. */
  lemma OneOutcome(limits: Limits, steps: seq<Step>, x: Sent, y: Sent)
    requires limits.Valid() && SettledRun(Start(limits), steps) && PossibleRun(Start(limits), steps)
    requires var s := Run(Start(limits), steps); x in s.sends && y in s.sends && x.incarnation == y.incarnation
    ensures
      var s := Run(Start(limits), steps);
      && x.payload.SameOutcome(y.payload)
      && x.incarnation in s.entries && x.payload.dispatch == s.entries[x.incarnation].dispatch
      && x.payload.invocation == s.entries[x.incarnation].id
  {
    RunKeepsInv(Start(limits), steps);
    var s := Run(Start(limits), steps);
    assert OutcomeOk(s.entries, x.incarnation, x.payload) && OutcomeOk(s.entries, y.incarnation, y.payload);
  }

  /** The step that keeps the result `p` of incarnation `k`: its thread holds `k`, and
      the outcome it was given is the one in `p`. */
  predicate RecordsAs(s: State, step: Step, k: nat, p: Payload) {
    && step.Record? && step.thread in s.attempts && s.attempts[step.thread].k == k
    && p.ok == step.ok && p.envelope == step.envelope && p.aad == step.aad && p.code == step.code && p.base == step.base
  }

  /** Some step of the run kept the result `p` of incarnation `k`. */
  predicate Submitted(s: State, steps: seq<Step>, k: nat, p: Payload)
    requires PossibleRun(s, steps)
    decreases |steps|
  {
    steps != [] && (RecordsAs(s, steps[0], k, p) || Submitted(Next(s, steps[0]), steps[1..], k, p))
  }

  predicate HasRecorded(s: State, k: nat, p: Payload) {
    k in s.entries && s.entries[k].recorded == Some(p)
  }

  lemma StepRecords(s: State, step: Step, k: nat, p: Payload)
    requires Possible(s, step) && HasRecorded(Next(s, step), k, p)
    ensures HasRecorded(s, k, p) || RecordsAs(s, step, k, p)
  {
  }

  lemma {:induction false} RecordedWasSubmitted(s: State, steps: seq<Step>, k: nat, p: Payload)
    requires PossibleRun(s, steps) && HasRecorded(Run(s, steps), k, p)
    ensures HasRecorded(s, k, p) || Submitted(s, steps, k, p)
    decreases |steps|
  {
    if steps != [] {
      RecordedWasSubmitted(Next(s, steps[0]), steps[1..], k, p);
      if HasRecorded(Next(s, steps[0]), k, p) { StepRecords(s, steps[0], k, p); }
    }
  }

  lemma {:induction false} SubmittedAlike(s: State, steps: seq<Step>, k: nat, p: Payload, q: Payload)
    requires PossibleRun(s, steps) && p.SameOutcome(q) && Submitted(s, steps, k, q)
    ensures Submitted(s, steps, k, p)
    decreases |steps|
  {
    if !RecordsAs(s, steps[0], k, q) { SubmittedAlike(Next(s, steps[0]), steps[1..], k, p, q); }
  }

  /** Whatever is sent for an incarnation, at once, on a retry or from the cache, has
      the success flag, envelope, associated data and code of the submission that
      claimed that incarnation. */
  lemma SentIsWhatWasSubmitted(limits: Limits, steps: seq<Step>, x: Sent)
    requires limits.Valid() && SettledRun(Start(limits), steps) && PossibleRun(Start(limits), steps)
    requires x in Run(Start(limits), steps).sends
    ensures Submitted(Start(limits), steps, x.incarnation, x.payload)
  {
    RunKeepsInv(Start(limits), steps);
    var s := Run(Start(limits), steps);
    assert OutcomeOk(s.entries, x.incarnation, x.payload);
    var p := s.entries[x.incarnation].recorded.value;
    RecordedWasSubmitted(Start(limits), steps, x.incarnation, p);
    SubmittedAlike(Start(limits), steps, x.incarnation, x.payload, p);
  }

  /** A submission that fails gives its claim back: any other thread that has looked the
      same incarnation up can then claim it and go on to keep a result for it. */
  lemma GivenUpCanBeSubmittedAgain(limits: Limits, steps: seq<Step>, t: nat, u: nat)
    requires limits.Valid() && SettledRun(Start(limits), steps) && PossibleRun(Start(limits), steps)
    requires
      var s := Run(Start(limits), steps);
      && Possible(s, GiveUp(t)) && u in s.attempts && s.attempts[u].Looked? && s.attempts[u].k == s.attempts[t].k
    ensures
      var s := Run(Start(limits), steps);
      var s1 := Next(s, GiveUp(t));
      && t !in s1.attempts && Possible(s1, TakeFlag(u))
      && var s2 := Next(s1, TakeFlag(u));
         && Possible(s2, Bind(u)) && u in Next(s2, Bind(u)).attempts
         && Next(s2, Bind(u)).attempts[u] == Bound(s.attempts[u].id, s.attempts[u].k, s.attempts[u].k)
  {
    RunKeepsInv(Start(limits), steps);
    GiveUpFrees(Run(Start(limits), steps), t, u);
  }

  lemma GiveUpFrees(s: State, t: nat, u: nat)
    requires Inv(s) && Possible(s, GiveUp(t)) && u in s.attempts && s.attempts[u].Looked? && s.attempts[u].k == s.attempts[t].k
    ensures
      var s1 := Next(s, GiveUp(t));
      && t !in s1.attempts && Possible(s1, TakeFlag(u))
      && var s2 := Next(s1, TakeFlag(u));
         && Possible(s2, Bind(u)) && u in Next(s2, Bind(u)).attempts
         && Next(s2, Bind(u)).attempts[u] == Bound(s.attempts[u].id, s.attempts[u].k, s.attempts[u].k)
  {
    assert AttemptOk(s.entries, t, s.attempts[t]) && AttemptOk(s.entries, u, s.attempts[u]);
    assert EntryOk(s.inflight, s.attempts[t].k, s.entries[s.attempts[t].k]);
  }

  /** What an arriving dispatch does: a cached result is sent again exactly when the
      dispatch ID is its own; a new incarnation is admitted exactly when nothing is
      cached, the ID is not among those last retired, nothing is in flight under it
      and a slot is free; nothing else changes what is in flight or sent. */
  ghost predicate ArrivalDecided(s: State, s': State, id: string, dispatch: string) {
    var cached := s.completed.items;
    var replayed := id in cached && cached[id].payload.dispatch == dispatch;
    var admitted := id !in cached && !Recently(s.retired, id, s.limits.seen) && id !in s.inflight && |s.inflight| < s.limits.active;
    && s'.sends == (if replayed then s.sends + {Sent(cached[id].incarnation, cached[id].payload)} else s.sends)
    && (if admitted then
          && s'.made == s.made + 1 && s'.inflight == s.inflight[id := s.made] && s.made !in s.entries
          && s'.entries == s.entries[s.made := Entry(id, dispatch, s.generation, Admitting, Free, None)]
        else s'.made == s.made && s'.inflight == s.inflight && s'.entries == s.entries)
    && s'.pending == s.pending && s'.completed.items == cached && s'.seen == s.seen
  }

  /** In every settled run an arriving dispatch is decided so. */
  lemma ArrivalsDecideExactly(limits: Limits, steps: seq<Step>, id: string, dispatch: string)
    requires limits.Valid() && SettledRun(Start(limits), steps) && PossibleRun(Start(limits), steps) && dispatch != ""
    ensures ArrivalDecided(Run(Start(limits), steps), Next(Run(Start(limits), steps), Arrive(id, dispatch)), id, dispatch)
  {
    RunKeepsInv(Start(limits), steps);
    var s := Run(Start(limits), steps);
    WindowIsExact(s.retired, s.limits.seen, id);
    ArrivalDecides(s, id, dispatch);
  }

  lemma ArrivalDecides(s: State, id: string, dispatch: string)
    requires s.made !in s.entries && (id in s.seen <==> Recently(s.retired, id, s.limits.seen)) && dispatch != ""
    ensures ArrivalDecided(s, Next(s, Arrive(id, dispatch)), id, dispatch)
  {
  }

  /** A retried result carries the reconcile flag exactly when the connection has changed
      since its invocation was admitted, and is otherwise as it was. */
  lemma RetryFlagsReconnects(s: State, ids: set<string>, id: string)
    requires Inv(s) && Possible(s, Retry(ids)) && id in ids
    ensures
      var was, now := s.pending[id], Next(s, Retry(ids)).pending[id];
      && was.incarnation in s.entries && now == was.(payload := was.payload.(reconcile := now.payload.reconcile))
      && (now.payload.reconcile <==> s.entries[was.incarnation].generation != s.generation)
      && Sent(was.incarnation, now.payload) in Next(s, Retry(ids)).sends
  {
    assert ResultOk(s.entries, id, s.pending[id], InPending);
  }

  /** A handler starts only for the incarnation in flight under its ID, and only when
      the ID is not among the last `limits.seen` different IDs retired. */
  lemma StartsOutsideTheWindow(limits: Limits, steps: seq<Step>, k: nat)
    requires limits.Valid() && FreshRun(Start(limits), steps) && PossibleRun(Start(limits), steps)
    requires Possible(Run(Start(limits), steps), StartHandler(k))
    ensures
      var s := Run(Start(limits), steps);
      var id := s.entries[k].id;
      id in s.inflight && s.inflight[id] == k && !Recently(s.retired, id, limits.seen)
  {
    RunKeepsFreshInv(Start(limits), steps);
    LimitsNeverChange(Start(limits), steps);
    var s := Run(Start(limits), steps);
    var id := s.entries[k].id;
    assert EntryOk(s.inflight, k, s.entries[k]);
    assert InflightOk(s.entries, s.seen, id, k);
    WindowIsExact(s.retired, limits.seen, id);
  }

  predicate RetiredSince(s: State, s': State, id: string) {
    exists i :: |s.retired| <= i < |s'.retired| && s'.retired[i] == id
  }

  /** What a run keeps of an incarnation whose handler has started. */
  predicate Follows(s: State, s': State, k: nat)
    requires k in s.entries
  {
    && k in s'.entries && s'.entries[k].id == s.entries[k].id && s'.entries[k].phase.Started?
    && s.retired <= s'.retired
    && (s'.entries[k].claim.Retired? && !s.entries[k].claim.Retired? ==> RetiredSince(s, s', s.entries[k].id))
  }

  lemma RetireFollows(s: State, step: Step, k: nat)
    requires Inv(s) && step.Retire? && Possible(s, step) && k in s.entries && s.entries[k].phase.Started?
    ensures Follows(s, Next(s, step), k)
  {
    var a := s.acks[step.thread];
    var s' := Next(s, step);
    assert ResultOk(s.entries, a.id, a.result, ByAck(step.thread));
    assert s'.retired == s.retired + [a.id] && s'.retired[|s.retired|] == a.id;
  }

  lemma StepFollows(s: State, step: Step, k: nat)
    requires Possible(s, step) && !step.Retire? && k in s.entries && s.entries[k].phase.Started? && k < s.made
    ensures Follows(s, Next(s, step), k) && Next(s, step).retired == s.retired
  {
    var s' := Next(s, step);
    assert s'.retired == s.retired;
    assert k in s'.entries && s'.entries[k].id == s.entries[k].id && s'.entries[k].phase.Started?;
  }

  lemma FollowsOn(s: State, s1: State, s2: State, k: nat)
    requires k in s.entries && Follows(s, s1, k) && Follows(s1, s2, k)
    ensures Follows(s, s2, k)
  {
    if RetiredSince(s, s1, s.entries[k].id) {
      var i :| |s.retired| <= i < |s1.retired| && s1.retired[i] == s.entries[k].id;
      assert s2.retired[i] == s.entries[k].id;
    }
    if RetiredSince(s1, s2, s.entries[k].id) {
      var i :| |s1.retired| <= i < |s2.retired| && s2.retired[i] == s.entries[k].id;
      assert |s.retired| <= i;
    }
  }

  lemma {:induction false} RunFollows(s: State, steps: seq<Step>, k: nat)
    requires FreshInv(s) && FreshRun(s, steps) && PossibleRun(s, steps) && k in s.entries && s.entries[k].phase.Started?
    ensures Follows(s, Run(s, steps), k)
    decreases |steps|
  {
    if steps != [] {
      var s1 := Next(s, steps[0]);
      StepKeepsFreshInv(s, steps[0]);
      if steps[0].Retire? { RetireFollows(s, steps[0], k); } else { StepFollows(s, steps[0], k); }
      RunFollows(s1, steps[1..], k);
      FollowsOn(s, s1, Run(s1, steps[1..]), k);
    }
  }

  lemma FirstStart(s: State, first: nat)
    requires FreshInv(s) && Possible(s, StartHandler(first))
    ensures
      var s1 := Next(s, StartHandler(first));
      && FreshInv(s1) && s1.limits == s.limits && first in s1.entries
      && s1.entries[first].phase.Started? && !s1.entries[first].claim.Retired?
  {
    StepKeepsFreshInv(s, StartHandler(first));
    assert EntryOk(s.inflight, first, s.entries[first]);
  }

  /** Two starts for one invocation ID in a run: in between the ID was retired and then
      pushed out by as many other retired IDs as the window holds. */
  lemma SecondStartNeedsEviction(limits: Limits, before: seq<Step>, first: nat, between: seq<Step>, second: nat)
    requires limits.Valid() && FreshRun(Start(limits), before) && PossibleRun(Start(limits), before)
    requires Possible(Run(Start(limits), before), StartHandler(first))
    requires var s1 := Next(Run(Start(limits), before), StartHandler(first));
      && FreshRun(s1, between) && PossibleRun(s1, between) && Possible(Run(s1, between), StartHandler(second))
      && Run(s1, between).entries[second].id == s1.entries[first].id
    ensures
      var s1 := Next(Run(Start(limits), before), StartHandler(first));
      var s2 := Run(s1, between);
      var id := s1.entries[first].id;
      first != second && RetiredSince(s1, s2, id) && !Recently(s2.retired, id, limits.seen)
  {
    RunKeepsFreshInv(Start(limits), before);
    LimitsNeverChange(Start(limits), before);
    var s0 := Run(Start(limits), before);
    FirstStart(s0, first);
    RestartNeedsEviction(Next(s0, StartHandler(first)), first, between, second);
  }

  lemma RestartNeedsEviction(s: State, first: nat, between: seq<Step>, second: nat)
    requires FreshInv(s) && first in s.entries && s.entries[first].phase.Started? && !s.entries[first].claim.Retired?
    requires FreshRun(s, between) && PossibleRun(s, between) && Possible(Run(s, between), StartHandler(second))
    requires Run(s, between).entries[second].id == s.entries[first].id
    ensures
      var s' := Run(s, between);
      var id := s.entries[first].id;
      first != second && RetiredSince(s, s', id) && !Recently(s'.retired, id, s.limits.seen)
  {
    RunKeepsFreshInv(s, between);
    LimitsNeverChange(s, between);
    RunFollows(s, between, first);
    var s' := Run(s, between);
    var id := s.entries[first].id;
    assert EntryOk(s'.inflight, first, s'.entries[first]) && EntryOk(s'.inflight, second, s'.entries[second]);
    assert InflightOk(s'.entries, s'.seen, id, second);
    WindowIsExact(s'.retired, s.limits.seen, id);
  }

  // ---------------------------------------------------------------- under the callers' rule

  /** Every result sent for an incarnation carries its own IDs and one outcome. */
  predicate OneOutcomeEach(s: State) {
    forall x, y :: x in s.sends && y in s.sends && x.incarnation == y.incarnation ==>
      && x.payload.SameOutcome(y.payload) && x.incarnation in s.entries
      && x.payload.dispatch == s.entries[x.incarnation].dispatch && x.payload.invocation == s.entries[x.incarnation].id
  }

  /** Whatever handler can start now is in flight and outside the duplicate window. */
  predicate StartsAreNew(s: State) {
    forall k :: k in s.entries && s.entries[k].phase.Admitted? ==>
      var id := s.entries[k].id;
      id in s.inflight && s.inflight[id] == k && !Recently(s.retired, id, s.limits.seen)
  }

  ghost predicate Guaranteed(s: State) {
    (forall ids :: Lists(s, ids) ==> Bounded(s, ids)) && OneOutcomeEach(s) && StartsAreNew(s)
  }

  /** As long as nothing is submitted through a handle whose result was already
      retired, the client keeps every guarantee above. */
  lemma DisciplineIsEnough(steps: seq<Step>)
    requires DisciplinedRun(Start(SDK_LIMITS), steps)
    ensures PossibleRun(Start(SDK_LIMITS), steps) && Guaranteed(Run(Start(SDK_LIMITS), steps))
  {
    StartFreshInv(SDK_LIMITS);
    DisciplinedRunIsFresh(Start(SDK_LIMITS), steps);
    RunKeepsFreshInv(Start(SDK_LIMITS), steps);
    LimitsNeverChange(Start(SDK_LIMITS), steps);
    FreshStatesKeep(Run(Start(SDK_LIMITS), steps));
  }

  lemma StartFreshInv(limits: Limits)
    requires limits.Valid()
    ensures FreshInv(Start(limits))
  {
  }

  lemma FreshStatesKeep(s: State)
    requires FreshInv(s) && s.limits == SDK_LIMITS
    ensures Guaranteed(s)
  {
    forall ids | Lists(s, ids) ensures Bounded(s, ids) { StateIsBounded(s, ids); }
    forall x | x in s.sends ensures OutcomeOk(s.entries, x.incarnation, x.payload) {}
    forall k | k in s.entries && s.entries[k].phase.Admitted?
      ensures s.entries[k].id in s.inflight && s.inflight[s.entries[k].id] == k
      ensures !Recently(s.retired, s.entries[k].id, s.limits.seen)
    {
      assert EntryOk(s.inflight, k, s.entries[k]);
      assert InflightOk(s.entries, s.seen, s.entries[k].id, k);
      WindowIsExact(s.retired, s.limits.seen, s.entries[k].id);
    }
  }

  lemma DisciplinedSecondStart(limits: Limits, before: seq<Step>, first: nat, between: seq<Step>, second: nat)
    requires limits.Valid() && DisciplinedRun(Start(limits), before) && PossibleRun(Start(limits), before)
    requires Possible(Run(Start(limits), before), StartHandler(first))
    requires var s1 := Next(Run(Start(limits), before), StartHandler(first));
      && DisciplinedRun(s1, between) && PossibleRun(s1, between) && Possible(Run(s1, between), StartHandler(second))
      && Run(s1, between).entries[second].id == s1.entries[first].id
    ensures
      var s1 := Next(Run(Start(limits), before), StartHandler(first));
      var s2 := Run(s1, between);
      var id := s1.entries[first].id;
      first != second && RetiredSince(s1, s2, id) && !Recently(s2.retired, id, limits.seen)
  {
    DisciplinedRunIsFresh(Start(limits), before);
    RunKeepsFreshInv(Start(limits), before);
    StepKeepsFreshInv(Run(Start(limits), before), StartHandler(first));
    DisciplinedRunIsFresh(Next(Run(Start(limits), before), StartHandler(first)), between);
    SecondStartNeedsEviction(limits, before, first, between, second);
  }
}
