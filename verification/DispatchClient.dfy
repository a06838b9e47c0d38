/** The client object's dispatch state (sdk/dispatch.go): each critical section
    changes the fields exactly as the matching step of the dispatch model. */
module DispatchClient {
  import opened Bytes
  import opened Lru
  import opened Dispatch

  /** A kept result with its flag set for the current connection. */
  function Flagged(r: Result, generation: nat): Result {
    r.(payload := r.payload.(reconcile := r.generation != generation))
  }

  // ---------------------------------------------------------------- which results are due

  /** When a kept result is to be sent again, and how often it was sent, up to five. */
  datatype Schedule = Schedule(retryAt: int, attempts: nat) {
    /** Five seconds, doubled for every further attempt up to eighty. */
    function Again(now: int): Schedule {
      var attempts' := if attempts + 1 > 5 then 5 else attempts + 1;
      Schedule(now + Delay(attempts'), attempts')
    }
  }

  function Delay(attempts: nat): int {
    if attempts <= 1 then 5 else if attempts == 2 then 10 else if attempts == 3 then 20 else if attempts == 4 then 40 else 80
  }

  /** A result is sent again after at least five and at most eighty seconds, and never
      sooner than after the time before. */
  lemma DelaysGrow(s: Schedule, now: int, later: int)
    requires 1 <= s.attempts <= 5
    ensures 5 <= s.Again(now).retryAt - now <= 80 && 1 <= s.Again(now).attempts <= 5
    ensures s.Again(now).retryAt - now <= s.Again(now).Again(later).retryAt - later
  {
  }

  predicate Due(schedule: map<string, Schedule>, id: string, now: int, force: bool) {
    id in schedule && (force || schedule[id].retryAt <= now)
  }

  /** The order results are sent in: longest due first, then by ID. */
  predicate Sooner(schedule: map<string, Schedule>, a: string, b: string)
    requires a in schedule && b in schedule
  {
    schedule[a].retryAt < schedule[b].retryAt || (schedule[a].retryAt == schedule[b].retryAt && AtMost(a, b))
  }

  predicate Ordered(schedule: map<string, Schedule>, ids: seq<string>) {
    && (forall id :: id in ids ==> id in schedule)
    && forall i, j :: 0 <= i < j < |ids| ==> Sooner(schedule, ids[i], ids[j])
  }

  /** Puts one ID into an ordered list. */
  function Insert(schedule: map<string, Schedule>, ids: seq<string>, id: string): seq<string>
    requires Ordered(schedule, ids) && id in schedule
  {
    if ids == [] then [id]
    else if Sooner(schedule, id, ids[0]) then [id] + ids
    else [ids[0]] + Insert(schedule, ids[1..], id)
  }

  lemma {:induction false} InsertAdds(schedule: map<string, Schedule>, ids: seq<string>, id: string, x: string)
    requires Ordered(schedule, ids) && id in schedule
    ensures x in Insert(schedule, ids, id) <==> x in ids || x == id
    decreases |ids|
  {
    if ids != [] {
      assert x in ids <==> x == ids[0] || x in ids[1..];
      if !Sooner(schedule, id, ids[0]) { InsertAdds(schedule, ids[1..], id, x); }
    }
  }

  lemma SoonerOn(schedule: map<string, Schedule>, a: string, b: string, c: string)
    requires a in schedule && b in schedule && c in schedule && Sooner(schedule, a, b) && Sooner(schedule, b, c)
    ensures Sooner(schedule, a, c)
  {
    if schedule[a].retryAt == schedule[c].retryAt { AtMostTransitive(a, b, c); }
  }

  lemma {:induction false} InsertOrders(schedule: map<string, Schedule>, ids: seq<string>, id: string)
    requires Ordered(schedule, ids) && id in schedule && id !in ids && NoDuplicates(ids)
    ensures var r := Insert(schedule, ids, id); Ordered(schedule, r) && NoDuplicates(r) && |r| == |ids| + 1
    decreases |ids|
  {
    if ids != [] {
      if Sooner(schedule, id, ids[0]) {
        forall j | 0 <= j < |ids| ensures Sooner(schedule, id, ids[j]) {
          if j > 0 { SoonerOn(schedule, id, ids[0], ids[j]); }
        }
      } else {
        var rest := ids[1..];
        InsertOrders(schedule, rest, id);
        AtMostTotal(id, ids[0]);
        var r := Insert(schedule, rest, id);
        forall x | x in r ensures Sooner(schedule, ids[0], x) && x != ids[0] {
          InsertAdds(schedule, rest, id, x);
          if x != id {
            var j :| 0 <= j < |rest| && rest[j] == x;
            assert rest[j] == ids[j + 1];
          }
        }
      }
    }
  }

  /** The first loop of retryPendingResults and its sort: all results that are due, in
      the order they are sent. */
  method DueInOrder(schedule: map<string, Schedule>, now: int, force: bool) returns (ids: seq<string>)
    ensures Ordered(schedule, ids) && NoDuplicates(ids)
    ensures forall id :: id in ids <==> Due(schedule, id, now, force)
  {
    ids := [];
    var rest := schedule.Keys;
    while rest != {}
      invariant rest <= schedule.Keys && Ordered(schedule, ids) && NoDuplicates(ids)
      invariant forall id :: id in ids <==> Due(schedule, id, now, force) && id !in rest
      decreases |rest|
    {
      var id :| id in rest;
      if force || schedule[id].retryAt <= now {
        InsertOrders(schedule, ids, id);
        forall x ensures x in Insert(schedule, ids, id) <==> x in ids || x == id { InsertAdds(schedule, ids, id, x); }
        ids := Insert(schedule, ids, id);
      }
      rest := rest - {id};
    }
  }

  /** Of the due results the 32 that come first, and no other result is touched. */
  ghost predicate Chosen(schedule: map<string, Schedule>, now: int, force: bool, ids: seq<string>) {
    && Ordered(schedule, ids) && NoDuplicates(ids) && |ids| <= RETRY_BATCH
    && (forall id :: id in ids ==> Due(schedule, id, now, force))
    && forall other :: Due(schedule, other, now, force) && other !in ids ==>
         |ids| == RETRY_BATCH && forall id :: id in ids ==> Sooner(schedule, id, other)
  }

  lemma FirstAreChosen(schedule: map<string, Schedule>, now: int, force: bool, all: seq<string>, n: nat)
    requires Ordered(schedule, all) && NoDuplicates(all) && forall id :: id in all <==> Due(schedule, id, now, force)
    requires n == |all| <= RETRY_BATCH || n == RETRY_BATCH <= |all|
    ensures Chosen(schedule, now, force, all[..n])
  {
    assert forall i :: 0 <= i < n ==> all[..n][i] == all[i];
    forall other | Due(schedule, other, now, force) && other !in all[..n]
      ensures n == RETRY_BATCH && forall id :: id in all[..n] ==> Sooner(schedule, id, other)
    {
      var j :| 0 <= j < |all| && all[j] == other;
      assert j >= n;
    }
  }

  /** The loop of retryPendingResults: sets the flag of each candidate anew, keeps
      everything else, and returns what to send in order. */
  method FlagAll(pending: map<string, Result>, generation: nat, candidates: seq<string>)
    returns (kept: map<string, Result>, out: seq<Payload>)
    requires Elements(candidates) <= pending.Keys && NoDuplicates(candidates)
    ensures kept.Keys == pending.Keys && |out| == |candidates|
    ensures forall id :: id in pending ==>
      kept[id] == if id in candidates then Flagged(pending[id], generation) else pending[id]
    ensures forall i :: 0 <= i < |out| ==> candidates[i] in kept && out[i] == kept[candidates[i]].payload
  {
    kept, out := pending, [];
    var i := 0;
    while i < |candidates|
      invariant 0 <= i <= |candidates| && |out| == i && kept.Keys == pending.Keys
      invariant forall id :: id in pending ==>
        kept[id] == if id in candidates[..i] then Flagged(pending[id], generation) else pending[id]
      invariant forall j :: 0 <= j < i ==> candidates[j] in kept && out[j] == kept[candidates[j]].payload
    {
      var id := candidates[i];
      assert id in Elements(candidates) && id !in candidates[..i];
      assert candidates[..i + 1] == candidates[..i] + [id];
      var r := kept[id];
      r := r.(payload := r.payload.(reconcile := r.generation != generation));
      kept := kept[id := r];
      out := out + [r.payload];
      i := i + 1;
    }
    assert candidates[..i] == candidates;
  }

  /** `attempts`, `acks`, `retired` and `sends` are the history the model keeps. */
  class Client {
    const active: nat
    const completed: LruMap<Result>
    const seen: LruSet
    var generation: nat
    var made: nat
    var entries: map<nat, Entry>
    var inflight: map<string, nat>
    var pending: map<string, Result>
    var schedule: map<string, Schedule>
    ghost var attempts: map<nat, Attempt>
    ghost var acks: map<nat, Ack>
    ghost var retired: seq<string>
    ghost var sends: set<Sent>

    ghost predicate Valid()
      reads this, completed, seen
    {
      completed.Valid() && seen.Valid() && completed.cap >= 1 && active >= 1 && schedule.Keys == pending.Keys
    }

    ghost function View(): State
      reads this, completed, seen
    {
      State(Limits(active, seen.cap, completed.cap, completed.maxBytes), generation, entries, made, inflight, pending,
            completed.View(), seen.order, attempts, acks, retired, sends)
    }

    constructor ()
      ensures Valid() && fresh(completed) && fresh(seen) && View() == Start(SDK_LIMITS)
    {
      active := MAX_PENDING / MAX_WIRE;
      completed := new LruMap(DEFAULT_CAP, 8 * 1024 * 1024);
      seen := new LruSet(DEFAULT_CAP);
      generation, made, entries, inflight, pending, schedule := 0, 0, map[], map[], map[], map[];
      attempts, acks, retired, sends := map[], map[], [], {};
    }

    /** The first critical section of handleInvocationDispatch: replay, ignore, defer
        or admit; `replay` is the cached result to send again. */
    method Arrive(id: string, dispatch: string) returns (replay: Option<Payload>)
      requires Valid()
      modifies this, completed
      ensures Valid() && View() == Arrived(old(View()), id, dispatch)
      ensures
        var cached := old(View()).completed.items;
        replay == if id in cached && cached[id].payload.dispatch == dispatch then Some(cached[id].payload) else None
    {
      var cached := completed.Get(id);
      if cached.Some? {
        if cached.value.payload.dispatch != dispatch { return None; }
        sends := sends + {Sent(cached.value.incarnation, cached.value.payload)};
        return Some(cached.value.payload);
      }
      replay := None;
      var known := seen.Contains(id);
      if known || id in inflight || |inflight| >= active { return; }
      entries := entries[made := Entry(id, dispatch, generation, Admitting, Free, None)];
      inflight := inflight[id := made];
      made := made + 1;
    }

    /** The end of completeInvocationWith by thread `t`: keep the exact outcome. */
    method KeepResult(t: nat, ok: bool, envelope: bytes, aad: bytes, code: string, base: nat, a: Attempt, now: int)
      returns (p: Payload)
      requires Valid() && t in attempts && attempts[t] == a && a.Bound? && a.k in entries && a.again in entries
      modifies this
      ensures Valid() && View() == Kept(old(View()), Record(t, ok, envelope, aad, code, base))
      ensures p.ok == ok && p.envelope == envelope && p.aad == aad && p.code == code && p.base == base
      ensures p.invocation == a.id && p.dispatch == old(entries)[a.again].dispatch
      ensures p.reconcile <==> old(entries)[a.again].generation != generation
      ensures a.id in pending && pending[a.id].payload == p && pending[a.id].incarnation == a.k
      ensures Sent(a.k, p) in sends && schedule[a.id] == Schedule(now + 5, 1)
    {
      var e := entries[a.again];
      p := Payload(e.dispatch, a.id, ok, envelope, aad, code, base, e.generation != generation);
      entries := entries[a.k := entries[a.k].(claim := InPending, recorded := Some(p))];
      pending := pending[a.id := Result(a.k, p, e.generation, p.Wire())];
      schedule := schedule[a.id := Schedule(now + Delay(1), 1)];
      attempts, sends := attempts - {t}, sends + {Sent(a.k, p)};
    }

    /** retryPendingResults: the first 32 due results are flagged, sent and put off;
        everything else stays as it is. */
    method RetryPending(now: int, force: bool) returns (out: seq<Payload>, ghost chosen: seq<string>)
      requires Valid()
      modifies this`pending, this`schedule, this`sends
      ensures Valid() && Chosen(old(schedule), now, force, chosen) && Elements(chosen) <= old(pending).Keys
      ensures |Elements(chosen)| <= RETRY_BATCH && View() == Retried(old(View()), Elements(chosen))
      ensures forall id :: id in schedule ==>
        schedule[id] == if id in chosen then old(schedule)[id].Again(now) else old(schedule)[id]
      ensures |out| == |chosen| && forall i :: 0 <= i < |out| ==> chosen[i] in pending && out[i] == pending[chosen[i]].payload
    {
      var candidates := DueInOrder(schedule, now, force);
      var n := if |candidates| > RETRY_BATCH then RETRY_BATCH else |candidates|;
      FirstAreChosen(schedule, now, force, candidates, n);
      candidates := candidates[..n];
      chosen := candidates;
      DistinctCount(chosen);
      ghost var after := Retried(View(), Elements(chosen));
      var kept: map<string, Result>;
      kept, out := FlagAll(pending, generation, candidates);
      assert kept == after.pending;
      schedule := map id | id in schedule :: if id in candidates then schedule[id].Again(now) else schedule[id];
      pending, sends := kept, after.sends;
    }

    /** The first critical section of handleInvocationResultAck: only a final receipt
        under the result's own dispatch ID takes it. */
    method TakeResult(u: nat, id: string, receipt: Receipt) returns (taken: Option<Result>)
      requires Valid() && Possible(View(), TakeAck(u, id, receipt))
      modifies this
      ensures Valid() && View() == Next(old(View()), TakeAck(u, id, receipt))
      ensures taken.Some? <==>
        && id in old(pending) && old(pending)[id].payload.dispatch == receipt.dispatch != ""
        && (receipt.recorded || receipt.code == "dispatch_rejected")
      ensures taken.Some? ==> taken.value == old(pending)[id] && id !in pending
      ensures taken.None? ==> View() == old(View())
    {
      if receipt.dispatch == "" { return None; }
      if id !in pending || pending[id].payload.dispatch != receipt.dispatch { return None; }
      if !receipt.recorded && receipt.code != "dispatch_rejected" { return None; }
      var r := pending[id];
      pending, schedule := pending - {id}, schedule - {id};
      entries := entries[r.incarnation := entries[r.incarnation].(claim := ByAck(u))];
      acks := acks[u := Ack(id, r)];
      return Some(r);
    }

    /** markCompleted for the result thread `u` took. */
    method MarkCompleted(u: nat, id: string, r: Result)
      requires Valid() && u in acks && acks[u] == Ack(id, r) && r.incarnation in entries
      modifies this, completed, seen
      ensures Valid() && View() == Completed(old(View()), u)
      ensures id !in inflight
    {
      ghost var after := Completed(View(), u);
      ghost var _ := completed.Set(id, r, r.encoded);
      var _ := seen.Add(id);
      assert completed.View() == after.completed && seen.order == after.seen;
      inflight := inflight - {id};
      entries := entries[r.incarnation := entries[r.incarnation].(claim := Retired)];
      acks, retired := acks - {u}, retired + [id];
    }
  }
}
