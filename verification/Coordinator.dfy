/** The sharing coordinator: a bounded, coalescing FIFO scheduler with revision
    counters, blocking of failed work, session resets and overflow recovery
    (sdk/sharing_coordinator.go and its two project domains). Everything guarded
    by one lock is one step; the worker and the outside world interleave freely. */
module Coordinator {
  import opened Bytes

  const WAKE_CAP: nat := 256

  datatype Kind = State | Message
  datatype Wake = Wake(grant: string, generation: nat, kind: Kind)
  datatype Domain = Pair | Project | OwnerProject

  /** Grant and project identifiers are path-safe tokens or UUIDs: no colon. */
  predicate ValidId(id: string) {
    ':' !in id
  }

  function JobKey(domain: Domain, id: string): string {
    match domain
    case Pair => id
    case Project => "project:" + id
    case OwnerProject => "owner-project:" + id
  }

  /** The three domains share one key space without collisions, and the job made
      from a key and its wake goes back to the domain it came from. */
  lemma KeysSeparateDomains(d: Domain, id: string, d': Domain, id': string)
    requires ValidId(id) && ValidId(id')
    ensures JobKey(d, id) == JobKey(d', id') ==> d == d' && id == id'
  {
    if JobKey(d, id) == JobKey(d', id') {
      var k := JobKey(d, id);
      assert d == Project ==> k[7] == ':' && k[8..] == id;
      assert d' == Project ==> k[7] == ':' && k[8..] == id';
      assert d == OwnerProject ==> k[13] == ':' && k[14..] == id && k[0] == 'o';
      assert d' == OwnerProject ==> k[13] == ':' && k[14..] == id' && k[0] == 'o';
      assert d == Project || d' == Project ==> k[0] == 'p';
      assert d == Pair ==> ':' !in k;
      assert d' == Pair ==> ':' !in k;
    }
  }

  /** Two jobs of one session carry the same context identity. */
  datatype Job = Job(grant: string, key: string, kind: Kind, domain: Domain, full: bool, session: nat, connection: nat)

  datatype Coord = Coord(session: Option<nat>, connection: nat,
                         pending: map<string, Wake>, order: seq<string>, blocked: set<string>, full: bool,
                         revision: nat, fullRevision: nat, grantRevision: map<string, nat>,
                         pairs: bool, projects: bool, installation: string,
                         connected: bool, generation: nat, nextSession: nat)
  {
    function GrantRevision(key: string): nat {
      if key in grantRevision then grantRevision[key] else 0
    }

    predicate Current() {
      session.Some? && connected && connection == generation
    }

    predicate Enabled(domain: Domain) {
      match domain
      case Pair => pairs
      case Project => projects
      case OwnerProject => installation != ""
    }

    /** Work waiting, oldest first; entries of `order` without pending work are stale. */
    function Waiting(): seq<string> {
      Live(order, pending)
    }

    function Enqueue(key: string, wake: Wake): Coord {
      this.(order := if key in pending then order else Live(order, pending) + [key], pending := pending[key := wake])
    }

    /** Overflow and disconnect: forget the queue, but ask for a full rescan. */
    function Reset(): Coord {
      this.(session := None, pending := map[], order := [], full := true)
    }

    function StartSession(): Coord {
      Coord(Some(nextSession), generation, map[], [], {}, true, revision + 1, revision + 1, map[],
            pairs, projects, installation, connected, generation, nextSession + 1)
    }

    function Kick(): Coord {
      var c := if connected && (session.None? || connection != generation) then StartSession() else this;
      c.(full := true, revision := c.revision + 1, fullRevision := c.revision + 1, blocked := {})
    }

    function Disconnected(conn: nat): Coord {
      if connection == conn then Reset() else this
    }

    predicate Accepts(domain: Domain) {
      Current() && Enabled(domain)
    }

    predicate Overflows(key: string) {
      key !in pending && |pending| >= WAKE_CAP
    }

    function Merged(key: string, wake: Wake): Wake {
      var m := if key in pending && pending[key].generation > wake.generation then pending[key] else wake;
      if (key in pending && pending[key].kind.State?) || wake.kind.State? then m.(kind := State) else m
    }

    function QueueKey(key: string, wake: Wake): Coord {
      if Overflows(key) then Reset()
      else
        var c := Enqueue(key, Merged(key, wake));
        c.(revision := revision + 1, grantRevision := grantRevision[key := revision + 1], blocked := blocked - {key})
    }

    function QueueWake(domain: Domain, wake: Wake): Coord {
      if Accepts(domain) then QueueKey(JobKey(domain, wake.grant), wake) else this
    }

    function NextJob(): (Coord, Option<Job>) {
      if !Current() then (this, None)
      else if full then (this.(full := false), Some(Job("", "", Message, Pair, true, session.value, connection)))
      else
        var rest := DropStale(order, pending);
        if rest == [] then (this.(order := []), None)
        else
          var key := rest[0];
          (this.(order := rest[1..], pending := pending - {key}),
           Some(Job(pending[key].grant, key, pending[key].kind, DomainOf(key, pending[key].grant), false, session.value, connection)))
    }

    /** After a handler failed: suppress this attempt only, unless something new
        was asked for since the revisions in `snap` were read. */
    function BlockFailed(job: Job, snap: Snapshot): Coord {
      if session == Some(job.session) && fullRevision == snap.fullRevision && GrantRevision(snap.key) == snap.grantRevision
      then this.(blocked := blocked + {snap.key}, pending := pending - {snap.key})
      else this
    }

    function DrainKey(job: Job, key: string, project: string): Coord {
      if session != Some(job.session) || connection != job.connection || key in blocked then this
      else
        var kind := if key in pending then pending[key].kind else Message;
        var c := this.(pending := pending - {key});
        if |c.pending| >= WAKE_CAP then c.Reset() else c.Enqueue(key, Wake(project, 0, kind))
    }

    /** More of a project's inbox remains after one bounded drain: its key goes to
        the back of the queue. */
    function RequeueDrain(job: Job, project: string): Coord {
      DrainKey(job, JobKey(OwnerProject, project), project)
    }

    function RequeueRetry(job: Job): Coord {
      if session != Some(job.session) || connection != job.connection then this
      else if job.full then this.(full := true)
      else if job.key !in blocked && job.key !in pending then Enqueue(job.key, Wake(job.grant, 0, job.kind))
      else this
    }
  }

  /** The revisions a message callback reads before it runs the handler; `at` is
      the overall revision at that moment. */
  datatype Snapshot = Snapshot(key: string, fullRevision: nat, grantRevision: nat, at: nat)

  function DomainOf(key: string, grant: string): Domain {
    if key == JobKey(Project, grant) then Project
    else if key == JobKey(OwnerProject, grant) then OwnerProject
    else Pair
  }

  function Live(order: seq<string>, pending: map<string, Wake>): seq<string> {
    if order == [] then []
    else if order[0] in pending then [order[0]] + Live(order[1..], pending)
    else Live(order[1..], pending)
  }

  function DropStale(order: seq<string>, pending: map<string, Wake>): (rest: seq<string>)
    ensures rest != [] ==> rest[0] in pending
  {
    if order == [] || order[0] in pending then order else DropStale(order[1..], pending)
  }

  lemma {:induction false} DropStaleStops(order: seq<string>, pending: map<string, Wake>)
    ensures DropStale(order, pending) == [] <==> forall k :: k in order ==> k !in pending
    ensures DropStale(order, pending) != [] ==> DropStale(order, pending)[0] in order
  {
    if order != [] {
      assert order[0] in order && forall k :: k in order[1..] ==> k in order;
      assert forall k :: k in order ==> k == order[0] || k in order[1..];
      if order[0] !in pending {
        DropStaleStops(order[1..], pending);
      }
    }
  }

  /** What the worker is handed and what that leaves behind. A due rescan goes
      first and leaves the queue alone; a targeted job takes its entry, and carries
      that entry's grant and kind; either belongs to the session and connection
      that are current. */
  ghost predicate HandsOut(c: Coord, c': Coord, job: Option<Job>) {
    && (job.Some? <==>
          && c.session.Some? && c.connected && c.connection == c.generation
          && (c.full || exists k :: k in c.order && k in c.pending))
    && (job.Some? ==> c.session == Some(job.value.session) && c.connection == job.value.connection && job.value.full == c.full)
    && (job.Some? && c.full ==> c' == c.(full := false))
    && (job.Some? && !c.full ==>
          var key := job.value.key;
          && key in c.order && key in c.pending
          && job.value.grant == c.pending[key].grant && job.value.kind == c.pending[key].kind
          && c' == c.(pending := c.pending - {key}, order := c'.order))
    && (job.None? ==> c' == c.(order := c'.order) && (c.Current() || c'.order == c.order))
  }

  lemma NextJobHandsOut(c: Coord)
    ensures HandsOut(c, c.NextJob().0, c.NextJob().1)
  {
    DropStaleStops(c.order, c.pending);
  }

  // ---------------------------------------------------------------- the object

  class SharingCoordinator {
    var session: Option<nat>
    var connection: nat
    var pending: map<string, Wake>
    var order: seq<string>
    var blocked: set<string>
    var full: bool
    var revision: nat
    var fullRevision: nat
    var grantRevision: map<string, nat>
    var pairs: bool
    var projects: bool
    var installation: string
    var connected: bool
    var generation: nat
    var nextSession: nat

    function View(): Coord
      reads this
    {
      Coord(session, connection, pending, order, blocked, full, revision, fullRevision, grantRevision,
            pairs, projects, installation, connected, generation, nextSession)
    }

    method Enqueue(key: string, wake: Wake)
      modifies this
      ensures View() == old(View()).Enqueue(key, wake)
    {
      if key !in pending {
        var kept: seq<string> := [];
        var i := 0;
        while i < |order|
          invariant 0 <= i <= |order|
          invariant kept + Live(order[i..], pending) == Live(order, pending)
          invariant unchanged(this)
        {
          var queued := order[i];
          assert order[i..][1..] == order[i + 1..];
          if queued in pending && queued != key {
            kept := kept + [queued];
          }
          i := i + 1;
        }
        order := kept + [key];
      }
      pending := pending[key := wake];
    }

    method Reset()
      modifies this
      ensures View() == old(View()).Reset()
    {
      session := None;
      pending := map[];
      order := [];
      full := true;
    }

    method StartSession()
      modifies this
      ensures View() == old(View()).StartSession()
    {
      Reset();
      session, connection := Some(nextSession), generation;
      nextSession := nextSession + 1;
      blocked, grantRevision := {}, map[];
      revision := revision + 1;
      fullRevision := revision;
    }

    method Kick()
      modifies this
      ensures View() == old(View()).Kick()
    {
      if connected && (session.None? || connection != generation) {
        StartSession();
      }
      full := true;
      revision := revision + 1;
      fullRevision := revision;
      blocked := {};
    }

    method Disconnected(conn: nat)
      modifies this
      ensures View() == old(View()).Disconnected(conn)
    {
      if connection == conn {
        Reset();
      }
    }

    method QueueWake(domain: Domain, wake: Wake)
      modifies this
      ensures View() == old(View()).QueueWake(domain, wake)
    {
      if session.None? || !connected || connection != generation { return; }
      if !View().Enabled(domain) { return; }
      QueueKey(JobKey(domain, wake.grant), wake);
    }

    method QueueKey(key: string, wake: Wake)
      modifies this
      ensures View() == old(View()).QueueKey(key, wake)
    {
      if key !in pending && |pending| >= WAKE_CAP {
        Reset();
        return;
      }
      var merged := wake;
      if key in pending && pending[key].generation > wake.generation {
        merged := pending[key];
      }
      if (key in pending && pending[key].kind.State?) || wake.kind.State? {
        merged := merged.(kind := State);
      }
      Enqueue(key, merged);
      revision := revision + 1;
      grantRevision := grantRevision[key := revision];
      blocked := blocked - {key};
    }

    method NextJob() returns (job: Option<Job>)
      modifies this
      ensures (View(), job) == old(View()).NextJob()
      ensures HandsOut(old(View()), View(), job)
    {
      NextJobHandsOut(View());
      if session.None? || !connected || connection != generation { return None; }
      if full {
        full := false;
        return Some(Job("", "", Message, Pair, true, session.value, connection));
      }
      while |order| > 0
        invariant View() == old(View()).(order := order)
        invariant DropStale(order, pending) == DropStale(old(order), pending)
        decreases |order|
      {
        var key := order[0];
        if key in pending {
          var wake := pending[key];
          order := order[1..];
          pending := pending - {key};
          return Some(Job(wake.grant, key, wake.kind, DomainOf(key, wake.grant), false, session.value, connection));
        }
        order := order[1..];
      }
      return None;
    }

    method BlockFailed(job: Job, snap: Snapshot)
      modifies this
      ensures View() == old(View()).BlockFailed(job, snap)
    {
      if session == Some(job.session) && fullRevision == snap.fullRevision && View().GrantRevision(snap.key) == snap.grantRevision {
        blocked := blocked + {snap.key};
        pending := pending - {snap.key};
      }
    }

    method RequeueDrain(job: Job, project: string)
      modifies this
      ensures View() == old(View()).RequeueDrain(job, project)
    {
      var key := JobKey(OwnerProject, project);
      if session != Some(job.session) || connection != job.connection || key in blocked { return; }
      var wake := Wake(project, 0, Message);
      if key in pending && pending[key].kind.State? {
        wake := wake.(kind := State);
      }
      pending := pending - {key};
      if |pending| >= WAKE_CAP {
        Reset();
        return;
      }
      Enqueue(key, wake);
    }

    method RequeueRetry(job: Job)
      modifies this
      ensures View() == old(View()).RequeueRetry(job)
    {
      if session == Some(job.session) && connection == job.connection {
        if job.full {
          full := true;
        } else if job.key !in blocked {
          if job.key !in pending {
            Enqueue(job.key, Wake(job.grant, 0, job.kind));
          }
        }
      }
    }
  }
}
