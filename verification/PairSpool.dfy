/** The durable outgoing message spool of one principal (sdk/pair_message_spool.go):
    reserve an ID before encrypting, commit digest and size before the wire, and
    re-validate everything on every read. */
module PairSpool {
  import opened Bytes
  import opened Durable
  import opened Sums

  const SPOOL_COUNT := 256
  const SPOOL_BYTES := 16 * 1024 * 1024

  function ZeroDigest(): bytes {
    seq(32, _ => 0)
  }

  datatype MessageBinding = MessageBinding(principal: string, grant: string, generation: nat, network: string,
                                           message: string, input: bytes)
  {
    predicate Valid() {
      && ValidMessageId(message) && ValidPathId(principal) && ValidPathId(grant) && ValidPathId(network)
      && 0 < generation < 0x8000_0000_0000_0000 && |input| == 32 && input != ZeroDigest()
    }
  }

  /** A canonical lower-case version 7 UUID (section 5.7 of RFC 9562). */
  predicate ValidMessageId(id: string) {
    && |id| == 36 && id[14] == '7'
    && forall i :: 0 <= i < 36 ==> if i in {8, 13, 18, 23} then id[i] == '-' else HexDigit(id[i])
  }

  predicate HexDigit(c: char) {
    '0' <= c <= '9' || 'a' <= c <= 'f'
  }

  datatype Entry = Entry(binding: MessageBinding, digest: bytes, size: nat, retired: bool, rejected: bool) {
    /** What the reader demands of one entry. */
    predicate Shape(principal: string, id: string) {
      && binding.Valid() && binding.principal == principal && binding.message == id
      && size <= SPOOL_BYTES && ((size == 0) <==> (digest == ZeroDigest()))
      && (retired && size == 0 ==> rejected) && (rejected ==> retired)
    }

    function Stage(): Disposition {
      if rejected then Rejected else if retired then Admitted else if size == 0 then Incomplete else Prepared
    }

    /** Every later form of this entry: same binding, digest and size fixed once set,
        disposition only forward. */
    predicate Advances(later: Entry) {
      && later.binding == binding
      && (size > 0 ==> later.size == size && later.digest == digest)
      && Forward(Stage(), later.Stage())
    }
  }

  datatype Disposition = Incomplete | Prepared | Admitted | Rejected

  predicate Forward(a: Disposition, b: Disposition) {
    a == b || a == Incomplete || (a == Prepared && b != Incomplete)
  }

  type Records = map<string, Entry>

  // ---------------------------------------------------------------- quotas

  function OpenOnes(records: Records): map<string, nat> {
    map id | id in records :: if records[id].retired then 0 else 1
  }

  function OpenSizes(records: Records): map<string, nat> {
    map id | id in records :: if records[id].retired then 0 else records[id].size
  }

  ghost function OpenCount(records: Records): nat {
    Sum(OpenOnes(records))
  }

  ghost function OpenBytes(records: Records): nat {
    Sum(OpenSizes(records))
  }

  ghost predicate Good(records: Records, principal: string) {
    && (forall id :: id in records ==> records[id].Shape(principal, id))
    && OpenCount(records) <= SPOOL_COUNT && OpenBytes(records) <= SPOOL_BYTES
  }

  lemma CountPut(records: Records, id: string, e: Entry)
    ensures OpenCount(records[id := e]) ==
      OpenCount(records) + (if e.retired then 0 else 1) - (if id in records && !records[id].retired then 1 else 0)
    ensures OpenBytes(records[id := e]) ==
      OpenBytes(records) + (if e.retired then 0 else e.size)
      - (if id in records && !records[id].retired then records[id].size else 0)
  {
    OnesPut(records, id, e);
    SizesPut(records, id, e);
    SumPut(OpenOnes(records), id, if e.retired then 0 else 1);
    SumPut(OpenSizes(records), id, if e.retired then 0 else e.size);
  }

  lemma OnesPut(records: Records, id: string, e: Entry)
    ensures OpenOnes(records[id := e]) == OpenOnes(records)[id := if e.retired then 0 else 1]
  {
  }

  lemma SizesPut(records: Records, id: string, e: Entry)
    ensures OpenSizes(records[id := e]) == OpenSizes(records)[id := if e.retired then 0 else e.size]
  {
  }

  lemma CountWithout(records: Records, id: string)
    requires id in records
    ensures OpenCount(records) == OpenCount(records - {id}) + (if records[id].retired then 0 else 1)
    ensures OpenBytes(records) == OpenBytes(records - {id}) + (if records[id].retired then 0 else records[id].size)
  {
    SumWithout(OpenOnes(records), id);
    assert OpenOnes(records) - {id} == OpenOnes(records - {id});
    SumWithout(OpenSizes(records), id);
    assert OpenSizes(records) - {id} == OpenSizes(records - {id});
  }

  /** The reader's loop over the index, in whatever order the map gives. */
  method CheckIndex(records: Records, principal: string) returns (ok: bool)
    ensures ok == Good(records, principal)
  {
    var count, total, rest := 0, 0, records;
    while rest != map[]
      invariant forall id :: id in rest ==> id in records && rest[id] == records[id]
      invariant forall id :: id in records && id !in rest ==> records[id].Shape(principal, id)
      invariant OpenCount(records) == count + OpenCount(rest) && OpenBytes(records) == total + OpenBytes(rest)
      decreases |rest.Keys|
    {
      var id :| id in rest.Keys;
      var e := rest[id];
      if !e.Shape(principal, id) { return false; }
      CountWithout(rest, id);
      if !e.retired { count, total := count + 1, total + e.size; }
      assert (rest - {id}).Keys == rest.Keys - {id};
      rest := rest - {id};
    }
    ok := count <= SPOOL_COUNT && total <= SPOOL_BYTES;
  }

  /** The counting loops of reserve and store. */
  method Usage(records: Records) returns (count: nat, total: nat)
    ensures count == OpenCount(records) && total == OpenBytes(records)
  {
    var rest := records;
    count, total := 0, 0;
    while rest != map[]
      invariant OpenCount(records) == count + OpenCount(rest) && OpenBytes(records) == total + OpenBytes(rest)
      decreases |rest.Keys|
    {
      var id :| id in rest.Keys;
      CountWithout(rest, id);
      if !rest[id].retired { count, total := count + 1, total + rest[id].size; }
      assert (rest - {id}).Keys == rest.Keys - {id};
      rest := rest - {id};
    }
  }

  // ---------------------------------------------------------------- the disk

  datatype Spool = Spool(dir: Cell<()>, key: Cell<File<()>>, index: Cell<File<Records>>, wires: map<string, Cell<File<bytes>>>) {
    function WireCell(id: string): Cell<File<bytes>> {
      if id in wires then wires[id] else Cell(None, None)
    }
  }

  const NO_SPOOL: Spool := Spool(Cell(None, None), Cell(None, None), Cell(None, None), map[])

  datatype Config = Config(principal: string, hash: bytes -> bytes)

  ghost function ReadIndex(cfg: Config, d: Spool): Option<Records> {
    if d.key.seen == Some(Authentic(())) && d.index.seen.Some? && d.index.seen.value.Authentic?
       && Good(d.index.seen.value.value, cfg.principal)
    then Some(d.index.seen.value.value) else None
  }

  /** The wire of an open, prepared entry, when the file authenticates and matches. */
  function ReadWire(cfg: Config, d: Spool, e: Entry): Option<bytes> {
    if e.retired || e.size == 0 then None
    else match d.WireCell(e.binding.message).seen
         case Some(Authentic(w)) => if |w| == e.size && cfg.hash(w) == e.digest then Some(w) else None
         case _ => None
  }

  datatype Write =
    | MakeDir | SyncParent | PutKey | PutIndex(records: Records) | PutWire(id: string, wire: bytes)
    | RemoveWire(id: string) | Sync

  function Apply(d: Spool, w: Write): Spool {
    match w
    case MakeDir => d.(dir := d.dir.Put(()))
    case SyncParent => d.(dir := d.dir.Synced())
    case PutKey => d.(key := d.key.Put(Authentic(())))
    case PutIndex(records) => d.(index := d.index.Put(Authentic(records)))
    case PutWire(id, wire) => d.(wires := d.wires[id := d.WireCell(id).Put(Authentic(wire))])
    case RemoveWire(id) => d.(wires := d.wires[id := d.WireCell(id).Removed()])
    case Sync =>
      d.(key := d.key.Synced(), index := d.index.Synced(), wires := map id | id in d.wires :: d.wires[id].Synced())
  }

  function Exec(d: Spool, writes: seq<Write>): Spool
    decreases |writes|
  {
    if writes == [] then d else Exec(Apply(d, writes[0]), writes[1..])
  }

  lemma {:induction false} ExecAppend(d: Spool, a: seq<Write>, b: seq<Write>)
    ensures Exec(d, a + b) == Exec(Exec(d, a), b)
    decreases |a|
  {
    if a == [] {
      assert a + b == b;
    } else {
      assert (a + b)[0] == a[0] && (a + b)[1..] == a[1..] + b;
      ExecAppend(Apply(d, a[0]), a[1..], b);
    }
  }

  // ---------------------------------------------------------------- the calls

  datatype Call =
    | Reserve(b: MessageBinding)
    | Store(b: MessageBinding, wire: bytes, digest: bytes, canonical: bool)
    | Load(b: MessageBinding)
    | Retire(b: MessageBinding, digest: bytes, status: string)
    | Reject(b: MessageBinding, finalized: bool)
  {
    /** The checks made before the lock. `canonical` is whether the wire is the
        canonical encoding of a request with this binding. */
    predicate Admissible(cfg: Config) {
      && b.Valid() && b.principal == cfg.principal
      && (Store? ==> 0 < |wire| <= SPOOL_BYTES && cfg.hash(wire) == digest && canonical)
      && (Retire? ==> status == "pending" || status == "acknowledged")
    }
  }

  datatype Reply = Failed | Fresh | Existing(entry: Entry) | Stored(entry: Entry) | Loaded(wire: bytes) | Done

  /** What a call does once the index is read: the entry it commits, if any, the file
      changes after that, and its reply. */
  datatype Decision = Decision(commit: Option<Entry>, files: seq<Write>, reply: Reply)

  const REFUSED: Decision := Decision(None, [], Failed)

  ghost function Decide(cfg: Config, d: Spool, records: Records, call: Call): Decision {
    var id := call.b.message;
    if call.Reserve? then
      if id in records then
        var e := records[id];
        if e.binding != call.b then REFUSED
        else if e.size > 0 && !e.retired then
          if ReadWire(cfg, d, e).None? then REFUSED else Decision(None, [Sync], Existing(e))
        else Decision(None, [], Existing(e))
      else if OpenCount(records) >= SPOOL_COUNT || d.WireCell(id).seen.Some? then REFUSED
      else Decision(Some(Entry(call.b, ZeroDigest(), 0, false, false)), [], Fresh)
    else if id !in records || records[id].binding != call.b then REFUSED
    else
      var e := records[id];
      match call
      case Store(_, wire, digest, _) =>
        if e.rejected then REFUSED
        else if e.size > 0 then
          if e.digest != digest || e.size != |wire| then REFUSED
          else if e.retired then Decision(None, [], Stored(e))
          else if ReadWire(cfg, d, e) != Some(wire) then REFUSED
          else Decision(None, [Sync], Stored(e))
        else if OpenBytes(records) + |wire| > SPOOL_BYTES then REFUSED
        else
          var e' := e.(digest := digest, size := |wire|);
          Decision(Some(e'), [PutWire(id, wire), Sync, Sync], Stored(e'))
      case Load(_) =>
        (match ReadWire(cfg, d, e)
         case Some(wire) => Decision(None, [Sync], Loaded(wire))
         case None => REFUSED)
      case Retire(_, digest, _) =>
        if e.rejected || e.size == 0 || e.digest != digest then REFUSED
        else if e.retired then Decision(None, [RemoveWire(id), Sync], Done)
        else if ReadWire(cfg, d, e).None? then REFUSED
        else Decision(Some(e.(retired := true)), [RemoveWire(id), Sync], Done)
      case Reject(_, finalized) =>
        if (e.retired && !e.rejected) || (e.size > 0 && !finalized && !e.rejected) then REFUSED
        else Decision(Some(e.(retired := true, rejected := true)), [RemoveWire(id), Sync], Done)
      case Reserve(_) => REFUSED
  }

  datatype Plan = Plan(writes: seq<Write>, reply: Reply)

  const CREATE: seq<Write> := [MakeDir, SyncParent, PutKey, Sync, PutIndex(map[]), Sync]

  ghost function InitWrites(cfg: Config, d: Spool): Option<seq<Write>> {
    if d.dir.seen.None? then Some(CREATE)
    else if ReadIndex(cfg, d).None? then None
    else Some([Sync])
  }

  function Committed(records: Records, id: string, decision: Decision): seq<Write> {
    [Sync] + (if decision.commit.Some? then [PutIndex(records[id := decision.commit.value]), Sync] else []) + decision.files
  }

  ghost function OpenedPlan(cfg: Config, d: Spool, call: Call): Plan {
    match ReadIndex(cfg, d)
    case None => Plan([], Failed)
    case Some(records) =>
      var decision := Decide(cfg, d, records, call);
      Plan(Committed(records, call.b.message, decision), decision.reply)
  }

  ghost function CallPlan(cfg: Config, d: Spool, call: Call): Plan {
    if !call.Admissible(cfg) || InitWrites(cfg, d).None? then Plan([], Failed)
    else
      var init := InitWrites(cfg, d).value;
      var plan := OpenedPlan(cfg, Exec(d, init), call);
      Plan(init + plan.writes, plan.reply)
  }

  /** A call cut off after `cut` of its writes fails and leaves those writes. */
  function Outcome(d: Spool, plan: Plan, cut: nat): (Spool, Reply) {
    if cut < |plan.writes| then (Exec(d, plan.writes[..cut]), Failed) else (Exec(d, plan.writes), plan.reply)
  }

  // ---------------------------------------------------------------- what a decision keeps

  /** The index a call leaves behind. */
  function IndexAfter(records: Records, id: string, decision: Decision): Records {
    if decision.commit.Some? then records[id := decision.commit.value] else records
  }

  /** What a reply says about the index left behind: always the caller's own binding,
      and whatever the reply claims about it. */
  predicate Truthful(cfg: Config, call: Call, index: Records, reply: Reply) {
    var id := call.b.message;
    reply.Failed? || (id in index && index[id].binding == call.b && Claims(cfg, call, index[id], reply))
  }

  predicate Claims(cfg: Config, call: Call, e: Entry, reply: Reply) {
    match reply
    case Failed => true
    case Fresh => call.Reserve? && e.Stage() == Incomplete
    case Existing(told) => call.Reserve? && e == told
    case Stored(told) => call.Store? && e == told && !e.rejected && e.size == |call.wire| > 0 && e.digest == cfg.hash(call.wire)
    case Loaded(wire) => call.Load? && e.Stage() == Prepared && e.size == |wire| > 0 && e.digest == cfg.hash(wire)
    case Done =>
      || (call.Retire? && e.Stage() == Admitted && e.digest == call.digest)
      || (call.Reject? && e.Stage() == Rejected)
  }

  /** Who may move an entry: only a store prepares, only a receipt for the stored digest
      admits, and a prepared message is rejected only on final word from the transport. */
  lemma MovesNeedAuthority(cfg: Config, d: Spool, records: Records, call: Call)
    requires call.Admissible(cfg) && Good(records, cfg.principal) && Decide(cfg, d, records, call).commit.Some?
    requires call.b.message in records
    ensures
      var was, now := records[call.b.message], Decide(cfg, d, records, call).commit.value;
      && was.binding == call.b
      && (was.Stage() == Incomplete && now.Stage() == Prepared ==> call.Store? && now.digest == cfg.hash(call.wire))
      && (was.Stage() != Admitted && now.Stage() == Admitted ==>
            call.Retire? && was.Stage() == Prepared && was.digest == call.digest && call.status in ["pending", "acknowledged"])
      && (was.Stage() == Prepared && now.Stage() == Rejected ==> call.Reject? && call.finalized)
  {
    assert records[call.b.message].Shape(cfg.principal, call.b.message);
  }

  /** When a call succeeds, by the stage its message has reached. Reserving always names
      the stage, if a prepared wire can be read; an incomplete message is stored while the
      quota lasts; a prepared one is stored again, loaded and retired only with its own
      bytes or digest, and rejected only on final word; an admitted one takes only the
      repetition of its store and receipt; a rejected one can only be rejected again. */
  ghost predicate Succeeds(cfg: Config, d: Spool, records: Records, call: Call) {
    var id := call.b.message;
    if id !in records then call.Reserve? && OpenCount(records) < SPOOL_COUNT && d.WireCell(id).seen.None?
    else if records[id].binding != call.b then false
    else
      var e := records[id];
      match e.Stage()
      case Incomplete => call.Reserve? || call.Reject? || (call.Store? && OpenBytes(records) + |call.wire| <= SPOOL_BYTES)
      case Prepared =>
        || (call.Reject? && call.finalized)
        || ((exists w :: OnDisk(cfg, d, e, w) && (call.Store? ==> w == call.wire))
            && (call.Reserve? || call.Load? || (call.Retire? && call.digest == e.digest) || call.Store?))
      case Admitted =>
        call.Reserve? || (call.Retire? && call.digest == e.digest) || (call.Store? && call.digest == e.digest && |call.wire| == e.size)
      case Rejected => call.Reserve? || call.Reject?
  }

  /** The wire file of a prepared entry authenticates and is what the index committed to. */
  predicate OnDisk(cfg: Config, d: Spool, e: Entry, w: bytes) {
    d.WireCell(e.binding.message).seen == Some(Authentic(w)) && |w| == e.size && cfg.hash(w) == e.digest
  }

  lemma PreparedExactly(cfg: Config, d: Spool, records: Records, call: Call)
    requires call.Admissible(cfg) && call.b.message in records && records[call.b.message].binding == call.b
    requires records[call.b.message].Stage() == Prepared
    ensures !Decide(cfg, d, records, call).reply.Failed? <==> Succeeds(cfg, d, records, call)
  {
    var e := records[call.b.message];
    var read := ReadWire(cfg, d, e);
    if read.Some? {
      assert OnDisk(cfg, d, e, read.value);
    } else {
      assert forall w :: !OnDisk(cfg, d, e, w);
    }
  }

  lemma UnpreparedExactly(cfg: Config, d: Spool, records: Records, call: Call)
    requires call.Admissible(cfg) && call.b.message in records && records[call.b.message].Shape(cfg.principal, call.b.message)
    requires records[call.b.message].Stage() != Prepared
    ensures !Decide(cfg, d, records, call).reply.Failed? <==> Succeeds(cfg, d, records, call)
  {
  }

  /** With a readable index, exactly those calls succeed. */
  lemma SucceedsExactly(cfg: Config, d: Spool, records: Records, call: Call)
    requires call.Admissible(cfg) && Good(records, cfg.principal)
    ensures !Decide(cfg, d, records, call).reply.Failed? <==> Succeeds(cfg, d, records, call)
  {
    var id := call.b.message;
    if id in records && records[id].binding == call.b {
      assert records[id].Shape(cfg.principal, id);
      if records[id].Stage() == Prepared {
        PreparedExactly(cfg, d, records, call);
      } else {
        UnpreparedExactly(cfg, d, records, call);
      }
    }
  }

  /** What a caller must bring: a binding of this principal whose names are path elements
      and whose message ID is a version 7 UUID, with a generation and an input digest; to
      store, a non-empty wire in bounds with its own digest and in canonical form; to
      retire, one of the two receipt states. Anything else is refused before any write. */
  lemma RefusedBeforeAnyWrite(cfg: Config, d: Spool, call: Call)
    requires !(
      && ValidMessageId(call.b.message) && call.b.principal == cfg.principal
      && ValidPathId(call.b.principal) && ValidPathId(call.b.grant) && ValidPathId(call.b.network)
      && 0 < call.b.generation < 0x8000_0000_0000_0000 && |call.b.input| == 32 && call.b.input != ZeroDigest()
      && (call.Store? ==> 0 < |call.wire| <= SPOOL_BYTES && call.digest == cfg.hash(call.wire) && call.canonical)
      && (call.Retire? ==> call.status in ["pending", "acknowledged"]))
    ensures CallPlan(cfg, d, call) == Plan([], Failed) && !call.Admissible(cfg)
  {
  }

  /** A message retired or rejected without interruption leaves no wire behind, not even
      after a power loss. */
  lemma RetiredWireIsGone(cfg: Config, d: Spool, call: Call)
    requires (call.Retire? || call.Reject?) && !OpenedPlan(cfg, d, call).reply.Failed?
    ensures Exec(d, OpenedPlan(cfg, d, call).writes).WireCell(call.b.message) == Cell(None, None)
  {
    var id, records := call.b.message, ReadIndex(cfg, d).value;
    var decision := Decide(cfg, d, records, call);
    assert decision.files == [RemoveWire(id), Sync];
    RemovedIsGone(d, [Sync] + (if decision.commit.Some? then [PutIndex(records[id := decision.commit.value]), Sync] else []), id);
  }

  lemma RemovedIsGone(d: Spool, before: seq<Write>, id: string)
    ensures Exec(d, before + [RemoveWire(id), Sync]).WireCell(id) == Cell(None, None)
  {
    ExecAppend(d, before, [RemoveWire(id), Sync]);
    var d1 := Apply(Exec(d, before), RemoveWire(id));
    assert [RemoveWire(id), Sync][1..] == [Sync] && [Sync][1..] == [];
    assert Exec(d1, [Sync]) == Apply(d1, Sync);
    assert id in d1.wires && d1.wires[id].seen == None;
  }

  lemma DecisionIsTruthful(cfg: Config, d: Spool, records: Records, call: Call)
    requires call.Admissible(cfg) && Good(records, cfg.principal)
    ensures
      var decision := Decide(cfg, d, records, call);
      && Truthful(cfg, call, IndexAfter(records, call.b.message, decision), decision.reply)
      && (decision.reply.Fresh? ==> call.b.message !in records)
  {
    var id := call.b.message;
    if call.Reserve? {
      ReserveTruthful(cfg, d, records, call);
    } else if id in records {
      var e := records[id];
      assert e.rejected ==> e.retired by { assert e.Shape(cfg.principal, id); }
      if call.Store? { StoreTruthful(cfg, d, records, call); } else { OtherTruthful(cfg, d, records, call); }
    }
  }

  lemma ReserveTruthful(cfg: Config, d: Spool, records: Records, call: Call)
    requires call.Reserve?
    ensures
      var decision := Decide(cfg, d, records, call);
      && Truthful(cfg, call, IndexAfter(records, call.b.message, decision), decision.reply)
      && (decision.reply.Fresh? ==> call.b.message !in records)
  {
  }

  lemma StoreTruthful(cfg: Config, d: Spool, records: Records, call: Call)
    requires call.Store? && call.Admissible(cfg) && call.b.message in records
    ensures
      var decision := Decide(cfg, d, records, call);
      Truthful(cfg, call, IndexAfter(records, call.b.message, decision), decision.reply) && !decision.reply.Fresh?
  {
  }

  lemma OtherTruthful(cfg: Config, d: Spool, records: Records, call: Call)
    requires !call.Reserve? && !call.Store? && call.b.message in records
    requires records[call.b.message].rejected ==> records[call.b.message].retired
    ensures
      var decision := Decide(cfg, d, records, call);
      Truthful(cfg, call, IndexAfter(records, call.b.message, decision), decision.reply) && !decision.reply.Fresh?
  {
  }

  lemma CommitAdvances(cfg: Config, d: Spool, records: Records, call: Call)
    requires call.b.message in records && (records[call.b.message].rejected ==> records[call.b.message].retired)
    requires Decide(cfg, d, records, call).commit.Some?
    ensures records[call.b.message].Advances(Decide(cfg, d, records, call).commit.value)
  {
    var e := records[call.b.message];
    if call.Store? {
      assert e.Stage() == Incomplete || e.Stage() == Admitted;
    }
  }

  lemma CommitShape(cfg: Config, d: Spool, records: Records, call: Call)
    requires Good(records, cfg.principal) && call.Admissible(cfg) && Decide(cfg, d, records, call).commit.Some?
    ensures var e := Decide(cfg, d, records, call).commit.value;
      e.Shape(cfg.principal, call.b.message) <==> !(call.Store? && call.digest == ZeroDigest())
  {
  }

  lemma CommitQuota(cfg: Config, d: Spool, records: Records, call: Call)
    requires Good(records, cfg.principal) && call.Admissible(cfg) && Decide(cfg, d, records, call).commit.Some?
    ensures var index := records[call.b.message := Decide(cfg, d, records, call).commit.value];
      OpenCount(index) <= SPOOL_COUNT && OpenBytes(index) <= SPOOL_BYTES
  {
    CountPut(records, call.b.message, Decide(cfg, d, records, call).commit.value);
  }

  /** Every index a call writes moves one entry forward and passes the reader's own
      checks, exactly unless the wire being stored has the all-zero digest. */
  lemma CommitIsReadableIff(cfg: Config, d: Spool, records: Records, call: Call)
    requires Good(records, cfg.principal) && call.Admissible(cfg) && Decide(cfg, d, records, call).commit.Some?
    ensures
      var e := Decide(cfg, d, records, call).commit.value;
      var id := call.b.message;
      && (id in records ==> records[id].Advances(e))
      && (Good(records[id := e], cfg.principal) <==> !(call.Store? && call.digest == ZeroDigest()))
  {
    if call.b.message in records { CommitAdvances(cfg, d, records, call); }
    CommitShape(cfg, d, records, call);
    CommitQuota(cfg, d, records, call);
    var e := Decide(cfg, d, records, call).commit.value;
    GoodPut(records, call.b.message, e, cfg.principal);
  }

  lemma GoodPut(records: Records, id: string, e: Entry, principal: string)
    requires Good(records, principal)
    requires OpenCount(records[id := e]) <= SPOOL_COUNT && OpenBytes(records[id := e]) <= SPOOL_BYTES
    ensures Good(records[id := e], principal) <==> e.Shape(principal, id)
  {
    assert records[id := e][id] == e;
  }

  // ---------------------------------------------------------------- the object

  lemma CutAppend(d: Spool, init: seq<Write>, plan: Plan, cut: nat)
    ensures cut < |init| ==> Outcome(d, Plan(init + plan.writes, plan.reply), cut) == (Exec(d, init[..cut]), Failed)
    ensures cut >= |init| ==>
      Outcome(d, Plan(init + plan.writes, plan.reply), cut) == Outcome(Exec(d, init), plan, cut - |init|)
  {
    if cut < |init| {
      assert (init + plan.writes)[..cut] == init[..cut];
    } else {
      var rest := if cut - |init| < |plan.writes| then plan.writes[..cut - |init|] else plan.writes;
      assert cut - |init| < |plan.writes| ==> (init + plan.writes)[..cut] == init + rest;
      ExecAppend(d, init, rest);
    }
  }

  /** The spool under its process lock. `cut` is how many more writes succeed before
      the disk or the process fails. */
  class MessageSpool {
    const cfg: Config
    var disk: Spool
    var cut: nat

    constructor (cfg: Config, disk: Spool, cut: nat)
      ensures this.cfg == cfg && this.disk == disk && this.cut == cut
    {
      this.cfg, this.disk, this.cut := cfg, disk, cut;
    }

    /** Commits in order until one fails. */
    method CommitAll(writes: seq<Write>) returns (ok: bool)
      modifies this
      ensures ok == (old(cut) >= |writes|)
      ensures ok ==> disk == Exec(old(disk), writes) && cut == old(cut) - |writes|
      ensures !ok ==> disk == Exec(old(disk), writes[..old(cut)]) && cut == 0
    {
      var i := 0;
      while i < |writes|
        invariant 0 <= i <= |writes| && cut == old(cut) - i
        invariant disk == Exec(old(disk), writes[..i])
      {
        if cut == 0 { return false; }
        assert writes[..i + 1] == writes[..i] + [writes[i]];
        ExecAppend(old(disk), writes[..i], [writes[i]]);
        assert [writes[i]][1..] == [];
        disk, cut := Apply(disk, writes[i]), cut - 1;
        i := i + 1;
      }
      assert writes[..i] == writes;
      return true;
    }

    method Read() returns (records: Option<Records>)
      ensures records == ReadIndex(cfg, disk)
    {
      if disk.key.seen != Some(Authentic(())) || disk.index.seen.None? || disk.index.seen.value.Garbage? { return None; }
      var ok := CheckIndex(disk.index.seen.value.value, cfg.principal);
      records := if ok then Some(disk.index.seen.value.value) else None;
    }

    method Init() returns (ok: bool)
      modifies this
      ensures
        var init := InitWrites(cfg, old(disk));
        && ok == (init.Some? && old(cut) >= |init.value|)
        && (ok ==> disk == Exec(old(disk), init.value) && cut == old(cut) - |init.value|)
        && (!ok ==> disk == if init.Some? then Exec(old(disk), init.value[..old(cut)]) else old(disk))
    {
      if disk.dir.seen.None? {
        ok := CommitAll(CREATE);
      } else {
        var records := Read();
        if records.None? { return false; }
        ok := CommitAll([Sync]);
      }
    }

    /** What the call does with the index it read; nothing is written yet. */
    method Decided(records: Records, call: Call) returns (r: Decision)
      ensures r == Decide(cfg, disk, records, call)
    {
      var id := call.b.message;
      if call.Reserve? {
        if id in records {
          var e := records[id];
          if e.binding != call.b { return REFUSED; }
          if e.size > 0 && !e.retired {
            var wire := ReadWire(cfg, disk, e);
            return if wire.None? then REFUSED else Decision(None, [Sync], Existing(e));
          }
          return Decision(None, [], Existing(e));
        }
        var count, _ := Usage(records);
        if count >= SPOOL_COUNT || disk.WireCell(id).seen.Some? { return REFUSED; }
        return Decision(Some(Entry(call.b, ZeroDigest(), 0, false, false)), [], Fresh);
      }
      if id !in records || records[id].binding != call.b { return REFUSED; }
      r := Resolved(records, call, records[id]);
    }

    method Resolved(records: Records, call: Call, e: Entry) returns (r: Decision)
      requires !call.Reserve? && call.b.message in records && records[call.b.message] == e && e.binding == call.b
      ensures r == Decide(cfg, disk, records, call)
    {
      var id := call.b.message;
      var wire := ReadWire(cfg, disk, e);
      if call.Load? {
        return if wire.None? then REFUSED else Decision(None, [Sync], Loaded(wire.value));
      }
      if call.Retire? {
        if e.rejected || e.size == 0 || e.digest != call.digest { return REFUSED; }
        if e.retired { return Decision(None, [RemoveWire(id), Sync], Done); }
        if wire.None? { return REFUSED; }
        return Decision(Some(e.(retired := true)), [RemoveWire(id), Sync], Done);
      }
      if call.Reject? {
        if e.retired && !e.rejected { return REFUSED; }
        if e.size > 0 && !call.finalized && !e.rejected { return REFUSED; }
        return Decision(Some(e.(retired := true, rejected := true)), [RemoveWire(id), Sync], Done);
      }
      if e.rejected { return REFUSED; }
      if e.size > 0 {
        if e.digest != call.digest || e.size != |call.wire| { return REFUSED; }
        if e.retired { return Decision(None, [], Stored(e)); }
        return if wire != Some(call.wire) then REFUSED else Decision(None, [Sync], Stored(e));
      }
      var _, total := Usage(records);
      if total + |call.wire| > SPOOL_BYTES { return REFUSED; }
      var e' := e.(digest := call.digest, size := |call.wire|);
      return Decision(Some(e'), [PutWire(id, call.wire), Sync, Sync], Stored(e'));
    }

    /** One call under the lock, start to end. */
    method Perform(call: Call) returns (reply: Reply)
      modifies this
      ensures (disk, reply) == Outcome(old(disk), CallPlan(cfg, old(disk), call), old(cut))
    {
      if !call.Admissible(cfg) { return Failed; }
      ghost var init := InitWrites(cfg, disk);
      if init.Some? { CutAppend(disk, init.value, OpenedPlan(cfg, Exec(disk, init.value), call), cut); }
      var ok := Init();
      if !ok { return Failed; }
      var records := Read();
      if records.None? { return Failed; }
      var decision := Decided(records.value, call);
      ok := CommitAll(Committed(records.value, call.b.message, decision));
      reply := if ok then decision.reply else Failed;
    }
  }
}
