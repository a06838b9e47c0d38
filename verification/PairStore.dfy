/** The crash-safe store of pending pair epochs (sdk/pending_pair.go and
    sdk/pending_pair_index.go): reserve a binding durably first, write its record
    later, and never regenerate a record for a reserved binding. */
module PairStore {
  import opened Bytes
  import opened Durable

  /** The pair descriptor both sides pin; its canonical JSON is its value. */
  datatype Descriptor = Descriptor(grant: string, generation: nat, network: string, epoch: string,
                                   issuerKey: bytes, recipientKey: bytes, terms: bytes)

  /** An epoch key wrapped in HPKE Auth mode (section 5.1.3 of RFC 9180) from a
      sender to a recipient with the descriptor hash as associated data. */
  datatype Wrapped =
    | Wrap(sender: bytes, recipient: bytes, aad: bytes, key: bytes, seed: nat)
    | Invented(raw: bytes)

  datatype Package = Package(epoch: string, descriptor: Descriptor, wrapped: Wrapped)

  /** Grant and generation; the store names its directory by their hash. */
  datatype Binding = Binding(grant: string, generation: nat)

  datatype Record = Record(grant: string, generation: nat, network: string, epoch: string, descriptor: Descriptor,
                           epochKey: bytes, publication: Option<Package>, issuer: bytes, recipient: bytes)
  {
    function Of(): Binding {
      Binding(grant, generation)
    }

    predicate Valid() {
      && grant != "" && generation > 0
      && ValidPathId(network) && ValidPathId(epoch)
      && |epochKey| == 32
    }

    /** A retry must repeat everything but the random key and package, which stay
        those of the first attempt; a recipient has no package and must repeat the key. */
    predicate SameBinding(first: Record) {
      && first.network == network && first.epoch == epoch && first.descriptor == descriptor
      && first.issuer == issuer && first.recipient == recipient
      && first.publication.None? == publication.None?
      && (first.publication.None? ==> first.epochKey == epochKey)
    }
  }

  // ---------------------------------------------------------------- the disk

  /** `store` is the pending-pairs directory itself, `key` and `index` the two files
      in it, `dirs` the binding directories in it, `records` the file in each. */
  datatype Disk = Disk(store: Cell<()>, key: Cell<File<()>>, index: Cell<File<set<Binding>>>,
                       dirs: map<Binding, Cell<()>>, records: map<Binding, Cell<File<Record>>>)
  {
    function Dir(b: Binding): Cell<()> {
      if b in dirs then dirs[b] else Cell(None, None)
    }

    function RecordCell(b: Binding): Cell<File<Record>> {
      if b in records then records[b] else Cell(None, None)
    }

    /** The reserved bindings, when key and index are both there and authenticate. */
    function ReadableIndex(): Option<set<Binding>> {
      if key.seen == Some(Authentic(())) && index.seen.Some? && index.seen.value.Authentic?
      then Some(index.seen.value.value) else None
    }

    function ReadableRecord(b: Binding): Option<Record> {
      if Dir(b).seen.None? then None
      else match RecordCell(b).seen
           case Some(Authentic(r)) => if r.Of() == b && r.Valid() then Some(r) else None
           case _ => None
    }
  }

  const EMPTY: Disk := Disk(Cell(None, None), Cell(None, None), Cell(None, None), map[], map[])

  /** One change a power loss can fall between. */
  datatype Write =
    | MakeStore | SyncRoot | PutKey | PutIndex(bindings: set<Binding>) | SyncStore
    | MakeDir(b: Binding) | PutRecord(r: Record) | SyncDir(b: Binding)

  function Apply(d: Disk, w: Write): Disk {
    match w
    case MakeStore => d.(store := d.store.Put(()))
    case SyncRoot => d.(store := d.store.Synced())
    case PutKey => d.(key := d.key.Put(Authentic(())))
    case PutIndex(bindings) => d.(index := d.index.Put(Authentic(bindings)))
    case SyncStore =>
      d.(key := d.key.Synced(), index := d.index.Synced(), dirs := map b | b in d.dirs :: d.dirs[b].Synced())
    case MakeDir(b) => d.(dirs := d.dirs[b := d.Dir(b).Put(())])
    case PutRecord(r) => d.(records := d.records[r.Of() := d.RecordCell(r.Of()).Put(Authentic(r))])
    case SyncDir(b) => d.(records := d.records[b := d.RecordCell(b).Synced()])
  }

  function Exec(d: Disk, writes: seq<Write>): Disk
    decreases |writes|
  {
    if writes == [] then d else Exec(Apply(d, writes[0]), writes[1..])
  }

  lemma {:induction false} ExecAppend(d: Disk, a: seq<Write>, b: seq<Write>)
    ensures Exec(d, a + b) == Exec(Exec(d, a), b)
    decreases |a|
  {
    if a == [] {
      assert a + b == b;
    } else {
      assert (a + b)[0] == a[0] && (a + b)[1..] == a[1..] + b;
      ExecAppend(Apply(d, a[0]), a[1..], b);
    }
  }

  // ---------------------------------------------------------------- the calls

  /** What a call would write, in order, and return if nothing interrupts it. */
  datatype Plan = Plan(writes: seq<Write>, result: Option<Record>)

  /** A call cut off after `cut` of its writes, by an error or a crash, returns
      nothing and leaves the writes it made. */
  function Outcome(d: Disk, plan: Plan, cut: nat): (Disk, Option<Record>) {
    if cut < |plan.writes| then (Exec(d, plan.writes[..cut]), None) else (Exec(d, plan.writes), plan.result)
  }

  const CREATE: seq<Write> := [MakeStore, SyncRoot, PutKey, SyncStore, PutIndex({}), SyncStore]

  /** First use creates the store; later uses only check that it can be read.
      `None` is a store that is there but unreadable. */
  function InitWrites(d: Disk): Option<seq<Write>> {
    if d.store.seen.None? then Some(CREATE)
    else if d.ReadableIndex().None? then None
    else Some([SyncStore])
  }

  function ReadPlan(d: Disk, b: Binding): Plan {
    if d.ReadableIndex().None? then Plan([], None)
    else if b !in d.ReadableIndex().value || d.ReadableRecord(b).None? then Plan([SyncStore], None)
    else Plan([SyncStore, SyncDir(b)], d.ReadableRecord(b))
  }

  function After(writes: seq<Write>, plan: Plan): Plan {
    Plan(writes + plan.writes, plan.result)
  }

  function LoadPlan(d: Disk, b: Binding): Plan {
    var init := InitWrites(d);
    if init.None? then Plan([], None) else After(init.value, ReadPlan(Exec(d, init.value), b))
  }

  function ReserveWrites(index: set<Binding>, p: Record): seq<Write> {
    [PutIndex(index + {p.Of()}), SyncStore, MakeDir(p.Of()), SyncStore, PutRecord(p), SyncDir(p.Of())]
  }

  /** Store with a readable store already open. */
  function StoreOpened(d: Disk, p: Record): Plan {
    if d.ReadableIndex().None? then Plan([], None)
    else
      var index := d.ReadableIndex().value;
      if p.Of() in index then
        var read := ReadPlan(d, p.Of());
        After([SyncStore], read.(result :=
          if read.result.Some? && p.SameBinding(read.result.value) then read.result else None))
      else if d.Dir(p.Of()).seen.Some? then Plan([SyncStore], None)
      else
        var reserve := ReserveWrites(index, p);
        After([SyncStore] + reserve, ReadPlan(Exec(d, [SyncStore] + reserve), p.Of()))
  }

  function StorePlan(d: Disk, p: Record): Plan {
    if !p.Valid() || InitWrites(d).None? then Plan([], None)
    else After(InitWrites(d).value, StoreOpened(Exec(d, InitWrites(d).value), p))
  }

  lemma PutIsRead(d: Disk, before: seq<Write>, p: Record)
    ensures Exec(d, before + [PutRecord(p), SyncDir(p.Of())]).RecordCell(p.Of()).seen == Some(Authentic(p))
  {
    var put := [PutRecord(p), SyncDir(p.Of())];
    ExecAppend(d, before, put);
    var d1 := Exec(d, before);
    var d2 := Apply(d1, PutRecord(p));
    assert put[1..] == [SyncDir(p.Of())] && [SyncDir(p.Of())][1..] == [];
    assert Exec(d2, [SyncDir(p.Of())]) == Apply(d2, SyncDir(p.Of()));
  }

  lemma OpenedReturnsTheBinding(d: Disk, p: Record)
    requires StoreOpened(d, p).result.Some?
    ensures
      var r := StoreOpened(d, p).result.value;
      r == p || (r.Of() == p.Of() && p.SameBinding(r))
  {
    var index := d.ReadableIndex().value;
    if p.Of() !in index {
      var b := p.Of();
      var before := [SyncStore, PutIndex(index + {b}), SyncStore, MakeDir(b), SyncStore];
      assert [SyncStore] + ReserveWrites(index, p) == before + [PutRecord(p), SyncDir(b)];
      PutIsRead(d, before, p);
    }
  }

  /** Whatever a store returns, old or new, is a record of the binding asked for: same
      grant, generation, network, epoch, descriptor and both fingerprints; with a
      package exactly when one was given, and otherwise with the very same key. */
  lemma StoreReturnsTheBinding(d: Disk, p: Record)
    requires StorePlan(d, p).result.Some?
    ensures
      var r := StorePlan(d, p).result.value;
      && r.grant == p.grant && r.generation == p.generation && r.network == p.network && r.epoch == p.epoch
      && r.descriptor == p.descriptor && r.issuer == p.issuer && r.recipient == p.recipient
      && (r.publication.None? <==> p.publication.None?)
      && (p.publication.None? ==> r.epochKey == p.epochKey)
  {
    OpenedReturnsTheBinding(Exec(d, InitWrites(d).value), p);
  }

  // ---------------------------------------------------------------- the object

  lemma CutAppend(d: Disk, a: seq<Write>, plan: Plan, cut: nat)
    ensures cut < |a| ==> Outcome(d, After(a, plan), cut) == (Exec(d, a[..cut]), None)
    ensures cut >= |a| ==> Outcome(d, After(a, plan), cut) == Outcome(Exec(d, a), plan, cut - |a|)
  {
    if cut < |a| {
      assert (a + plan.writes)[..cut] == a[..cut];
    } else {
      var rest := if cut - |a| < |plan.writes| then plan.writes[..cut - |a|] else plan.writes;
      assert cut - |a| < |plan.writes| ==> (a + plan.writes)[..cut] == a + rest;
      ExecAppend(d, a, rest);
    }
  }

  /** The keyring's pending-pair store under its process lock. `cut` is how many
      more writes succeed before the disk or the process fails. */
  class Keyring {
    var disk: Disk
    var cut: nat

    method Commit(w: Write) returns (ok: bool)
      modifies this
      ensures ok == (old(cut) > 0)
      ensures ok ==> disk == Apply(old(disk), w) && cut == old(cut) - 1
      ensures !ok ==> disk == old(disk) && cut == 0
    {
      if cut == 0 { return false; }
      disk, cut := Apply(disk, w), cut - 1;
      return true;
    }

    /** Commits in order until one fails. */
    method CommitAll(writes: seq<Write>) returns (ok: bool)
      modifies this
      ensures ok == (old(cut) >= |writes|)
      ensures ok ==> disk == Exec(old(disk), writes) && cut == old(cut) - |writes|
      ensures !ok ==> disk == Exec(old(disk), writes[..old(cut)]) && cut == 0
    {
      var i := 0;
      while i < |writes|
        invariant 0 <= i <= |writes| && cut == old(cut) - i
        invariant disk == Exec(old(disk), writes[..i])
      {
        assert writes[..i + 1] == writes[..i] + [writes[i]];
        ExecAppend(old(disk), writes[..i], [writes[i]]);
        assert [writes[i]][1..] == [];
        ok := Commit(writes[i]);
        if !ok { return; }
        i := i + 1;
      }
      assert writes[..i] == writes;
      return true;
    }

    method Init() returns (ok: bool)
      modifies this
      ensures
        var init := InitWrites(old(disk));
        && ok == (init.Some? && old(cut) >= |init.value|)
        && (ok ==> disk == Exec(old(disk), init.value) && cut == old(cut) - |init.value|)
        && (!ok ==> disk == if init.Some? then Exec(old(disk), init.value[..old(cut)]) else old(disk))
    {
      if disk.store.seen.None? {
        ok := CommitAll(CREATE);
      } else if disk.ReadableIndex().None? {
        ok := false;
      } else {
        ok := CommitAll([SyncStore]);
      }
    }

    method Read(b: Binding) returns (r: Option<Record>)
      modifies this
      ensures (disk, r) == Outcome(old(disk), ReadPlan(old(disk), b), old(cut))
    {
      var index := disk.ReadableIndex();
      if index.None? { return None; }
      var found := disk.ReadableRecord(b);
      if b !in index.value || found.None? {
        var _ := CommitAll([SyncStore]);
        return None;
      }
      var ok := CommitAll([SyncStore, SyncDir(b)]);
      r := if ok then found else None;
    }

    method Load(b: Binding) returns (r: Option<Record>)
      modifies this
      ensures (disk, r) == Outcome(old(disk), LoadPlan(old(disk), b), old(cut))
    {
      ghost var init := InitWrites(old(disk));
      if init.Some? {
        CutAppend(disk, init.value, ReadPlan(Exec(disk, init.value), b), cut);
      }
      var ok := Init();
      if !ok { return None; }
      r := Read(b);
    }

    method Store(p: Record) returns (r: Option<Record>)
      modifies this
      ensures (disk, r) == Outcome(old(disk), StorePlan(old(disk), p), old(cut))
      ensures r.Some? ==>
        && r.value.grant == p.grant && r.value.generation == p.generation
        && r.value.network == p.network && r.value.epoch == p.epoch && r.value.descriptor == p.descriptor
        && r.value.issuer == p.issuer && r.value.recipient == p.recipient
        && (r.value.publication.None? <==> p.publication.None?)
        && (p.publication.None? ==> r.value.epochKey == p.epochKey)
    {
      if StorePlan(disk, p).result.Some? { StoreReturnsTheBinding(disk, p); }
      if !p.Valid() { return None; }
      ghost var init := InitWrites(old(disk));
      if init.Some? {
        CutAppend(disk, init.value, StoreOpened(Exec(disk, init.value), p), cut);
      }
      var ok := Init();
      if !ok { return None; }
      r := StoreInOpened(p);
    }

    method StoreInOpened(p: Record) returns (r: Option<Record>)
      requires p.Valid()
      modifies this
      ensures (disk, r) == Outcome(old(disk), StoreOpened(old(disk), p), old(cut))
    {
      var index := disk.ReadableIndex();
      if index.None? { return None; }
      if p.Of() in index.value {
        ghost var read := ReadPlan(disk, p.Of());
        CutAppend(disk, [SyncStore], read.(result :=
          if read.result.Some? && p.SameBinding(read.result.value) then read.result else None), cut);
        SyncStoreKeepsReads(disk, p.Of());
        var ok := CommitAll([SyncStore]);
        if !ok { return None; }
        r := Read(p.Of());
        if r.Some? && !p.SameBinding(r.value) { r := None; }
        return;
      }
      if disk.Dir(p.Of()).seen.Some? {
        var _ := CommitAll([SyncStore]);
        return None;
      }
      var writes := [SyncStore] + ReserveWrites(index.value, p);
      CutAppend(disk, writes, ReadPlan(Exec(disk, writes), p.Of()), cut);
      var ok := CommitAll(writes);
      if !ok { return None; }
      r := Read(p.Of());
    }
  }

  lemma SyncStoreKeepsReads(d: Disk, b: Binding)
    ensures
      var d' := Exec(d, [SyncStore]);
      && d'.ReadableIndex() == d.ReadableIndex()
      && ReadPlan(d', b) == ReadPlan(d, b)
      && d'.Dir(b).seen == d.Dir(b).seen
  {
    assert [SyncStore][1..] == [];
    assert Exec(d, [SyncStore]) == Apply(d, SyncStore);
  }
}
