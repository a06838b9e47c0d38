/** The bounded cache of network epoch keys (sdk/keyring.go, and the invalidation in
    sdk/pending_pair.go) against the directory it speeds up. A cold listing reads the
    directory without the lock and installs what it read later; every other call is one
    step. */
module EpochCache {
  import opened Bytes
  import opened Lru

  const CACHE_CAP := 32

  type Epochs = map<string, bytes>

  /** A cold listing under way: what it read. */
  datatype Load = Load(network: string, epochs: Epochs)

  /** `disk` holds the key files by network and epoch; `order` is the cached networks,
      least recently used first. */
  datatype State = State(disk: map<string, Epochs>, cache: map<string, Epochs>, order: seq<string>, loads: map<nat, Load>)

  /** A process that has just opened a keyring directory. */
  function Opened(disk: map<string, Epochs>): State {
    State(disk, map[], [], map[])
  }

  predicate Readable(epochs: Epochs) {
    forall id :: id in epochs ==> |epochs[id]| == 32
  }

  /** What a reader without a cache finds: nothing for a network without a directory,
      an error when some key file has the wrong length. */
  function ReadAll(disk: map<string, Epochs>, network: string): Option<Epochs> {
    if network !in disk then Some(map[]) else if Readable(disk[network]) then Some(disk[network]) else None
  }

  // ---------------------------------------------------------------- operations

  /** Overlapping listings can enter a network twice: only the first is moved or removed. */
  function RemoveFirst(order: seq<string>, key: string): (r: seq<string>)
    ensures |r| <= |order|
  {
    if order == [] then [] else if order[0] == key then order[1..] else [order[0]] + RemoveFirst(order[1..], key)
  }

  function Touched(order: seq<string>, key: string): seq<string> {
    if key in order then RemoveFirst(order, key) + [key] else order
  }

  function Files(disk: map<string, Epochs>, network: string): Epochs {
    if network in disk then disk[network] else map[]
  }

  function PutFile(disk: map<string, Epochs>, network: string, epoch: string, key: bytes): map<string, Epochs> {
    disk[network := Files(disk, network)[epoch := key]]
  }

  function MakeDir(disk: map<string, Epochs>, network: string): map<string, Epochs> {
    disk[network := Files(disk, network)]
  }

  /** How far a call that writes a key gets: it changes nothing, it makes the network's
      directory, or its file is in place, and an activation has synced it or not. */
  datatype Outcome = Refused | Prepared | Placed(synced: bool)

  /** StoreEpoch: a cold network stays cold. It never syncs. */
  function Stored(s: State, network: string, epoch: string, key: bytes, outcome: Outcome): State {
    match outcome
    case Refused => s
    case Prepared => s.(disk := MakeDir(s.disk, network))
    case Placed(_) =>
      s.(disk := PutFile(s.disk, network, epoch, key),
         cache := if network in s.cache then s.cache[network := s.cache[network][epoch := key]] else s.cache)
  }

  function Install(s: State, network: string, epochs: Epochs): State {
    var order := s.order + [network];
    var cache := s.cache[network := epochs];
    if |order| > CACHE_CAP then s.(cache := cache - {order[0]}, order := order[1..]) else s.(cache := cache, order := order)
  }

  /** EpochKeys without interruption: what it leaves and what it returns. */
  function Listed(s: State, network: string): (State, Option<Epochs>) {
    if network in s.cache then (s.(order := Touched(s.order, network)), Some(s.cache[network]))
    else if network !in s.disk then (s, Some(map[]))
    else if !Readable(s.disk[network]) then (s, None)
    else (Install(s, network, s.disk[network]), Some(s.disk[network]))
  }

  /** An activation never replaces a different key. */
  predicate MayActivate(s: State, network: string, epoch: string, key: bytes) {
    var files := Files(s.disk, network);
    epoch in files ==> files[epoch] == key
  }

  /** A pair activation forgets the network only when its key is durable. */
  function Activated(s: State, network: string, epoch: string, key: bytes, outcome: Outcome): State {
    if outcome.Refused? || !MayActivate(s, network, epoch, key) then s
    else if outcome.Prepared? then s.(disk := MakeDir(s.disk, network))
    else
      var disk := PutFile(s.disk, network, epoch, key);
      if outcome.synced then s.(disk := disk, cache := s.cache - {network}, order := RemoveFirst(s.order, network))
      else s.(disk := disk)
  }

  /** `EpochKeys` is a listing no other call overlaps; `BeginLoad` and `EndLoad` are one
      that others may. */
  datatype Step =
    | StoreEpoch(network: string, epoch: string, key: bytes, outcome: Outcome)
    | EpochKeys(network: string)
    | BeginLoad(thread: nat, network: string)
    | EndLoad(thread: nat)
    | Activate(network: string, epoch: string, key: bytes, outcome: Outcome)

  predicate Possible(s: State, step: Step) {
    match step
    case StoreEpoch(_, _, key, _) => |key| == 32
    case EpochKeys(_) => true
    case BeginLoad(t, _) => t !in s.loads
    case EndLoad(t) => t in s.loads
    case Activate(_, _, key, _) => |key| == 32
  }

  function Next(s: State, step: Step): State
    requires Possible(s, step)
  {
    match step
    case StoreEpoch(network, epoch, key, outcome) => Stored(s, network, epoch, key, outcome)
    case EpochKeys(network) => Listed(s, network).0
    case BeginLoad(t, network) =>
      if network in s.cache then s.(order := Touched(s.order, network))
      else if network in s.disk && Readable(s.disk[network]) then s.(loads := s.loads[t := Load(network, s.disk[network])])
      else s
    case EndLoad(t) => Install(s, s.loads[t].network, s.loads[t].epochs).(loads := s.loads - {t})
    case Activate(network, epoch, key, outcome) => Activated(s, network, epoch, key, outcome)
  }

  predicate PossibleRun(s: State, steps: seq<Step>)
    decreases |steps|
  {
    steps != [] ==> Possible(s, steps[0]) && PossibleRun(Next(s, steps[0]), steps[1..])
  }

  function Run(s: State, steps: seq<Step>): State
    requires PossibleRun(s, steps)
    decreases |steps|
  {
    if steps == [] then s else Run(Next(s, steps[0]), steps[1..])
  }

  // ---------------------------------------------------------------- the bound

  /** Every cached network is in the order, which is bounded. */
  predicate Bounded(s: State) {
    s.cache.Keys <= Elements(s.order) && |s.order| <= CACHE_CAP
  }

  lemma {:induction false} RemoveFirstElements(order: seq<string>, key: string)
    ensures Elements(order) - {key} <= Elements(RemoveFirst(order, key)) <= Elements(order)
    ensures key in order ==> |RemoveFirst(order, key)| == |order| - 1
    ensures key !in order ==> RemoveFirst(order, key) == order
    decreases |order|
  {
    if order != [] {
      assert order == [order[0]] + order[1..];
      assert Elements(order) == {order[0]} + Elements(order[1..]);
      RemoveFirstElements(order[1..], key);
      if order[0] != key {
        var rest := RemoveFirst(order[1..], key);
        assert Elements([order[0]] + rest) == {order[0]} + Elements(rest);
      }
    }
  }

  lemma TouchedElements(order: seq<string>, key: string)
    ensures Elements(Touched(order, key)) == Elements(order) && |Touched(order, key)| == |order|
  {
    RemoveFirstElements(order, key);
    if key in order {
      var rest := RemoveFirst(order, key);
      assert Elements(rest + [key]) == Elements(rest) + {key};
    }
  }

  lemma InstallBounded(s: State, network: string, epochs: Epochs)
    requires Bounded(s)
    ensures Bounded(Install(s, network, epochs))
  {
    var order := s.order + [network];
    assert Elements(order) == Elements(s.order) + {network};
    assert order == [order[0]] + order[1..];
    assert Elements(order) == {order[0]} + Elements(order[1..]);
  }

  lemma StepKeepsBounded(s: State, step: Step)
    requires Bounded(s) && Possible(s, step)
    ensures Bounded(Next(s, step))
  {
    match step
    case StoreEpoch(_, _, _, _) => assert Next(s, step).cache.Keys == s.cache.Keys;
    case EpochKeys(network) =>
      TouchedElements(s.order, network);
      if network in s.disk { InstallBounded(s, network, s.disk[network]); }
    case BeginLoad(_, network) => TouchedElements(s.order, network);
    case EndLoad(t) => InstallBounded(s, s.loads[t].network, s.loads[t].epochs);
    case Activate(network, _, _, _) => RemoveFirstElements(s.order, network);
  }

  lemma {:induction false} RunKeepsBounded(s: State, steps: seq<Step>)
    requires Bounded(s) && PossibleRun(s, steps)
    ensures Bounded(Run(s, steps))
    decreases |steps|
  {
    if steps != [] {
      StepKeepsBounded(s, steps[0]);
      RunKeepsBounded(Next(s, steps[0]), steps[1..]);
    }
  }

  lemma {:induction false} ElementCount(order: seq<string>)
    ensures |Elements(order)| <= |order|
    decreases |order|
  {
    if order != [] {
      ElementCount(order[1..]);
      assert order == [order[0]] + order[1..];
      assert Elements(order) == {order[0]} + Elements(order[1..]);
    } else {
      assert Elements(order) == {};
    }
  }

  /** In every interleaving, overlapping listings included, at most 32 networks are
      cached. */
  lemma AtMost32Cached(disk: map<string, Epochs>, steps: seq<Step>)
    requires PossibleRun(Opened(disk), steps)
    ensures |Run(Opened(disk), steps).cache| <= 32
  {
    RunKeepsBounded(Opened(disk), steps);
    var s := Run(Opened(disk), steps);
    SubsetCount(s.cache.Keys, Elements(s.order));
    ElementCount(s.order);
    assert |s.cache.Keys| == |s.cache|;
  }

  // ---------------------------------------------------------------- agreement

  /** Every cached network is exactly its directory. */
  predicate Agrees(s: State) {
    forall network :: network in s.cache ==>
      network in s.disk && s.cache[network] == s.disk[network] && Readable(s.disk[network])
  }

  /** What a listing has read could be read, and its files are still there. */
  predicate LoadsOk(s: State) {
    forall t :: t in s.loads ==>
      && Readable(s.loads[t].epochs) && s.loads[t].network in s.disk
      && s.loads[t].epochs.Keys <= s.disk[s.loads[t].network].Keys
  }

  predicate Inv(s: State) {
    Bounded(s) && Agrees(s) && LoadsOk(s)
  }

  /** While cache and directory agree, the cached answer is the cache-free answer. */
  lemma ListedIsRead(s: State, network: string)
    requires Agrees(s)
    ensures Listed(s, network).1 == ReadAll(s.disk, network) && Listed(s, network).0.disk == s.disk
  {
  }

  lemma StepKeepsLoads(s: State, step: Step)
    requires LoadsOk(s) && Possible(s, step)
    ensures LoadsOk(Next(s, step))
  {
  }

  /** A network put at the end of the order is not the one evicted for it. */
  predicate Stays(order: seq<string>, network: string) {
    |order| < CACHE_CAP || order[0] != network
  }

  /** What breaks agreement: an activation that fails late leaves a new key file of a
      cached network, or a listing installs what it read before the directory changed. */
  predicate StaleAfter(s: State, step: Step)
    requires Possible(s, step)
  {
    match step
    case Activate(network, epoch, key, outcome) =>
      && outcome == Placed(false) && MayActivate(s, network, epoch, key)
      && network in s.cache && epoch !in Files(s.disk, network)
    case EndLoad(t) =>
      Stays(s.order, s.loads[t].network) && s.loads[t].epochs != Files(s.disk, s.loads[t].network)
    case _ => false
  }

  /** Each step keeps cache and directory in agreement, exactly unless an activation
      fails after its new key file is in place and its network is cached, or a listing
      ends after the directory it read has changed. */
  lemma StepKeepsAgreementIff(s: State, step: Step)
    requires Inv(s) && Possible(s, step)
    ensures Agrees(Next(s, step)) <==> !StaleAfter(s, step)
  {
    match step
    case EndLoad(t) => EndAgreesIff(s, step);
    case Activate(_, _, _, _) => ActivateAgreesIff(s, step);
    case _ =>
  }

  lemma EndAgreesIff(s: State, step: Step)
    requires Agrees(s) && LoadsOk(s) && step.EndLoad? && Possible(s, step)
    ensures Agrees(Next(s, step)) <==> !StaleAfter(s, step)
  {
    var load, s' := s.loads[step.thread], Next(s, step);
    if load.network in s'.cache {
      assert s'.cache[load.network] == load.epochs;
      assert Readable(load.epochs) && load.network in s.disk;
    }
  }

  lemma ActivateAgreesIff(s: State, step: Step)
    requires Agrees(s) && step.Activate? && Possible(s, step)
    ensures Agrees(Next(s, step)) <==> !StaleAfter(s, step)
  {
    var s' := Next(s, step);
    var files := Files(s.disk, step.network);
    if StaleAfter(s, step) {
      assert step.epoch in s'.disk[step.network] && step.epoch !in s'.cache[step.network];
    } else if step.outcome == Placed(false) && step.network in s.cache && MayActivate(s, step.network, step.epoch, step.key) {
      assert files[step.epoch := step.key] == files;
    }
  }

  /** The key a step places in the directory of `network`. */
  function PlacedBy(s: State, network: string, step: Step): Epochs
    requires Possible(s, step)
  {
    match step
    case StoreEpoch(n, epoch, key, outcome) => if n == network && outcome.Placed? then map[epoch := key] else map[]
    case Activate(n, epoch, key, outcome) =>
      if n == network && outcome.Placed? && MayActivate(s, n, epoch, key) then map[epoch := key] else map[]
    case _ => map[]
  }

  /** The keys placed there over a run, each as it was placed last. */
  function PlacedIn(s: State, network: string, steps: seq<Step>): Epochs
    requires PossibleRun(s, steps)
    decreases |steps|
  {
    if steps == [] then map[]
    else PlacedBy(s, network, steps[0]) + PlacedIn(Next(s, steps[0]), network, steps[1..])
  }

  lemma {:induction false} FilesAfter(s: State, network: string, steps: seq<Step>)
    requires PossibleRun(s, steps)
    ensures Files(Run(s, steps).disk, network) == Files(s.disk, network) + PlacedIn(s, network, steps)
    decreases |steps|
  {
    if steps != [] {
      var next := Next(s, steps[0]);
      FilesAfterOne(s, network, steps[0]);
      FilesAfter(next, network, steps[1..]);
      var placed, later := PlacedBy(s, network, steps[0]), PlacedIn(next, network, steps[1..]);
      assert (Files(s.disk, network) + placed) + later == Files(s.disk, network) + (placed + later);
    }
  }

  lemma FilesAfterOne(s: State, network: string, step: Step)
    requires Possible(s, step)
    ensures Files(Next(s, step).disk, network) == Files(s.disk, network) + PlacedBy(s, network, step)
  {
    var files := Files(s.disk, network);
    assert files + map[] == files;
    match step
    case StoreEpoch(n, epoch, key, _) => PutIsAdd(s.disk, network, n, epoch, key);
    case Activate(n, epoch, key, _) => PutIsAdd(s.disk, network, n, epoch, key);
    case _ => assert Next(s, step).disk == s.disk;
  }

  lemma PutIsAdd(disk: map<string, Epochs>, network: string, n: string, epoch: string, key: bytes)
    ensures Files(MakeDir(disk, n), network) == Files(disk, network)
    ensures Files(PutFile(disk, n, epoch, key), network) ==
      if n == network then Files(disk, network) + map[epoch := key] else Files(disk, network)
  {
  }

  lemma {:induction false} LoadWaits(s: State, t: nat, steps: seq<Step>)
    requires t in s.loads && PossibleRun(s, steps) && forall i :: 0 <= i < |steps| ==> steps[i] != EndLoad(t)
    ensures t in Run(s, steps).loads && Run(s, steps).loads[t] == s.loads[t]
    decreases |steps|
  {
    if steps != [] {
      assert forall i :: 0 <= i < |steps| - 1 ==> steps[1..][i] == steps[i + 1];
      LoadWaits(Next(s, steps[0]), t, steps[1..]);
    }
  }

  /** A listing that begins in any state, and whatever other calls do before it ends: its
      end breaks agreement if and only if some key placed in between is not the one it
      read, and its network is not evicted at once. */
  lemma ListingGoesStaleIff(s: State, t: nat, network: string, steps: seq<Step>)
    requires Possible(s, BeginLoad(t, network)) && network !in s.cache && network in s.disk && Readable(s.disk[network])
    requires var s1 := Next(s, BeginLoad(t, network));
      PossibleRun(s1, steps) && forall i :: 0 <= i < |steps| ==> steps[i] != EndLoad(t)
    ensures
      var s1 := Next(s, BeginLoad(t, network));
      var s2, placed := Run(s1, steps), PlacedIn(s1, network, steps);
      && Possible(s2, EndLoad(t))
      && (StaleAfter(s2, EndLoad(t)) <==>
            && Stays(s2.order, network)
            && exists e :: e in placed && !(e in s.disk[network] && s.disk[network][e] == placed[e]))
  {
    var s1 := Next(s, BeginLoad(t, network));
    LoadWaits(s1, t, steps);
    FilesAfter(s1, network, steps);
    var read, placed := s.disk[network], PlacedIn(s1, network, steps);
    if forall e :: e in placed ==> e in read && read[e] == placed[e] {
      assert read + placed == read;
    } else {
      var e :| e in placed && !(e in read && read[e] == placed[e]);
      assert e in read + placed && (read + placed)[e] == placed[e];
    }
  }

  predicate CleanRun(s: State, steps: seq<Step>)
    decreases |steps|
  {
    steps != [] ==> Possible(s, steps[0]) && !StaleAfter(s, steps[0]) && CleanRun(Next(s, steps[0]), steps[1..])
  }

  lemma {:induction false} RunKeepsInv(s: State, steps: seq<Step>)
    requires Inv(s) && CleanRun(s, steps)
    ensures PossibleRun(s, steps) && Inv(Run(s, steps))
    decreases |steps|
  {
    if steps != [] {
      StepKeepsAgreementIff(s, steps[0]);
      StepKeepsBounded(s, steps[0]);
      StepKeepsLoads(s, steps[0]);
      RunKeepsInv(Next(s, steps[0]), steps[1..]);
    }
  }

  /** From any directory and in any interleaving without such a step, the cached answer
      for every network is the cache-free one. */
  lemma CacheIsTransparent(disk: map<string, Epochs>, steps: seq<Step>, network: string)
    requires CleanRun(Opened(disk), steps)
    ensures PossibleRun(Opened(disk), steps)
    ensures var s := Run(Opened(disk), steps); Listed(s, network).1 == ReadAll(s.disk, network)
  {
    RunKeepsInv(Opened(disk), steps);
    ListedIsRead(Run(Opened(disk), steps), network);
  }

  // ---------------------------------------------------------------- where a network's cache is behind

  /** The epochs of a listing that the directory has since gained or changed. */
  function Behind(epochs: Epochs, files: Epochs): set<string> {
    set e | e in files && (e !in epochs || epochs[e] != files[e])
  }

  /** The epochs of `network` the cache is behind on after a step, when `was` were
      before: a late failure adds its epoch, storing an epoch shows it again, a listing
      that ends brings those written since it read, and a completed activation or an
      eviction leaves none. */
  function StaleEpochs(s: State, network: string, was: set<string>, step: Step): set<string>
    requires Possible(s, step)
  {
    if network !in Next(s, step).cache then {}
    else match step
         case EndLoad(t) =>
           if s.loads[t].network == network then Behind(s.loads[t].epochs, Files(s.disk, network)) else was
         case Activate(n, epoch, _, _) => if n == network && StaleAfter(s, step) then was + {epoch} else was
         case StoreEpoch(n, epoch, _, outcome) => if n == network && outcome.Placed? then was - {epoch} else was
         case _ => was
  }

  function Stale(s: State, network: string, was: set<string>, steps: seq<Step>): set<string>
    requires PossibleRun(s, steps)
    decreases |steps|
  {
    if steps == [] then was
    else Stale(Next(s, steps[0]), network, StaleEpochs(s, network, was, steps[0]), steps[1..])
  }

  /** The cache shows the directory as it is, except for the stale epochs, all of which
      it is behind on. */
  predicate Shows(s: State, network: string, stale: set<string>) {
    if network in s.cache
    then && network in s.disk && Readable(s.disk[network]) && s.cache[network].Keys <= s.disk[network].Keys
         && stale == Behind(s.cache[network], s.disk[network])
    else stale == {}
  }

  ghost predicate Sound(s: State, network: string, stale: set<string>) {
    Shows(s, network, stale) && LoadsOk(s) && DiskOk(s, network)
  }

  /** A network some listing has read stays readable: only whole keys are written. */
  predicate DiskOk(s: State, network: string) {
    (exists t :: t in s.loads && s.loads[t].network == network) ==> network in s.disk && Readable(s.disk[network])
  }

  lemma StoreShows(s: State, network: string, stale: set<string>, step: Step)
    requires Shows(s, network, stale) && step.StoreEpoch? && Possible(s, step)
    ensures Shows(Next(s, step), network, StaleEpochs(s, network, stale, step))
  {
  }

  lemma ActivateShows(s: State, network: string, stale: set<string>, step: Step)
    requires Shows(s, network, stale) && step.Activate? && Possible(s, step)
    ensures Shows(Next(s, step), network, StaleEpochs(s, network, stale, step))
  {
    if step.network == network && network in s.cache && step.outcome == Placed(false)
       && MayActivate(s, network, step.epoch, step.key) && step.epoch in s.disk[network] {
      assert s.disk[network][step.epoch := step.key] == s.disk[network];
    }
  }

  lemma ListShows(s: State, network: string, stale: set<string>, step: Step)
    requires Shows(s, network, stale) && LoadsOk(s) && DiskOk(s, network) && Possible(s, step)
    requires step.EpochKeys? || step.BeginLoad? || step.EndLoad?
    ensures Shows(Next(s, step), network, StaleEpochs(s, network, stale, step))
  {
    if step.EndLoad? && s.loads[step.thread].network == network {
      assert network in Next(s, step).cache ==> Next(s, step).cache[network] == s.loads[step.thread].epochs;
    }
  }

  lemma StepKeepsDiskOk(s: State, network: string, step: Step)
    requires DiskOk(s, network) && Possible(s, step)
    ensures DiskOk(Next(s, step), network)
  {
    var s' := Next(s, step);
    if t: nat :| t in s'.loads && s'.loads[t].network == network {
      if t in s.loads && s.loads[t] == s'.loads[t] { assert network in s.disk && Readable(s.disk[network]); }
    }
  }

  lemma StepShows(s: State, network: string, stale: set<string>, step: Step)
    requires Sound(s, network, stale) && Possible(s, step)
    ensures Sound(Next(s, step), network, StaleEpochs(s, network, stale, step))
  {
    StepKeepsLoads(s, step);
    StepKeepsDiskOk(s, network, step);
    match step
    case StoreEpoch(_, _, _, _) => StoreShows(s, network, stale, step);
    case Activate(_, _, _, _) => ActivateShows(s, network, stale, step);
    case _ => ListShows(s, network, stale, step);
  }

  lemma {:induction false} RunShows(s: State, network: string, stale: set<string>, steps: seq<Step>)
    requires Sound(s, network, stale) && PossibleRun(s, steps)
    ensures Sound(Run(s, steps), network, Stale(s, network, stale, steps))
    decreases |steps|
  {
    if steps != [] {
      StepShows(s, network, stale, steps[0]);
      RunShows(Next(s, steps[0]), network, StaleEpochs(s, network, stale, steps[0]), steps[1..]);
    }
  }

  /** From any directory and in every interleaving, late failures and overlapping
      listings included: a network's cached answer is right for every epoch but exactly
      those it fell behind on since it was last loaded, and so it is the cache-free
      answer if and only if there are none. */
  lemma CacheIsBehindExactly(disk: map<string, Epochs>, steps: seq<Step>, network: string)
    requires PossibleRun(Opened(disk), steps)
    ensures
      var s := Run(Opened(disk), steps);
      var stale := Stale(Opened(disk), network, {}, steps);
      && (Listed(s, network).1 == ReadAll(s.disk, network) <==> stale == {})
      && (stale != {} ==>
            && Listed(s, network).1.Some? && network in s.disk
            && forall e :: e in stale <==> e in s.disk[network] && (var shown := Listed(s, network).1.value; e !in shown || shown[e] != s.disk[network][e]))
  {
    RunShows(Opened(disk), network, {}, steps);
    var s := Run(Opened(disk), steps);
    var stale := Stale(Opened(disk), network, {}, steps);
    if network in s.cache && stale == {} {
      assert forall e :: e in s.disk[network] ==> e !in Behind(s.cache[network], s.disk[network]);
      assert s.cache[network] == s.disk[network];
    }
    if stale != {} {
      var e :| e in stale;
      assert e in Behind(s.cache[network], s.disk[network]);
    }
  }

  // ---------------------------------------------------------------- which networks are cached

  /** Without overlapping listings the order is exactly the cached networks, once each. */
  predicate WellFormed(s: State) {
    NoDuplicates(s.order) && Elements(s.order) == s.cache.Keys && |s.order| <= CACHE_CAP && s.loads == map[]
  }

  lemma {:induction false} RemoveFirstIsWithout(order: seq<string>, key: string)
    requires NoDuplicates(order)
    ensures RemoveFirst(order, key) == Without(order, key)
    decreases |order|
  {
    if order != [] {
      assert order[0] !in order[1..];
      RemoveFirstIsWithout(order[1..], key);
      if order[0] == key { WithoutAbsent(order[1..], key); }
    }
  }

  lemma AppendDistinct(order: seq<string>, key: string)
    requires NoDuplicates(order) && key !in order
    ensures NoDuplicates(order + [key]) && Elements(order + [key]) == Elements(order) + {key}
  {
  }

  lemma TailDistinct(order: seq<string>)
    requires NoDuplicates(order) && order != []
    ensures NoDuplicates(order[1..]) && Elements(order[1..]) == Elements(order) - {order[0]}
  {
    assert order == [order[0]] + order[1..];
  }

  lemma InstallWellFormed(s: State, network: string, epochs: Epochs)
    requires WellFormed(s) && network !in s.cache
    ensures WellFormed(Install(s, network, epochs))
  {
    assert network !in Elements(s.order);
    AppendDistinct(s.order, network);
    TailDistinct(s.order + [network]);
  }

  lemma TouchWellFormed(s: State, network: string)
    requires WellFormed(s) && network in s.cache
    ensures WellFormed(s.(order := Touched(s.order, network)))
  {
    assert network in Elements(s.order);
    RemoveFirstIsWithout(s.order, network);
    WithoutKeepsDistinct(s.order, network);
    TouchedElements(s.order, network);
  }

  /** The call may forget a network, or overlap others. */
  predicate Forgets(step: Step) {
    (step.Activate? && step.outcome == Placed(true)) || step.BeginLoad? || step.EndLoad?
  }

  lemma StepKeepsWellFormed(s: State, step: Step)
    requires WellFormed(s) && Possible(s, step) && !Forgets(step)
    ensures WellFormed(Next(s, step))
  {
    match step
    case StoreEpoch(_, _, _, _) => assert Next(s, step).cache.Keys == s.cache.Keys;
    case EpochKeys(network) =>
      if network in s.cache { TouchWellFormed(s, network); }
      else if network in s.disk { InstallWellFormed(s, network, s.disk[network]); }
    case Activate(_, _, _, _) => assert Next(s, step).cache == s.cache && Next(s, step).order == s.order;
  }

  lemma ForgetWellFormed(s: State, network: string)
    requires WellFormed(s)
    ensures WellFormed(s.(cache := s.cache - {network}, order := RemoveFirst(s.order, network)))
  {
    RemoveFirstIsWithout(s.order, network);
    WithoutKeepsDistinct(s.order, network);
    var order := Without(s.order, network);
    assert Elements(order) == Elements(s.order) - {network};
    assert (s.cache - {network}).Keys == s.cache.Keys - {network};
  }

  predicate NothingOverlaps(steps: seq<Step>) {
    forall i :: 0 <= i < |steps| ==> !steps[i].BeginLoad? && !steps[i].EndLoad?
  }

  lemma {:induction false} RunKeepsWellFormed(s: State, steps: seq<Step>)
    requires WellFormed(s) && NothingOverlaps(steps) && PossibleRun(s, steps)
    ensures WellFormed(Run(s, steps))
    decreases |steps|
  {
    if steps != [] {
      var step := steps[0];
      if !Forgets(step) {
        StepKeepsWellFormed(s, step);
      } else if MayActivate(s, step.network, step.epoch, step.key) {
        ForgetWellFormed(s, step.network);
        assert WellFormed(Next(s, step));
      }
      RunKeepsWellFormed(Next(s, step), steps[1..]);
    }
  }

  /** From any directory and in every run without overlapping listings, activations
      included, the eviction order is exactly the cached networks, each once. */
  lemma OrderIsTheCachedNetworks(disk: map<string, Epochs>, steps: seq<Step>)
    requires NothingOverlaps(steps) && PossibleRun(Opened(disk), steps)
    ensures
      var s := Run(Opened(disk), steps);
      && NoDuplicates(s.order) && |s.order| <= 32
      && forall network :: network in s.order <==> network in s.cache
  {
    RunKeepsWellFormed(Opened(disk), steps);
    var s := Run(Opened(disk), steps);
    forall network ensures network in s.order <==> network in s.cache {
      assert network in s.cache <==> network in Elements(s.order);
    }
  }

  function Reversed(order: seq<string>): (r: seq<string>)
    ensures |r| == |order| && forall i :: 0 <= i < |r| ==> r[i] == order[|order| - 1 - i]
  {
    if order == [] then [] else [order[|order| - 1]] + Reversed(order[..|order| - 1])
  }

  lemma {:induction false} ReversedWithout(order: seq<string>, key: string)
    ensures Reversed(Without(order, key)) == Without(Reversed(order), key)
    decreases |order|
  {
    if order != [] {
      var init, last := order[..|order| - 1], order[|order| - 1];
      ReversedWithout(init, key);
      assert order == init + [last];
      WithoutAppend(init, [last], key);
      assert [last][1..] == [];
      if last == key {
        assert Without(order, key) == Without(init, key) + [];
      } else {
        assert (Without(init, key) + [last])[..|Without(init, key)|] == Without(init, key);
      }
      assert Reversed(order)[1..] == Reversed(init);
    }
  }

  lemma ReversedAppend(order: seq<string>, key: string)
    ensures Reversed(order + [key]) == [key] + Reversed(order)
  {
    assert (order + [key])[..|order|] == order;
  }

  /** A cached network has a readable directory. */
  predicate Backed(s: State) {
    forall network :: network in s.cache ==> network in s.disk && Readable(s.disk[network])
  }

  lemma StepKeepsBacked(s: State, step: Step)
    requires Backed(s) && Possible(s, step) && !Forgets(step)
    ensures Backed(Next(s, step))
  {
  }

  lemma TouchIsAdd(order: seq<string>, network: string)
    requires NoDuplicates(order) && network in order
    ensures Reversed(Touched(order, network)) == AddTo(Reversed(order), network, CACHE_CAP)
  {
    ReversedHas(order, network);
    RemoveFirstIsWithout(order, network);
    ReversedAppend(Without(order, network), network);
    ReversedWithout(order, network);
  }

  lemma {:induction false} ReversedTail(order: seq<string>)
    requires order != []
    ensures Reversed(order[1..]) == Reversed(order)[..|order| - 1]
    decreases |order|
  {
    var n := |order| - 1;
    if n > 0 {
      var front, last := order[..n], order[n];
      ReversedTail(front);
      assert order[1..][..n - 1] == front[1..] && order[1..][n - 1] == last;
      assert ([last] + Reversed(front))[..n] == [last] + Reversed(front)[..n - 1];
    }
  }

  lemma InstallIsAdd(order: seq<string>, network: string)
    requires network !in order && |order| <= CACHE_CAP
    ensures
      var all := order + [network];
      Reversed(if |all| > CACHE_CAP then all[1..] else all) == AddTo(Reversed(order), network, CACHE_CAP)
  {
    ReversedHas(order, network);
    ReversedAppend(order, network);
    ReversedTail(order + [network]);
  }

  /** Using a network is one addition to a window of 32, kept most recent first. */
  lemma UseIsAdd(s: State, network: string)
    requires WellFormed(s) && network in s.disk && Readable(s.disk[network])
    ensures Reversed(Listed(s, network).0.order) == AddTo(Reversed(s.order), network, CACHE_CAP)
  {
    assert network in s.cache <==> network in Elements(s.order);
    if network in s.cache { TouchIsAdd(s.order, network); } else { InstallIsAdd(s.order, network); }
  }

  lemma ReversedHas(order: seq<string>, key: string)
    ensures key in Reversed(order) <==> key in order
  {
    var r := Reversed(order);
    if key in order {
      var i :| 0 <= i < |order| && order[i] == key;
      assert r[|order| - 1 - i] == key;
    }
  }

  /** The network a step uses: its directory was listed and readable. */
  function UsedBy(s: State, step: Step): seq<string> {
    if step.EpochKeys? && step.network in s.disk && Readable(s.disk[step.network]) then [step.network] else []
  }

  function Used(s: State, steps: seq<Step>): seq<string>
    requires PossibleRun(s, steps)
    decreases |steps|
  {
    if steps == [] then [] else UsedBy(s, steps[0]) + Used(Next(s, steps[0]), steps[1..])
  }

  /** The cache order is the window over the uses in `log`. */
  predicate Windowed(s: State, log: seq<string>) {
    WellFormed(s) && Backed(s) && Reversed(s.order) == AddAll(log, CACHE_CAP)
  }

  predicate NothingForgotten(steps: seq<Step>) {
    forall i :: 0 <= i < |steps| ==> !Forgets(steps[i])
  }

  lemma WindowStep(s: State, log: seq<string>, step: Step)
    requires Windowed(s, log) && Possible(s, step) && !Forgets(step)
    ensures Windowed(Next(s, step), log + UsedBy(s, step))
  {
    StepKeepsWellFormed(s, step);
    StepKeepsBacked(s, step);
    var first := UsedBy(s, step);
    if first != [] {
      UseIsAdd(s, step.network);
      assert (log + first)[..|log + first| - 1] == log;
    } else {
      assert log + first == log;
      assert Next(s, step).order == s.order;
    }
  }

  lemma {:induction false} WindowFollowsUse(s: State, log: seq<string>, steps: seq<Step>)
    requires Windowed(s, log) && NothingForgotten(steps) && PossibleRun(s, steps)
    ensures Windowed(Run(s, steps), log + Used(s, steps))
    decreases |steps|
  {
    if steps == [] {
      assert log + [] == log;
    } else {
      var next, first := Next(s, steps[0]), UsedBy(s, steps[0]);
      WindowStep(s, log, steps[0]);
      WindowFollowsUse(next, log + first, steps[1..]);
      Regroup(Run(s, steps), log, first, Used(next, steps[1..]));
    }
  }

  lemma Regroup(s: State, a: seq<string>, b: seq<string>, c: seq<string>)
    requires Windowed(s, (a + b) + c)
    ensures Windowed(s, a + (b + c))
  {
    assert (a + b) + c == a + (b + c);
  }

  /** From any directory, as long as no activation completes and no listings overlap, the
      cached networks are exactly the last 32 different ones that were used: the least
      recently used is the one to go. */
  lemma CachesTheMostRecentlyUsed(disk: map<string, Epochs>, steps: seq<Step>, network: string)
    requires NothingForgotten(steps) && PossibleRun(Opened(disk), steps)
    ensures network in Run(Opened(disk), steps).cache <==> Recently(Used(Opened(disk), steps), network, 32)
  {
    var start := Opened(disk);
    WindowFollowsUse(start, [], steps);
    var s := Run(start, steps);
    assert [] + Used(start, steps) == Used(start, steps);
    ReversedHas(s.order, network);
    assert network in s.cache <==> network in Elements(s.order);
    WindowIsExact(Used(start, steps), CACHE_CAP, network);
  }

  // ---------------------------------------------------------------- both excluded cases are real

  /** A first activation that only makes the directory, a listing that caches it as
      empty, and a second one whose last sync fails leave a key file that the cache
      keeps hiding. */
  lemma LateFailureHidesAnEpoch(network: string, epoch: string, key: bytes)
    requires |key| == 32
    ensures
      var steps := [Activate(network, epoch, key, Prepared), EpochKeys(network), Activate(network, epoch, key, Placed(false))];
      && PossibleRun(Opened(map[]), steps)
      && var s := Run(Opened(map[]), steps);
         ReadAll(s.disk, network) == Some(map[epoch := key]) && Listed(s, network).1 == Some(map[])
  {
    var first, list, last := Activate(network, epoch, key, Prepared), EpochKeys(network), Activate(network, epoch, key, Placed(false));
    var s1 := Next(Opened(map[]), first);
    assert s1.disk == map[network := map[]];
    var s2 := Next(s1, list);
    assert s2.cache == map[network := map[]];
    var s3 := Next(s2, last);
    assert s3.disk == map[network := map[epoch := key]];
    RunThree(Opened(map[]), first, list, last);
  }

  lemma RunThree(s: State, a: Step, b: Step, c: Step)
    requires Possible(s, a) && Possible(Next(s, a), b) && Possible(Next(Next(s, a), b), c)
    ensures PossibleRun(s, [a, b, c]) && Run(s, [a, b, c]) == Next(Next(Next(s, a), b), c)
  {
    assert [a, b, c][1..] == [b, c] && [b, c][1..] == [c] && [c][1..] == [];
    var s1, s2 := Next(s, a), Next(Next(s, a), b);
    assert PossibleRun(s2, [c]) && Run(s2, [c]) == Next(s2, c);
    assert PossibleRun(s1, [b, c]) && Run(s1, [b, c]) == Run(s2, [c]);
  }

  /** A listing that reads the directory before an epoch is stored and installs it
      afterwards hides that epoch: the store finds the network cold. */
  lemma OverlappingListingHidesAnEpoch(disk: map<string, Epochs>, network: string, epoch: string, key: bytes)
    requires |key| == 32 && network in disk && Readable(disk[network]) && epoch !in disk[network]
    ensures
      var steps := [BeginLoad(0, network), StoreEpoch(network, epoch, key, Placed(false)), EndLoad(0)];
      && PossibleRun(Opened(disk), steps)
      && var s := Run(Opened(disk), steps);
         ReadAll(s.disk, network) == Some(disk[network][epoch := key]) && Listed(s, network).1 == Some(disk[network])
  {
    var begin, store := BeginLoad(0, network), StoreEpoch(network, epoch, key, Placed(false));
    var s1 := Next(Opened(disk), begin);
    assert s1.loads == map[0 := Load(network, disk[network])];
    var s2 := Next(s1, store);
    assert s2.cache == map[] && s2.loads == s1.loads;
    RunThree(Opened(disk), begin, store, EndLoad(0));
  }

  // ---------------------------------------------------------------- the newest epoch

  predicate Newest(epochs: Epochs, id: string) {
    id in epochs && forall other :: other in epochs ==> AtMost(other, id)
  }

  // ---------------------------------------------------------------- the object

  lemma {:induction false} RemoveFirstAt(order: seq<string>, i: nat)
    requires i < |order| && order[i] !in order[..i]
    ensures RemoveFirst(order, order[i]) == order[..i] + order[i + 1..]
    decreases i
  {
    if i == 0 {
      assert order[..0] + order[1..] == order[1..];
    } else {
      assert order[0] == order[..i][0];
      assert order[1..][..i - 1] == order[..i][1..];
      RemoveFirstAt(order[1..], i - 1);
      assert order[..i] == [order[0]] + order[1..][..i - 1] && order[i + 1..] == order[1..][i..];
    }
  }

  lemma {:induction false} RemoveFirstAbsent(order: seq<string>, key: string)
    requires key !in order
    ensures RemoveFirst(order, key) == order
    decreases |order|
  {
    if order != [] {
      assert order == [order[0]] + order[1..];
      RemoveFirstAbsent(order[1..], key);
    }
  }

  /** Making the directory changes nothing if it is there, and the file goes into it. */
  lemma DirectoryFirst(disk: map<string, Epochs>, network: string, epoch: string, key: bytes)
    ensures network in disk ==> MakeDir(disk, network) == disk
    ensures MakeDir(disk, network)[network] == Files(disk, network)
    ensures PutFile(MakeDir(disk, network), network, epoch, key) == PutFile(disk, network, epoch, key)
  {
  }

  class Keyring {
    var disk: map<string, Epochs>
    var epochLRU: map<string, Epochs>
    var epochOrder: seq<string>
    ghost var loads: map<nat, Load>

    ghost function View(): State
      reads this
    {
      State(disk, epochLRU, epochOrder, loads)
    }

    method StoreEpoch(network: string, epoch: string, key: bytes, outcome: Outcome) returns (ok: bool)
      modifies this
      ensures View() == Stored(old(View()), network, epoch, key, outcome) && ok == outcome.Placed?
    {
      if outcome.Refused? { return false; }
      DirectoryFirst(disk, network, epoch, key);
      disk := MakeDir(disk, network);
      if outcome.Prepared? { return false; }
      disk := PutFile(disk, network, epoch, key);
      if network !in epochLRU { return true; }
      epochLRU := epochLRU[network := epochLRU[network][epoch := key]];
      return true;
    }

    method Touch(network: string)
      modifies this`epochOrder
      ensures epochOrder == Touched(old(epochOrder), network)
    {
      var i := 0;
      while i < |epochOrder|
        invariant 0 <= i <= |epochOrder| && epochOrder == old(epochOrder) && network !in epochOrder[..i]
      {
        if epochOrder[i] == network {
          RemoveFirstAt(epochOrder, i);
          epochOrder := epochOrder[..i] + epochOrder[i + 1..] + [network];
          return;
        }
        i := i + 1;
      }
    }

    /** The last critical section of a cold listing. */
    method InstallListing(network: string, epochs: Epochs)
      modifies this`epochLRU, this`epochOrder
      ensures View() == Install(old(View()), network, epochs)
    {
      epochLRU, epochOrder := epochLRU[network := epochs], epochOrder + [network];
      if |epochOrder| > CACHE_CAP {
        epochLRU, epochOrder := epochLRU - {epochOrder[0]}, epochOrder[1..];
      }
    }

    /** While cache and directory agree, the answer is the cache-free reader's. */
    method EpochKeys(network: string) returns (r: Option<Epochs>)
      modifies this`epochLRU, this`epochOrder
      ensures (View(), r) == Listed(old(View()), network)
      ensures Agrees(old(View())) ==> Agrees(View()) && r == ReadAll(disk, network)
    {
      if Agrees(View()) { ListedIsRead(View(), network); }
      if network in epochLRU {
        r := Some(epochLRU[network]);
        Touch(network);
        return;
      }
      if network !in disk { return Some(map[]); }
      var epochs := disk[network];
      if !Readable(epochs) { return None; }
      InstallListing(network, epochs);
      return Some(epochs);
    }

    method EpochKey(network: string, epoch: string) returns (key: Option<bytes>)
      modifies this`epochLRU, this`epochOrder
      ensures View() == Listed(old(View()), network).0
      ensures
        var all := Listed(old(View()), network).1;
        key == if all.Some? && epoch in all.value then Some(all.value[epoch]) else None
      ensures Agrees(old(View())) ==> Listed(old(View()), network).1 == ReadAll(disk, network)
    {
      var epochs := EpochKeys(network);
      if epochs.None? || epoch !in epochs.value { return None; }
      return Some(epochs.value[epoch]);
    }

    /** The newest epoch is the lexicographic maximum of what EpochKeys lists. */
    method ActiveEpoch(network: string) returns (newest: Option<(bytes, string)>)
      modifies this`epochLRU, this`epochOrder
      ensures View() == Listed(old(View()), network).0
      ensures
        var all := Listed(old(View()), network).1;
        if all.None? || all.value == map[] then newest == None
        else newest.Some? && Newest(all.value, newest.value.1) && all.value[newest.value.1] == newest.value.0
      ensures Agrees(old(View())) ==> Listed(old(View()), network).1 == ReadAll(disk, network)
    {
      var epochs := EpochKeys(network);
      if epochs.None? || epochs.value == map[] { return None; }
      var id := MaxKey(epochs.value);
      return Some((epochs.value[id], id));
    }

    /** The critical section that forgets a network. */
    method ForgetNetwork(network: string)
      modifies this`epochLRU, this`epochOrder
      ensures epochLRU == old(epochLRU) - {network} && epochOrder == RemoveFirst(old(epochOrder), network)
    {
      epochLRU := epochLRU - {network};
      var i := 0;
      while i < |epochOrder|
        invariant 0 <= i <= |epochOrder| && epochOrder == old(epochOrder) && network !in epochOrder[..i]
        invariant epochLRU == old(epochLRU) - {network}
      {
        if epochOrder[i] == network {
          RemoveFirstAt(epochOrder, i);
          epochOrder := epochOrder[..i] + epochOrder[i + 1..];
          return;
        }
        i := i + 1;
      }
      RemoveFirstAbsent(epochOrder, network);
    }

    /** The end of activatePendingPairEpoch: write the key, then forget the network. */
    method Activate(network: string, epoch: string, key: bytes, outcome: Outcome) returns (ok: bool)
      modifies this
      ensures View() == Activated(old(View()), network, epoch, key, outcome)
      ensures ok == (outcome == Placed(true) && MayActivate(old(View()), network, epoch, key))
    {
      if outcome.Refused? { return false; }
      DirectoryFirst(disk, network, epoch, key);
      disk := MakeDir(disk, network);
      if epoch in disk[network] && disk[network][epoch] != key { return false; }
      if outcome.Prepared? { return false; }
      disk := PutFile(disk, network, epoch, key);
      if !outcome.synced { return false; }
      ForgetNetwork(network);
      return true;
    }
  }

  method MaxKey(epochs: Epochs) returns (id: string)
    requires epochs != map[]
    ensures Newest(epochs, id)
  {
    var rest := epochs.Keys;
    id :| id in rest;
    rest := rest - {id};
    AtMostTotal(id, id);
    while rest != {}
      invariant rest <= epochs.Keys && id in epochs
      invariant forall other :: other in epochs && other !in rest ==> AtMost(other, id)
      decreases |rest|
    {
      var next :| next in rest;
      AtMostTotal(id, next);
      if AtMost(id, next) {
        forall other | other in epochs && other !in rest ensures AtMost(other, next) {
          AtMostTransitive(other, id, next);
        }
        AtMostTotal(next, next);
        id := next;
      }
      rest := rest - {next};
    }
  }
}
