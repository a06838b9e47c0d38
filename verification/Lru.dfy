/** The two bounded memories of invocation dispatch: the duplicate window
    (sdk/lru.go lruSet) and the cache of completed results (sdk/dispatch.go lruMap). */
module Lru {
  import opened Bytes

  const DEFAULT_CAP := 4096

  function Without(order: seq<string>, key: string): (r: seq<string>)
    ensures key !in r && forall k :: k in r <==> k in order && k != key
    ensures |r| <= |order|
  {
    if order == [] then []
    else if order[0] == key then Without(order[1..], key)
    else [order[0]] + Without(order[1..], key)
  }

  lemma {:induction false} WithoutAppend(a: seq<string>, b: seq<string>, key: string)
    ensures Without(a + b, key) == Without(a, key) + Without(b, key)
    decreases |a|
  {
    if a == [] {
      assert a + b == b;
    } else {
      assert (a + b)[0] == a[0] && (a + b)[1..] == a[1..] + b;
      WithoutAppend(a[1..], b, key);
    }
  }

  lemma {:induction false} WithoutAbsent(order: seq<string>, key: string)
    requires key !in order
    ensures Without(order, key) == order
    decreases |order|
  {
    if order != [] {
      assert order == [order[0]] + order[1..];
      WithoutAbsent(order[1..], key);
    }
  }

  /** Removing one key keeps the rest in order, once each. */
  lemma {:induction false} WithoutKeepsDistinct(order: seq<string>, key: string)
    requires NoDuplicates(order)
    ensures NoDuplicates(Without(order, key))
    ensures |Without(order, key)| == if key in order then |order| - 1 else |order|
    decreases |order|
  {
    if order != [] {
      assert order[0] !in order[1..];
      WithoutKeepsDistinct(order[1..], key);
      if order[0] == key { WithoutAbsent(order[1..], key); }
    }
  }

  lemma {:induction false} WithoutAt(order: seq<string>, i: nat)
    requires NoDuplicates(order) && i < |order|
    ensures Without(order, order[i]) == order[..i] + order[i + 1..]
    decreases i
  {
    if i == 0 {
      WithoutAbsent(order[1..], order[0]);
    } else {
      WithoutAt(order[1..], i - 1);
      assert order[..i] == [order[0]] + order[1..][..i - 1] && order[i + 1..] == order[1..][i..];
    }
  }

  // ---------------------------------------------------------------- the duplicate window

  /** One Add on a set kept most recent first. */
  function AddTo(order: seq<string>, key: string, cap: nat): seq<string> {
    if key in order then [key] + Without(order, key)
    else if |order| + 1 > cap then ([key] + order)[..|order|]
    else [key] + order
  }

  function AddAll(log: seq<string>, cap: nat): seq<string>
    decreases |log|
  {
    if log == [] then [] else AddTo(AddAll(log[..|log| - 1], cap), log[|log| - 1], cap)
  }

  function Elements(s: seq<string>): set<string> {
    set k | k in s
  }

  /** `key` is among the last `cap` different keys of the log: from some occurrence of
      it onwards at most `cap` different keys were added. */
  predicate Recently(log: seq<string>, key: string, cap: nat) {
    exists i :: 0 <= i < |log| && log[i] == key && |Elements(log[i..])| <= cap
  }

  /** All keys of the log, most recently added first. */
  function Recency(log: seq<string>): seq<string>
    decreases |log|
  {
    if log == [] then [] else [log[|log| - 1]] + Without(Recency(log[..|log| - 1]), log[|log| - 1])
  }

  lemma {:induction false} RecencyDistinct(log: seq<string>)
    ensures NoDuplicates(Recency(log)) && forall k :: k in Recency(log) <==> k in log
    decreases |log|
  {
    if log != [] {
      var init, x := log[..|log| - 1], log[|log| - 1];
      RecencyDistinct(init);
      WithoutKeepsDistinct(Recency(init), x);
      assert log == init + [x];
    }
  }

  function Take(s: seq<string>, n: nat): seq<string> {
    if |s| <= n then s else s[..n]
  }

  lemma {:induction false} AddAllIsRecencyPrefix(log: seq<string>, cap: nat)
    requires cap >= 1
    ensures AddAll(log, cap) == Take(Recency(log), cap)
    decreases |log|
  {
    if log != [] {
      var init, x := log[..|log| - 1], log[|log| - 1];
      AddAllIsRecencyPrefix(init, cap);
      RecencyDistinct(init);
      TakeStep(Recency(init), x, cap);
    }
  }

  /** Adding to the kept front is keeping the front of the whole order. */
  lemma TakeStep(all: seq<string>, x: string, cap: nat)
    requires NoDuplicates(all) && cap >= 1
    ensures AddTo(Take(all, cap), x, cap) == Take([x] + Without(all, x), cap)
  {
    var kept := Take(all, cap);
    var rest := all[|kept|..];
    assert all == kept + rest;
    WithoutAppend(kept, rest, x);
    if x in kept {
      assert x !in rest by { assert forall i :: 0 <= i < |rest| ==> rest[i] == all[|kept| + i]; }
      WithoutAbsent(rest, x);
      WithoutKeepsDistinct(kept, x);
      FrontOf([x] + Without(kept, x), rest, cap);
    } else {
      WithoutAbsent(kept, x);
      FrontOf([x] + kept, Without(rest, x), cap);
    }
  }

  /** The first `cap` of a concatenation whose second part only matters when needed. */
  lemma FrontOf(a: seq<string>, b: seq<string>, cap: nat)
    requires |a| >= cap || b == []
    ensures Take(a + b, cap) == Take(a, cap)
  {
    if b == [] { assert a + b == a; } else { assert (a + b)[..cap] == a[..cap]; }
  }

  /** Where a key stands in the recency order counts the different keys since. */
  lemma {:induction false} RecencyPosition(log: seq<string>, key: string) returns (i: nat, j: nat)
    requires key in log
    ensures i < |log| && log[i] == key && key !in log[i + 1..]
    ensures j < |Recency(log)| && Recency(log)[j] == key && Elements(log[i..]) == Elements(Recency(log)[..j + 1])
    decreases |log|
  {
    var init, x := log[..|log| - 1], log[|log| - 1];
    if key == x {
      i, j := |init|, 0;
      assert log[i..] == [x] && Recency(log)[..1] == [x];
    } else {
      assert log == init + [x];
      var j0: nat;
      i, j0 := RecencyPosition(init, key);
      j := RecencyMove(Recency(init), j0, x);
      assert log[i..] == init[i..] + [x];
      assert Elements(log[i..]) == Elements(init[i..]) + {x};
      assert log[i + 1..] == init[i + 1..] + [x];
    }
  }

  /** Where a key stands after another one moves to the front. */
  lemma RecencyMove(r: seq<string>, j0: nat, x: string) returns (j: nat)
    requires j0 < |r| && r[j0] != x
    ensures
      var r' := [x] + Without(r, x);
      j < |r'| && r'[j] == r[j0] && Elements(r'[..j + 1]) == Elements(r[..j0 + 1]) + {x}
  {
    var front, key, back := r[..j0], r[j0], r[j0 + 1..];
    assert r == front + ([key] + back) && r[..j0 + 1] == front + [key];
    WithoutAppend(front, [key] + back, x);
    assert ([key] + back)[1..] == back;
    var f := [x] + Without(front, x);
    j := |f|;
    var r' := [x] + Without(r, x);
    assert r' == f + ([key] + Without(back, x));
    assert r'[..j + 1] == f + [key];
    assert Elements(f + [key]) == Elements(front + [key]) + {x};
  }

  lemma {:induction false} DistinctCount(s: seq<string>)
    requires NoDuplicates(s)
    ensures |Elements(s)| == |s|
    decreases |s|
  {
    if s != [] {
      DistinctCount(s[1..]);
      assert Elements(s) == {s[0]} + Elements(s[1..]);
    } else {
      assert Elements(s) == {};
    }
  }

  lemma SubsetCount(a: set<string>, b: set<string>)
    requires a <= b
    ensures |a| <= |b|
  {
    assert b == a + (b - a);
  }

  /** After any sequence of additions the set holds exactly the keys among the last
      `cap` different ones. */
  lemma WindowIsExact(log: seq<string>, cap: nat, key: string)
    requires cap >= 1
    ensures key in AddAll(log, cap) <==> Recently(log, key, cap)
  {
    AddAllIsRecencyPrefix(log, cap);
    RecencyDistinct(log);
    var all := Recency(log);
    if key in log {
      var l, j := RecencyPosition(log, key);
      DistinctCount(all[..j + 1]);
      assert key in AddAll(log, cap) <==> j < cap;
      if Recently(log, key, cap) {
        var i :| 0 <= i < |log| && log[i] == key && |Elements(log[i..])| <= cap;
        assert forall m :: l < m < |log| ==> log[m] == log[l + 1..][m - l - 1];
        assert log[i..] == log[i..l] + log[l..];
        SubsetCount(Elements(log[l..]), Elements(log[i..]));
      }
    }
  }

  /** lruSet: a linked list, most recent at the front, with an index by key. */
  class LruSet {
    const cap: nat
    var order: seq<string>
    var items: set<string>

    ghost predicate Valid()
      reads this
    {
      cap >= 1 && NoDuplicates(order) && items == Elements(order) && |order| <= cap
    }

    constructor (requested: int)
      ensures Valid() && order == [] && cap == if requested <= 0 then DEFAULT_CAP else requested
    {
      cap := if requested <= 0 then DEFAULT_CAP else requested;
      order, items := [], {};
    }

    method Add(key: string) returns (isNew: bool)
      requires Valid()
      modifies this
      ensures Valid()
      ensures isNew == (key !in old(order)) && order == AddTo(old(order), key, cap)
    {
      WithoutKeepsDistinct(order, key);
      if key in items {
        order := [key] + Without(order, key);
        assert Elements(order) == items;
        return false;
      }
      order, items := [key] + order, items + {key};
      assert items == Elements(order);
      if |order| > cap {
        var back := order[|order| - 1];
        assert order == order[..|order| - 1] + [back];
        order, items := order[..|order| - 1], items - {back};
        assert back !in order;
        assert Elements(order) == items;
      }
      return true;
    }

    method Contains(key: string) returns (found: bool)
      requires Valid()
      ensures found == (key in order)
    {
      found := key in items;
    }
  }

  // ---------------------------------------------------------------- the completed cache

  function Total(order: seq<string>, sizes: map<string, nat>): nat {
    if order == [] then 0
    else (if order[0] in sizes then sizes[order[0]] else 0) + Total(order[1..], sizes)
  }

  /** The cache as a value, oldest key first. */
  datatype Cache<V> = Cache(order: seq<string>, items: map<string, V>, sizes: map<string, nat>) {
    ghost predicate Valid() {
      && NoDuplicates(order) && items.Keys == sizes.Keys
      && (forall k :: k in order <==> k in items)
    }

    function Bytes(): nat {
      Total(order, sizes)
    }

    function Touch(key: string): Cache<V> {
      if key in items then this.(order := Without(order, key) + [key]) else this
    }

    function Put(key: string, v: V, size: nat): Cache<V> {
      Cache(Without(order, key) + [key], items[key := v], sizes[key := size])
    }

    /** Without its oldest key. */
    function Pop(): Cache<V>
      requires order != []
    {
      Cache(order[1..], items - {order[0]}, sizes - {order[0]})
    }

    /** Without its `n` oldest keys. */
    function Drop(n: nat): (r: Cache<V>)
      requires n <= |order|
      ensures r.order == order[n..]
    {
      if n == 0 then this else Drop(n - 1).Pop()
    }

    predicate Fits(cap: nat, maxBytes: nat) {
      |order| <= cap && Bytes() <= maxBytes
    }

    /** Dropping fewer than `n` keys leaves it over a bound. */
    predicate Needs(n: nat, cap: nat, maxBytes: nat)
      requires n <= |order|
    {
      n > 0 ==> !Drop(n - 1).Fits(cap, maxBytes) && Needs(n - 1, cap, maxBytes)
    }
  }

  lemma {:induction false} TotalAppend(a: seq<string>, b: seq<string>, sizes: map<string, nat>)
    ensures Total(a + b, sizes) == Total(a, sizes) + Total(b, sizes)
    decreases |a|
  {
    if a == [] {
      assert a + b == b;
    } else {
      assert (a + b)[0] == a[0] && (a + b)[1..] == a[1..] + b;
      TotalAppend(a[1..], b, sizes);
    }
  }

  lemma {:induction false} TotalDependsOnKeys(order: seq<string>, a: map<string, nat>, b: map<string, nat>)
    requires forall k :: k in order ==> (k in a <==> k in b) && (k in a ==> a[k] == b[k])
    ensures Total(order, a) == Total(order, b)
    decreases |order|
  {
    if order != [] { TotalDependsOnKeys(order[1..], a, b); }
  }

  lemma {:induction false} TotalWithout(order: seq<string>, sizes: map<string, nat>, key: string)
    requires NoDuplicates(order) && key in sizes
    ensures Total(order, sizes) == Total(Without(order, key), sizes) + if key in order then sizes[key] else 0
    decreases |order|
  {
    if order != [] {
      assert order[0] !in order[1..];
      TotalWithout(order[1..], sizes, key);
      if order[0] != key {
        var rest := Without(order[1..], key);
        assert ([order[0]] + rest)[1..] == rest;
      }
    }
  }

  lemma PutKeepsValid<V>(c: Cache<V>, key: string, v: V, size: nat)
    requires c.Valid()
    ensures c.Put(key, v, size).Valid()
    ensures c.Put(key, v, size).Bytes() == c.Bytes() - (if key in c.sizes then c.sizes[key] else 0) + size
  {
    PutOrder(c.order, key);
    assert forall k :: k in c.Put(key, v, size).order <==> k == key || k in c.order;
    PutTotal(c.order, c.sizes, key, size);
  }

  lemma PutOrder(order: seq<string>, key: string)
    requires NoDuplicates(order)
    ensures NoDuplicates(Without(order, key) + [key])
  {
    WithoutKeepsDistinct(order, key);
  }

  lemma PutTotal(order: seq<string>, sizes: map<string, nat>, key: string, size: nat)
    requires NoDuplicates(order) && (key in order <==> key in sizes)
    ensures Total(Without(order, key) + [key], sizes[key := size]) ==
      Total(order, sizes) - (if key in sizes then sizes[key] else 0) + size
  {
    var rest := Without(order, key);
    TotalAppend(rest, [key], sizes[key := size]);
    TotalDependsOnKeys(rest, sizes[key := size], sizes);
    SingleTotal(key, sizes[key := size]);
    if key in sizes { TotalWithout(order, sizes, key); } else { WithoutAbsent(order, key); }
  }

  lemma TouchKeepsValid<V>(c: Cache<V>, key: string)
    requires c.Valid()
    ensures c.Touch(key).Valid() && c.Touch(key).Bytes() == c.Bytes() && c.Touch(key).items == c.items
  {
    if key in c.items {
      PutKeepsValid(c, key, c.items[key], c.sizes[key]);
      assert c.Put(key, c.items[key], c.sizes[key]) == c.Touch(key);
    }
  }

  lemma PopKeepsValid<V>(c: Cache<V>)
    requires c.Valid() && c.order != []
    ensures c.Pop().Valid() && c.order[0] in c.sizes
    ensures c.Pop().Bytes() == c.Bytes() - c.sizes[c.order[0]]
  {
    var rest := c.order[1..];
    assert c.order == [c.order[0]] + rest;
    assert c.order[0] !in rest;
    TotalDependsOnKeys(rest, c.sizes, c.Pop().sizes);
  }

  lemma {:induction false} DropKeepsValid<V>(c: Cache<V>, n: nat)
    requires c.Valid() && n <= |c.order|
    ensures c.Drop(n).Valid()
    ensures forall k :: k in c.Drop(n).sizes ==> k in c.sizes && c.Drop(n).sizes[k] == c.sizes[k]
  {
    if n > 0 {
      DropKeepsValid(c, n - 1);
      PopKeepsValid(c.Drop(n - 1));
    }
  }

  /** What Set leaves after inserting: the oldest keys go until both bounds hold. */
  function Evict<V>(c: Cache<V>, cap: nat, maxBytes: nat): Cache<V>
    decreases |c.order|
  {
    if c.Fits(cap, maxBytes) || c.order == [] then c else Evict(c.Pop(), cap, maxBytes)
  }

  lemma {:induction false} EvictDropsTheFewest<V>(c: Cache<V>, n: nat, cap: nat, maxBytes: nat)
    requires n <= |c.order| && c.Needs(n, cap, maxBytes)
    ensures Evict(c, cap, maxBytes) == Evict(c.Drop(n), cap, maxBytes)
  {
    if n > 0 { EvictDropsTheFewest(c, n - 1, cap, maxBytes); }
  }

  lemma {:induction false} EvictKeepsValues<V>(c: Cache<V>, cap: nat, maxBytes: nat)
    requires c.Valid()
    ensures var r := Evict(c, cap, maxBytes); r.Valid() && forall k :: k in r.items ==> k in c.items && r.items[k] == c.items[k]
    decreases |c.order|
  {
    if !c.Fits(cap, maxBytes) && c.order != [] {
      PopKeepsValid(c);
      EvictKeepsValues(c.Pop(), cap, maxBytes);
    }
  }

  /** lruMap with its running byte count; `V` is what it caches. */
  class LruMap<V> {
    const cap: nat
    const maxBytes: nat
    var bytes: int
    var sizes: map<string, nat>
    var items: map<string, V>
    var order: seq<string>

    ghost function View(): Cache<V>
      reads this
    {
      Cache(order, items, sizes)
    }

    /** The running count is the sum of the sizes, and both bounds hold. */
    ghost predicate Valid()
      reads this
    {
      View().Valid() && bytes == View().Bytes() && View().Fits(cap, maxBytes)
    }

    constructor (requested: int, limit: nat)
      ensures Valid() && View() == Cache([], map[], map[])
      ensures maxBytes == limit && cap == if requested <= 0 then DEFAULT_CAP else requested
    {
      cap := if requested <= 0 then DEFAULT_CAP else requested;
      maxBytes := limit;
      bytes, sizes, items, order := 0, map[], map[], [];
    }

    method TouchLocked(key: string)
      requires NoDuplicates(order)
      modifies this`order
      ensures order == if key in old(order) then Without(old(order), key) + [key] else old(order)
    {
      var i := 0;
      while i < |order|
        invariant 0 <= i <= |order| && order == old(order)
        invariant key !in order[..i]
      {
        if order[i] == key {
          WithoutAt(order, i);
          order := order[..i] + order[i + 1..];
          order := order + [key];
          return;
        }
        i := i + 1;
      }
    }

    /** Inserts or updates, then evicts the fewest oldest keys that restore both
        bounds; the loop never looks at an empty order. */
    method Set(key: string, v: V, size: nat) returns (ghost evicted: nat)
      requires Valid()
      modifies this
      ensures Valid() && evicted <= |old(View()).Put(key, v, size).order|
      ensures View() == old(View()).Put(key, v, size).Drop(evicted) == Evict(old(View()).Put(key, v, size), cap, maxBytes)
      ensures old(View()).Put(key, v, size).Needs(evicted, cap, maxBytes)
    {
      ghost var before := View();
      ghost var put := before.Put(key, v, size);
      PutKeepsValid(before, key, v, size);
      bytes := bytes - if key in sizes then sizes[key] else 0;
      sizes := sizes[key := size];
      bytes := bytes + size;
      if key in items {
        items := items[key := v];
        TouchLocked(key);
      } else {
        items := items[key := v];
        WithoutAbsent(order, key);
        order := order + [key];
      }
      assert View() == put;
      evicted := EvictLocked();
      EvictDropsTheFewest(put, evicted, cap, maxBytes);
    }

    method PopLocked()
      requires View().Valid() && bytes == View().Bytes() && order != []
      modifies this
      ensures View() == old(View()).Pop() && View().Valid() && bytes == View().Bytes()
    {
      PopKeepsValid(View());
      var oldest := order[0];
      bytes := bytes - sizes[oldest];
      order, sizes, items := order[1..], sizes - {oldest}, items - {oldest};
    }

    method EvictLocked() returns (ghost evicted: nat)
      requires View().Valid() && bytes == View().Bytes()
      modifies this
      ensures Valid() && evicted <= |old(order)|
      ensures View() == old(View()).Drop(evicted)
      ensures old(View()).Needs(evicted, cap, maxBytes)
    {
      ghost var all := View();
      evicted := 0;
      assert all.Drop(0) == all;
      while |order| > cap || bytes > maxBytes
        invariant evicted <= |all.order| && View() == all.Drop(evicted)
        invariant View().Valid() && bytes == View().Bytes()
        invariant all.Needs(evicted, cap, maxBytes)
        decreases |order|
      {
        PopLocked();
        evicted := evicted + 1;
      }
    }

    method Get(key: string) returns (v: Option<V>)
      requires Valid()
      modifies this
      ensures Valid() && View() == old(View()).Touch(key)
      ensures v == if key in old(items) then Some(old(items)[key]) else None
    {
      if key !in items { return None; }
      TouchKeepsValid(View(), key);
      WithoutKeepsDistinct(order, key);
      TouchLocked(key);
      return Some(items[key]);
    }
  }

  lemma SingleTotal(key: string, sizes: map<string, nat>)
    requires key in sizes
    ensures Total([key], sizes) == sizes[key]
  {
    assert [key][1..] == [];
  }

  lemma OnlyNewestFits<V>(c: Cache<V>, key: string, v: V, size: nat, cap: nat, maxBytes: nat)
    requires c.Valid() && cap >= 1 && size <= maxBytes
    ensures var put := c.Put(key, v, size); put.Drop(|put.order| - 1).Fits(cap, maxBytes)
  {
    var put := c.Put(key, v, size);
    var last := |put.order| - 1;
    PutKeepsValid(c, key, v, size);
    LastSize(put, key, size);
    SingleTotal(key, put.Drop(last).sizes);
  }

  lemma LastSize<V>(c: Cache<V>, key: string, size: nat)
    requires c.Valid() && c.order != [] && c.order[|c.order| - 1] == key && key in c.sizes && c.sizes[key] == size
    ensures var d := c.Drop(|c.order| - 1); d.order == [key] && key in d.sizes && d.sizes[key] == size
  {
    var last := |c.order| - 1;
    var d := c.Drop(last);
    DropKeepsValid(c, last);
    assert d.order == [key];
    assert key in d.order && key in d.items;
  }

  /** A result no larger than the byte bound is still cached when Set returns. */
  lemma NewestStays<V>(c: Cache<V>, key: string, v: V, size: nat, cap: nat, maxBytes: nat, evicted: nat)
    requires c.Valid() && cap >= 1 && size <= maxBytes
    requires evicted <= |c.Put(key, v, size).order|
    requires c.Put(key, v, size).Needs(evicted, cap, maxBytes)
    ensures key in c.Put(key, v, size).Drop(evicted).items
  {
    var put := c.Put(key, v, size);
    PutKeepsValid(c, key, v, size);
    OnlyNewestFits(c, key, v, size, cap, maxBytes);
    NeedsStops(put, evicted, cap, maxBytes);
    LastStays(put, evicted);
  }

  /** Eviction stops before the last key when that one fits. */
  lemma NeedsStops<V>(c: Cache<V>, evicted: nat, cap: nat, maxBytes: nat)
    requires c.order != [] && evicted <= |c.order| && c.Needs(evicted, cap, maxBytes)
    requires c.Drop(|c.order| - 1).Fits(cap, maxBytes)
    ensures evicted < |c.order|
  {
  }

  lemma LastStays<V>(c: Cache<V>, n: nat)
    requires c.Valid() && n < |c.order|
    ensures c.order[|c.order| - 1] in c.Drop(n).items
  {
    DropKeepsValid(c, n);
    SuffixHasLast(c.order, n);
    OrderedIsCached(c.Drop(n), c.order[|c.order| - 1]);
  }

  lemma SuffixHasLast(order: seq<string>, n: nat)
    requires n < |order|
    ensures order[|order| - 1] in order[n..]
  {
    assert order[n..][|order| - 1 - n] == order[|order| - 1];
  }

  lemma OrderedIsCached<V>(c: Cache<V>, key: string)
    requires c.Valid() && key in c.order
    ensures key in c.items
  {
  }
}
