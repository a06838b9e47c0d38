/** Sums over finite maps, independent of the order they are taken in. */
module Sums {
  ghost function Sum(f: map<string, nat>): nat
    decreases |f|
  {
    if f == map[] then 0 else
      var k :| k in f;
      assert |f - {k}| < |f| by { Smaller(f, k); }
      f[k] + Sum(f - {k})
  }

  lemma Smaller(f: map<string, nat>, k: string)
    requires k in f
    ensures |f - {k}| == |f| - 1
  {
    assert (f - {k}).Keys == f.Keys - {k};
    assert |(f - {k}).Keys| == |f.Keys| - 1;
  }

  /** Any key may be taken out first. */
  lemma {:induction false} SumWithout(f: map<string, nat>, k: string)
    requires k in f
    ensures Sum(f) == f[k] + Sum(f - {k})
    decreases |f|
  {
    Smaller(f, k);
    var first: string :| first in f && Sum(f) == f[first] + Sum(f - {first});
    if first != k {
      Smaller(f, first);
      SumWithout(f - {first}, k);
      SumWithout(f - {k}, first);
      assert f - {first} - {k} == f - {k} - {first};
    }
  }

  /** Adding or replacing one entry. */
  lemma SumPut(f: map<string, nat>, k: string, v: nat)
    ensures Sum(f[k := v]) == Sum(f - {k}) + v
    ensures Sum(f[k := v]) == Sum(f) + v - if k in f then f[k] else 0
  {
    SumWithout(f[k := v], k);
    assert f[k := v] - {k} == f - {k};
    if k in f { SumWithout(f, k); } else { assert f - {k} == f; }
  }

  lemma {:induction false} SumAtMost(f: map<string, nat>, g: map<string, nat>)
    requires forall k :: k in f ==> k in g && f[k] <= g[k]
    ensures Sum(f) <= Sum(g)
    decreases |f|
  {
    if f != map[] {
      var k :| k in f;
      Smaller(f, k);
      SumWithout(f, k);
      SumWithout(g, k);
      SumAtMost(f - {k}, g - {k});
    }
  }

  /** Entries of zero make no difference. */
  lemma {:induction false} SumSame(f: map<string, nat>, g: map<string, nat>)
    requires forall k :: k in f ==> k in g && f[k] == g[k]
    requires forall k :: k in g && k !in f ==> g[k] == 0
    ensures Sum(f) == Sum(g)
    decreases |g|
  {
    if g == map[] {
      assert f == map[];
    } else {
      var k :| k in g;
      Smaller(g, k);
      SumWithout(g, k);
      if k in f {
        SumWithout(f, k);
        SumSame(f - {k}, g - {k});
      } else {
        SumSame(f, g - {k});
      }
    }
  }
}
