/** Counting the values of a map: how many keys carry each value. */
module Histograms {
  import Seqs

  /** The keys among `ks` that `m` maps to `v`. */
  function Preimage<K, V(==)>(m: map<K, V>, ks: set<K>, v: V): set<K> {
    set k | k in ks && k in m && m[k] == v
  }

  /** The values `m` gives the keys among `ks`. */
  function ValuesOf<K, V>(m: map<K, V>, ks: set<K>): set<V> {
    set k | k in ks && k in m :: m[k]
  }

  /** Each value met among the keys `ks`, with the number of those keys that carry it. */
  function Histogram<K, V(==)>(m: map<K, V>, ks: set<K>): map<V, nat> {
    map v | v in ValuesOf(m, ks) :: |Preimage(m, ks, v)|
  }

  /** A value is counted exactly when some key carries it, and then with the number of keys that do. */
  lemma HistogramMeaning<K, V>(m: map<K, V>, ks: set<K>, v: V)
    ensures v in Histogram(m, ks) <==> |Preimage(m, ks, v)| > 0
    ensures v in Histogram(m, ks) ==> Histogram(m, ks)[v] == |Preimage(m, ks, v)|
  {
    if |Preimage(m, ks, v)| > 0 {
      var k :| k in Preimage(m, ks, v);
      assert m[k] in ValuesOf(m, ks);
    }
    if v in ValuesOf(m, ks) {
      var k :| k in ks && k in m && m[k] == v;
      assert k in Preimage(m, ks, v);
    }
  }

  /** One more key joins the preimage of its own value and of no other. */
  lemma PreimageAdd<K, V>(m: map<K, V>, ks: set<K>, k: K, v: V)
    requires k in m && k !in ks
    ensures |Preimage(m, ks + {k}, v)| == |Preimage(m, ks, v)| + (if m[k] == v then 1 else 0)
  {
    if m[k] == v {
      assert Preimage(m, ks + {k}, v) == Preimage(m, ks, v) + {k};
    } else {
      assert Preimage(m, ks + {k}, v) == Preimage(m, ks, v);
    }
  }

  /** Counting one more key adds one to the count of its value and changes no other. */
  lemma HistogramAdd<K, V>(m: map<K, V>, ks: set<K>, k: K)
    requires k in m && k !in ks
    ensures var h := Histogram(m, ks);
      Histogram(m, ks + {k}) == h[m[k] := (if m[k] in h then h[m[k]] else 0) + 1]
  {
    var h := Histogram(m, ks);
    var next := h[m[k] := (if m[k] in h then h[m[k]] else 0) + 1];
    forall v
      ensures v in next <==> v in Histogram(m, ks + {k})
      ensures v in next ==> next[v] == Histogram(m, ks + {k})[v]
    {
      PreimageAdd(m, ks, k, v);
      HistogramMeaning(m, ks, v);
      HistogramMeaning(m, ks + {k}, v);
    }
    assert Histogram(m, ks + {k}) == next;
  }

  /** The sum of the counts of the values `vs`, a value without a count counting 0. */
  function SumOver<V>(vs: seq<V>, counts: map<V, nat>): nat {
    if vs == [] then 0
    else (if vs[0] in counts then counts[vs[0]] else 0) + SumOver(vs[1..], counts)
  }

  /** Nothing counted sums to nothing. */
  lemma {:induction false} SumOverEmpty<V>(vs: seq<V>)
    ensures SumOver(vs, map[]) == 0
  {
    if vs != [] {
      SumOverEmpty(vs[1..]);
    }
  }

  /** Adding one to the count of a value listed once adds one to the sum. */
  lemma {:induction false} SumOverIncrement<V>(vs: seq<V>, counts: map<V, nat>, v: V)
    requires Seqs.Distinct(vs)
    ensures SumOver(vs, counts[v := (if v in counts then counts[v] else 0) + 1])
         == SumOver(vs, counts) + (if v in vs then 1 else 0)
  {
    if vs != [] {
      assert Seqs.Distinct(vs[1..]) by {
        forall i, j | 0 <= i < j < |vs[1..]| ensures vs[1..][i] != vs[1..][j] {
          assert vs[1..][i] == vs[i + 1] && vs[1..][j] == vs[j + 1];
        }
      }
      SumOverIncrement(vs[1..], counts, v);
      if vs[0] == v {
        assert v !in vs[1..] by {
          forall j | 0 <= j < |vs[1..]| ensures vs[1..][j] != v {
            assert vs[1..][j] == vs[j + 1];
          }
        }
      }
    }
  }

  /** Over a list naming every value once, the counts add up to the number of keys counted. */
  lemma {:induction false} HistogramSum<K, V>(m: map<K, V>, ks: set<K>, vs: seq<V>)
    requires ks <= m.Keys && Seqs.Distinct(vs)
    requires forall k :: k in m ==> m[k] in vs
    ensures SumOver(vs, Histogram(m, ks)) == |ks|
    decreases |ks|
  {
    if ks == {} {
      SumOverEmpty(vs);
      assert Histogram(m, ks) == map[];
    } else {
      var k :| k in ks;
      var rest := ks - {k};
      HistogramSum(m, rest, vs);
      HistogramAdd(m, rest, k);
      SumOverIncrement(vs, Histogram(m, rest), m[k]);
      assert rest + {k} == ks;
    }
  }
}
