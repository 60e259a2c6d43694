/**
 * Per-key totals kept in an insertion-ordered map (a JavaScript `Map`, or an object
 * with non-numeric keys), and the scan that picks the key with the strictly greatest
 * positive total. The map is an association list: its order is the order in which
 * keys were first set.
 */
module Tally {
  import opened Wrappers

  type Entries<K> = seq<(K, int)>

  function Keys<K>(es: Entries<K>): (ks: seq<K>)
    ensures |ks| == |es|
    ensures forall i :: 0 <= i < |es| ==> ks[i] == es[i].0
  {
    if es == [] then [] else [es[0].0] + Keys(es[1..])
  }

  ghost predicate Distinct<K>(ks: seq<K>)
  {
    forall i, j :: 0 <= i < j < |ks| ==> ks[i] != ks[j]
  }

  /** `m.get(k) || 0`: the total stored under `k`, or 0 when `k` is absent. */
  function Lookup<K(==)>(es: Entries<K>, k: K): int
  {
    if es == [] then 0 else if es[0].0 == k then es[0].1 else Lookup(es[1..], k)
  }

  /** `m.set(k, (m.get(k) || 0) + v)`: an existing key keeps its place, a new one goes last. */
  function Add<K(==)>(es: Entries<K>, k: K, v: int): Entries<K>
  {
    if es == [] then [(k, v)]
    else if es[0].0 == k then [(k, es[0].1 + v)] + es[1..]
    else [es[0]] + Add(es[1..], k, v)
  }

  /** The map after setting every pair of `ps` in order, starting from an empty map. */
  function Totals<K(==)>(ps: Entries<K>): Entries<K>
  {
    if ps == [] then [] else Add(Totals(ps[..|ps| - 1]), ps[|ps| - 1].0, ps[|ps| - 1].1)
  }

  /** Reference definition: the sum of the values paired with `k`. */
  function SumFor<K(==)>(ps: Entries<K>, k: K): int
  {
    if ps == [] then 0
    else SumFor(ps[..|ps| - 1], k) + (if ps[|ps| - 1].0 == k then ps[|ps| - 1].1 else 0)
  }

  /** Reference definition: the distinct keys in order of first occurrence. */
  function FirstSeen<K(==)>(ks: seq<K>): seq<K>
  {
    if ks == [] then []
    else
      var f := FirstSeen(ks[..|ks| - 1]);
      if ks[|ks| - 1] in f then f else f + [ks[|ks| - 1]]
  }

  /** Index of the entry with key `k`, or -1. */
  function Find<K(==)>(es: Entries<K>, k: K): (j: int)
    ensures -1 <= j < |es|
    ensures j >= 0 ==> es[j].0 == k && forall i :: 0 <= i < j ==> es[i].0 != k
    ensures j < 0 ==> forall i :: 0 <= i < |es| ==> es[i].0 != k
  {
    if es == [] then -1
    else if es[0].0 == k then 0
    else
      var j := Find(es[1..], k);
      if j < 0 then -1 else j + 1
  }

  lemma {:induction false} AddKeys<K>(es: Entries<K>, k: K, v: int)
    ensures Keys(Add(es, k, v)) == if k in Keys(es) then Keys(es) else Keys(es) + [k]
  {
    if es != [] && es[0].0 != k {
      AddKeys(es[1..], k, v);
      assert Keys(es) == [es[0].0] + Keys(es[1..]);
    }
  }

  lemma {:induction false} AddLookup<K>(es: Entries<K>, k: K, v: int, j: K)
    ensures Lookup(Add(es, k, v), j) == Lookup(es, j) + (if j == k then v else 0)
  {
    if es != [] && es[0].0 != k {
      AddLookup(es[1..], k, v, j);
    }
  }

  /** Map assignment, in the form the accumulation loop performs it. */
  lemma {:induction false} AddIsUpdate<K>(es: Entries<K>, k: K, v: int)
    ensures var j := Find(es, k);
      Add(es, k, v) == if j < 0 then es + [(k, v)] else es[j := (k, es[j].1 + v)]
  {
    if es != [] && es[0].0 != k {
      AddIsUpdate(es[1..], k, v);
      var j := Find(es[1..], k);
      if j < 0 {
        assert es + [(k, v)] == [es[0]] + (es[1..] + [(k, v)]);
      } else {
        assert es[j + 1 := (k, es[j + 1].1 + v)] == [es[0]] + es[1..][j := (k, es[1..][j].1 + v)];
      }
    }
  }

  /** The map's keys are the distinct keys of the pairs, in order of first occurrence. */
  lemma {:induction false} TotalsKeys<K>(ps: Entries<K>)
    ensures Keys(Totals(ps)) == FirstSeen(Keys(ps))
  {
    if ps != [] {
      var n := |ps| - 1;
      TotalsKeys(ps[..n]);
      AddKeys(Totals(ps[..n]), ps[n].0, ps[n].1);
      assert Keys(ps)[..n] == Keys(ps[..n]);
    }
  }

  /** The total stored under each key is the sum of the values paired with it. */
  lemma {:induction false} TotalsLookup<K>(ps: Entries<K>, k: K)
    ensures Lookup(Totals(ps), k) == SumFor(ps, k)
  {
    if ps != [] {
      var n := |ps| - 1;
      TotalsLookup(ps[..n], k);
      AddLookup(Totals(ps[..n]), ps[n].0, ps[n].1, k);
    }
  }

  lemma {:induction false} FirstSeenDistinct<K>(ks: seq<K>)
    ensures Distinct(FirstSeen(ks))
    ensures forall x :: x in FirstSeen(ks) <==> x in ks
  {
    if ks != [] {
      var n := |ks| - 1;
      FirstSeenDistinct(ks[..n]);
      assert ks == ks[..n] + [ks[n]];
    }
  }

  /** With distinct keys, each entry's own value is what Lookup finds for its key. */
  lemma {:induction false} LookupAt<K>(es: Entries<K>, i: int)
    requires Distinct(Keys(es)) && 0 <= i < |es|
    ensures Lookup(es, es[i].0) == es[i].1
  {
    if i > 0 {
      assert Keys(es[1..]) == Keys(es)[1..];
      assert es[0].0 == Keys(es)[0] != Keys(es)[i] == es[i].0;
      LookupAt(es[1..], i - 1);
    }
  }

  lemma {:induction false} LookupAbsent<K>(es: Entries<K>, k: K)
    requires k !in Keys(es)
    ensures Lookup(es, k) == 0
  {
    if es != [] {
      assert Keys(es) == [es[0].0] + Keys(es[1..]);
      LookupAbsent(es[1..], k);
    }
  }

  /**
   * Every entry of the map holds the sum for its key, its keys are distinct, and a
   * key that never occurs among the pairs sums to 0.
   */
  lemma TotalsEntries<K>(ps: Entries<K>)
    ensures Distinct(Keys(Totals(ps)))
    ensures forall i :: 0 <= i < |Totals(ps)| ==>
      Totals(ps)[i].0 in Keys(ps) && Totals(ps)[i].1 == SumFor(ps, Totals(ps)[i].0)
    ensures forall k :: k !in Keys(Totals(ps)) ==> SumFor(ps, k) == 0
    ensures forall k :: k in Keys(Totals(ps)) <==> k in Keys(ps)
  {
    var es := Totals(ps);
    TotalsKeys(ps);
    FirstSeenDistinct(Keys(ps));
    forall i | 0 <= i < |es| ensures es[i].0 in Keys(ps) && es[i].1 == SumFor(ps, es[i].0) {
      LookupAt(es, i);
      TotalsLookup(ps, es[i].0);
      assert es[i].0 in Keys(es);
    }
    forall k | k !in Keys(es) ensures SumFor(ps, k) == 0 {
      LookupAbsent(es, k);
      TotalsLookup(ps, k);
    }
  }

  /**
   * The key the scan picks from the accumulated map, stated on the pairs: none
   * exactly when no key sums to a positive value; otherwise a key of the pairs whose
   * sum is positive and at least every other key's, and strictly greater than the sum
   * of every key first seen before it.
   */
  lemma TotalsBest<K>(ps: Entries<K>)
    ensures var b := BestIndex(Totals(ps));
      b < 0 <==> forall k :: SumFor(ps, k) <= 0
    ensures var es := Totals(ps); var b := BestIndex(es);
      b >= 0 ==> (es[b].0 in Keys(ps) && SumFor(ps, es[b].0) > 0 &&
        forall k :: SumFor(ps, k) <= SumFor(ps, es[b].0))
    ensures var es := Totals(ps); var b := BestIndex(es);
      b >= 0 ==> forall i :: 0 <= i < b ==> SumFor(ps, Keys(es)[i]) < SumFor(ps, es[b].0)
  {
    var es := Totals(ps);
    var b := BestIndex(es);
    TotalsEntries(ps);
    forall k ensures SumFor(ps, k) <= if b < 0 then 0 else es[b].1 {
      if k in Keys(es) {
        var i :| 0 <= i < |Keys(es)| && Keys(es)[i] == k;
        assert es[i].0 == k;
      }
    }
    if b >= 0 {
      assert SumFor(ps, es[b].0) == es[b].1;
    }
  }

  /**
   * The scan `if (v > max) { max = v; best = k }` started from `max = 0`: the index it
   * settles on, or -1 when no total is positive. It is the first index holding the
   * greatest total.
   */
  function BestIndex<K>(es: Entries<K>): (b: int)
    ensures -1 <= b < |es|
    ensures b < 0 <==> forall j :: 0 <= j < |es| ==> es[j].1 <= 0
    ensures b >= 0 ==> es[b].1 > 0
    ensures b >= 0 ==> forall j :: 0 <= j < |es| ==> es[j].1 <= es[b].1
    ensures b >= 0 ==> forall j :: 0 <= j < b ==> es[j].1 < es[b].1
  {
    if es == [] then -1
    else
      var n := |es| - 1;
      var b := BestIndex(es[..n]);
      var max := if b < 0 then 0 else es[b].1;
      if es[n].1 > max then n else b
  }

  /** `m.forEach((v, k) => m.set(...))`: accumulates the pairs into an insertion-ordered map. */
  method Accumulate<K(==)>(ps: Entries<K>) returns (es: Entries<K>)
    ensures es == Totals(ps)
  {
    es := [];
    var i := 0;
    while i < |ps|
      invariant 0 <= i <= |ps|
      invariant es == Totals(ps[..i])
    {
      var (k, v) := ps[i];
      assert ps[..i + 1][..i] == ps[..i];
      AddIsUpdate(es, k, v);
      var j := Find(es, k);
      if j < 0 {
        es := es + [(k, v)];
      } else {
        es := es[j := (k, es[j].1 + v)];
      }
      i := i + 1;
    }
    assert ps[..i] == ps;
  }

  /** The key of the strictly greatest positive total, the earliest one on ties. */
  method PickMax<K>(es: Entries<K>) returns (best: Option<K>)
    ensures best.None? <==> BestIndex(es) < 0
    ensures best.Some? ==> best.value == es[BestIndex(es)].0
  {
    best := None;
    var max := 0;
    var i := 0;
    while i < |es|
      invariant 0 <= i <= |es|
      invariant BestIndex(es[..i]) < 0 ==> best.None? && max == 0
      invariant BestIndex(es[..i]) >= 0 ==>
        best == Some(es[BestIndex(es[..i])].0) && max == es[BestIndex(es[..i])].1
    {
      assert es[..i + 1][..i] == es[..i];
      if es[i].1 > max {
        max := es[i].1;
        best := Some(es[i].0);
      }
      i := i + 1;
    }
    assert es[..i] == es;
  }
}
