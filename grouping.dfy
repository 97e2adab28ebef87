/** Grouping in order of first occurrence, as a Python list that appends a
    key only when it is `not in` the list yet, or a dict that gains a key on
    its first assignment; and sums of amounts per key. */
module Grouping {

  predicate NoDup<T(==,!new)>(s: seq<T>) {
    forall i, j :: 0 <= i < j < |s| ==> s[i] != s[j]
  }

  /** The distinct elements of s in order of first occurrence: the list
      built by appending each element that is not in it yet. */
  function Dedup<T(==,!new)>(s: seq<T>): (d: seq<T>)
    ensures NoDup(d)
    ensures forall x :: x in d <==> x in s
  {
    if s == [] then []
    else
      var d := Dedup(s[..|s| - 1]);
      var x := s[|s| - 1];
      assert s == s[..|s| - 1] + [x];
      if x in d then d else d + [x]
  }

  /** The position of the first occurrence of x in s. */
  function FirstIndex<T(==,!new)>(s: seq<T>, x: T): (i: nat)
    requires x in s
    ensures i < |s| && s[i] == x
    ensures forall j :: 0 <= j < i ==> s[j] != x
  {
    if s[0] == x then 0 else 1 + FirstIndex(s[1..], x)
  }

  lemma FirstIndexPrefix<T(!new)>(s: seq<T>, n: nat, x: T)
    requires n <= |s| && x in s[..n]
    ensures FirstIndex(s[..n], x) == FirstIndex(s, x)
  {
    var i := FirstIndex(s[..n], x);
    var k := FirstIndex(s, x);
    assert s[i] == s[..n][i] == x;
    assert k <= i;
    assert s[..n][k] == s[k];
  }

  /** Dedup keeps the order of first occurrence. */
  lemma {:induction false} DedupFirstOccurrence<T(!new)>(s: seq<T>, i: nat, j: nat)
    requires i < j < |Dedup(s)|
    ensures FirstIndex(s, Dedup(s)[i]) < FirstIndex(s, Dedup(s)[j])
  {
    var init := s[..|s| - 1];
    var d := Dedup(init);
    var x := s[|s| - 1];
    var a := Dedup(s)[i];
    var b := Dedup(s)[j];
    assert s == init + [x];
    if j < |d| {
      assert a == d[i] && b == d[j];
      DedupFirstOccurrence(init, i, j);
      FirstIndexPrefix(s, |s| - 1, a);
      FirstIndexPrefix(s, |s| - 1, b);
      assert init == s[..|s| - 1];
    } else {
      // b is the last element, absent from everything before it
      assert b == x && x !in d && a == d[i];
      assert a in init;
      FirstIndexPrefix(s, |s| - 1, a);
      assert FirstIndex(s, b) == |s| - 1 by {
        assert x !in init;
      }
    }
  }

  /** The sum of the amounts paired with k. */
  function SumFor<K(==,!new)>(pairs: seq<(K, real)>, k: K): real {
    if pairs == [] then 0.0
    else
      var last := pairs[|pairs| - 1];
      SumFor(pairs[..|pairs| - 1], k) + (if last.0 == k then last.1 else 0.0)
  }

  /** The sum of all amounts, added left to right as Python's `sum`. */
  function SumAll<K>(pairs: seq<(K, real)>): real {
    if pairs == [] then 0.0 else SumAll(pairs[..|pairs| - 1]) + pairs[|pairs| - 1].1
  }

  /** The sum of the per-key sums over the given keys. */
  function SumOver<K(==,!new)>(pairs: seq<(K, real)>, keys: seq<K>): real {
    if keys == [] then 0.0 else SumFor(pairs, keys[0]) + SumOver(pairs, keys[1..])
  }

  function Keys<K>(pairs: seq<(K, real)>): (ks: seq<K>)
    ensures |ks| == |pairs|
    ensures forall i :: 0 <= i < |pairs| ==> ks[i] == pairs[i].0
  {
    seq(|pairs|, i requires 0 <= i < |pairs| => pairs[i].0)
  }

  lemma {:induction false} SumOverSnoc<K(!new)>(pairs: seq<(K, real)>, p: (K, real), keys: seq<K>)
    requires NoDup(keys)
    ensures SumOver(pairs + [p], keys) == SumOver(pairs, keys) + (if p.0 in keys then p.1 else 0.0)
  {
    if keys != [] {
      assert (pairs + [p])[..|pairs + [p]| - 1] == pairs;
      SumOverSnoc(pairs, p, keys[1..]);
      assert p.0 in keys <==> p.0 == keys[0] || p.0 in keys[1..];
      assert p.0 == keys[0] ==> p.0 !in keys[1..];
    }
  }

  /** Summing per key over a duplicate-free list of keys covering every
      pair adds up every amount exactly once. */
  lemma {:induction false} SumOverCover<K(!new)>(pairs: seq<(K, real)>, keys: seq<K>)
    requires NoDup(keys)
    requires forall i :: 0 <= i < |pairs| ==> pairs[i].0 in keys
    ensures SumOver(pairs, keys) == SumAll(pairs)
  {
    if pairs == [] {
      SumOverEmpty(keys);
    } else {
      var init := pairs[..|pairs| - 1];
      var p := pairs[|pairs| - 1];
      assert pairs == init + [p];
      SumOverCover(init, keys);
      SumOverSnoc(init, p, keys);
    }
  }

  lemma {:induction false} SumOverEmpty<K(!new)>(keys: seq<K>)
    ensures SumOver([], keys) == 0.0
  {
    if keys != [] {
      SumOverEmpty(keys[1..]);
    }
  }

  /** Per-key totals that are the per-key sums over keys listed once each
      and covering every pair add up to the sum of all amounts: grouping
      neither loses nor duplicates an amount. */
  lemma TotalsPreserveSum<K(!new)>(pairs: seq<(K, real)>, totals: seq<(K, real)>)
    requires NoDup(Keys(totals))
    requires forall i :: 0 <= i < |pairs| ==> pairs[i].0 in Keys(totals)
    requires forall j :: 0 <= j < |totals| ==> totals[j].1 == SumFor(pairs, totals[j].0)
    ensures SumAll(totals) == SumAll(pairs)
  {
    TotalsAreSumOver(pairs, totals);
    SumOverCover(pairs, Keys(totals));
  }

  lemma {:induction false} TotalsAreSumOver<K(!new)>(pairs: seq<(K, real)>, totals: seq<(K, real)>)
    requires forall j :: 0 <= j < |totals| ==> totals[j].1 == SumFor(pairs, totals[j].0)
    ensures SumAll(totals) == SumOver(pairs, Keys(totals))
  {
    if totals != [] {
      var init := totals[..|totals| - 1];
      TotalsAreSumOver(pairs, init);
      SumOverSplit(pairs, Keys(init), totals[|totals| - 1].0);
      assert Keys(totals) == Keys(init) + [totals[|totals| - 1].0];
    }
  }

  lemma {:induction false} SumOverSplit<K(!new)>(pairs: seq<(K, real)>, keys: seq<K>, k: K)
    ensures SumOver(pairs, keys + [k]) == SumOver(pairs, keys) + SumFor(pairs, k)
  {
    if keys == [] {
      assert keys + [k] == [k];
      assert [k][1..] == [];
    } else {
      assert (keys + [k])[1..] == keys[1..] + [k];
      SumOverSplit(pairs, keys[1..], k);
    }
  }

  /** The position of key k among the pairs (`k in d` then `d[k]`), or
      |pairs| when it is absent. */
  function IndexOf<K(==,!new)>(pairs: seq<(K, real)>, k: K): (j: nat)
    ensures j <= |pairs|
    ensures j < |pairs| ==> pairs[j].0 == k
    ensures j == |pairs| <==> k !in Keys(pairs)
  {
    if pairs == [] then 0
    else if pairs[0].0 == k then 0
    else
      var j := IndexOf(pairs[1..], k);
      assert k !in Keys(pairs[1..]) ==> forall i :: 0 <= i < |pairs| ==> pairs[i].0 != k by {
        if k !in Keys(pairs[1..]) {
          forall i | 1 <= i < |pairs|
            ensures pairs[i].0 != k
          {
            assert Keys(pairs[1..])[i - 1] == pairs[i].0;
          }
        }
      }
      assert k in Keys(pairs[1..]) ==> k in Keys(pairs) by {
        if k in Keys(pairs[1..]) {
          var i :| 0 <= i < |pairs| - 1 && Keys(pairs[1..])[i] == k;
          assert Keys(pairs)[i + 1] == k;
        }
      }
      1 + j
  }

  /** A key that no pair carries sums to zero. */
  lemma {:induction false} SumForAbsent<K(!new)>(pairs: seq<(K, real)>, k: K)
    requires k !in Keys(pairs)
    ensures SumFor(pairs, k) == 0.0
  {
    if pairs != [] {
      var init := pairs[..|pairs| - 1];
      assert forall i :: 0 <= i < |init| ==> Keys(init)[i] == Keys(pairs)[i];
      SumForAbsent(init, k);
    }
  }

  /** Adds amount a to key k's running total, appending k with the amount
      when it has none yet (`if k not in d: d[k] = 0` then `d[k] += a`). */
  function Update<K(==,!new)>(totals: seq<(K, real)>, k: K, a: real): (u: seq<(K, real)>)
    ensures k !in Keys(totals) ==> u == totals + [(k, a)]
    ensures k in Keys(totals) ==>
      exists j :: 0 <= j < |totals| && totals[j].0 == k && u == totals[j := (k, totals[j].1 + a)]
  {
    var j := IndexOf(totals, k);
    if j == |totals| then totals + [(k, 0.0 + a)] else totals[j := (k, totals[j].1 + a)]
  }

  /** The running per-key totals after every pair, in order of first
      occurrence of the keys. */
  function Totals<K(==,!new)>(pairs: seq<(K, real)>): seq<(K, real)> {
    if pairs == [] then []
    else
      var last := pairs[|pairs| - 1];
      Update(Totals(pairs[..|pairs| - 1]), last.0, last.1)
  }

  /** The running totals list each key once, in order of first occurrence,
      with the sum of that key's amounts. */
  lemma {:induction false} TotalsMeaning<K(!new)>(pairs: seq<(K, real)>)
    ensures Keys(Totals(pairs)) == Dedup(Keys(pairs))
    ensures forall j :: 0 <= j < |Totals(pairs)| ==> Totals(pairs)[j].1 == SumFor(pairs, Totals(pairs)[j].0)
  {
    if pairs != [] {
      var init := pairs[..|pairs| - 1];
      var last := pairs[|pairs| - 1];
      var before := Totals(init);
      TotalsMeaning(init);
      var t := Totals(pairs);
      assert Keys(pairs) == Keys(init) + [last.0];
      assert Keys(pairs)[..|Keys(pairs)| - 1] == Keys(init);
      var j := IndexOf(before, last.0);
      if j == |before| {
        assert last.0 !in Dedup(Keys(init));
        assert Keys(t) == Keys(before) + [last.0];
        SumForAbsent(init, last.0);
      } else {
        assert last.0 in Dedup(Keys(init)) by {
          assert Keys(before)[j] == last.0;
        }
        assert Keys(t) == Keys(before);
      }
      forall i | 0 <= i < |t|
        ensures t[i].1 == SumFor(pairs, t[i].0)
      {
        if i < |before| && i != j {
          assert t[i] == before[i];
          assert before[i].0 != last.0 by {
            assert NoDup(Keys(before));
            assert Keys(before)[i] == before[i].0;
            if j < |before| { assert Keys(before)[j] == last.0; }
          }
        }
      }
    }
  }

  /** Running totals neither lose nor duplicate an amount: they add up to
      the sum of all amounts. */
  lemma TotalsPreserveAll<K(!new)>(pairs: seq<(K, real)>)
    ensures SumAll(Totals(pairs)) == SumAll(pairs)
  {
    TotalsMeaning(pairs);
    var t := Totals(pairs);
    forall i | 0 <= i < |pairs|
      ensures pairs[i].0 in Keys(t)
    {
      assert Keys(pairs)[i] == pairs[i].0;
    }
    TotalsPreserveSum(pairs, t);
  }

  /** Two lists of per-key sums over the same keys hold the same pairs. */
  lemma SameSums<K(!new)>(pairs: seq<(K, real)>, g: seq<(K, real)>, t: seq<(K, real)>)
    requires forall k :: k in Keys(g) <==> k in Keys(t)
    requires forall i :: 0 <= i < |g| ==> g[i].1 == SumFor(pairs, g[i].0)
    requires forall j :: 0 <= j < |t| ==> t[j].1 == SumFor(pairs, t[j].0)
    ensures forall p :: p in g <==> p in t
  {
    forall p | p in g
      ensures p in t
    {
      var i :| 0 <= i < |g| && g[i] == p;
      assert Keys(g)[i] == p.0;
      assert p.0 in Keys(t);
      var j :| 0 <= j < |t| && Keys(t)[j] == p.0;
      assert t[j] == p;
    }
    forall p | p in t
      ensures p in g
    {
      var j :| 0 <= j < |t| && t[j] == p;
      assert Keys(t)[j] == p.0;
      assert p.0 in Keys(g);
      var i :| 0 <= i < |g| && Keys(g)[i] == p.0;
      assert g[i] == p;
    }
  }

  lemma TotalsSnoc<K(!new)>(pairs: seq<(K, real)>, p: (K, real))
    ensures Totals(pairs + [p]) == Update(Totals(pairs), p.0, p.1)
  {
    assert (pairs + [p])[..|pairs|] == pairs;
  }
}
