/** A dictionary of counts, in the order its keys were first counted. */
module Tallies {
  import opened Lists

  datatype Tally<K> = Tally(keys: seq<K>, count: map<K, nat>)

  function CountAt<K>(t: Tally<K>, k: K): nat {
    if k in t.count then t.count[k] else 0
  }

  function Bumped<K>(t: Tally<K>, k: K): Tally<K> {
    if k in t.count then Tally(t.keys, t.count[k := t.count[k] + 1]) else Tally(t.keys + [k], t.count[k := 1])
  }

  /** Each item counted as often as it occurs, and nothing else. */
  ghost predicate Counted<K(!new)>(t: Tally<K>, items: seq<K>) {
    Keyed(t) && Sum(t.keys, t.count) == |items| && Counts(t, items)
  }

  ghost predicate Counts<K(!new)>(t: Tally<K>, items: seq<K>) {
    forall k :: CountAt(t, k) == multiset(items)[k]
  }

  ghost predicate Keyed<K(!new)>(t: Tally<K>) {
    && NoRepeats(t.keys)
    && (forall k :: k in t.keys <==> k in t.count)
    && (forall k :: k in t.count ==> t.count[k] > 0)
  }

  /** All the counts added up. */
  ghost function Sum<K>(keys: seq<K>, count: map<K, nat>): nat {
    if keys == [] then 0
    else Sum(keys[..|keys| - 1], count) + if keys[|keys| - 1] in count then count[keys[|keys| - 1]] else 0
  }

  lemma {:induction false} SumElsewhere<K>(keys: seq<K>, count: map<K, nat>, k: K, n: nat)
    requires k !in keys
    ensures Sum(keys, count[k := n]) == Sum(keys, count)
  {
    if keys != [] {
      var rest := keys[..|keys| - 1];
      assert forall i :: 0 <= i < |rest| ==> rest[i] in keys;
      SumElsewhere(rest, count, k, n);
    }
  }

  lemma {:induction false} SumBumped<K>(keys: seq<K>, count: map<K, nat>, k: K)
    requires NoRepeats(keys) && k in keys && k in count
    ensures Sum(keys, count[k := count[k] + 1]) == Sum(keys, count) + 1
  {
    var n := |keys| - 1;
    if keys[n] == k {
      assert k !in keys[..n];
      SumElsewhere(keys[..n], count, k, count[k] + 1);
    } else {
      SumBumped(keys[..n], count, k);
    }
  }

  lemma BumpedSum<K(!new)>(t: Tally<K>, k: K)
    requires Keyed(t)
    ensures Sum(Bumped(t, k).keys, Bumped(t, k).count) == Sum(t.keys, t.count) + 1
  {
    if k in t.count {
      SumBumped(t.keys, t.count, k);
    } else {
      assert (t.keys + [k])[..|t.keys|] == t.keys;
      SumElsewhere(t.keys, t.count, k, 1);
    }
  }

  lemma BumpedKeyed<K(!new)>(t: Tally<K>, k: K)
    requires Keyed(t)
    ensures Keyed(Bumped(t, k))
  {
  }

  lemma BumpedAt<K(!new)>(t: Tally<K>, items: seq<K>, k: K, j: K)
    requires CountAt(t, j) == multiset(items)[j]
    ensures CountAt(Bumped(t, k), j) == multiset(items + [k])[j]
  {
    assert multiset(items + [k]) == multiset(items) + multiset{k};
  }

  lemma BumpedCounts<K(!new)>(t: Tally<K>, items: seq<K>, k: K)
    requires Counts(t, items)
    ensures Counts(Bumped(t, k), items + [k])
  {
    forall j
      ensures CountAt(Bumped(t, k), j) == multiset(items + [k])[j]
    {
      BumpedAt(t, items, k, j);
    }
  }

  lemma BumpedTallies<K(!new)>(t: Tally<K>, items: seq<K>, k: K)
    requires Counted(t, items)
    ensures Counted(Bumped(t, k), items + [k])
  {
    BumpedSum(t, k);
    BumpedKeyed(t, k);
    BumpedCounts(t, items, k);
  }

  /** What is counted is what occurs. */
  lemma KeysOccur<K(!new)>(t: Tally<K>, items: seq<K>, k: K)
    requires Counted(t, items)
    ensures k in t.keys <==> k in items
  {
    assert CountAt(t, k) == multiset(items)[k];
    assert k in items <==> k in multiset(items);
  }

  method Bump<K(!new, ==)>(t: Tally<K>, k: K, ghost items: seq<K>) returns (next: Tally<K>)
    requires Counted(t, items)
    ensures Counted(next, items + [k])
  {
    BumpedTallies(t, items, k);
    next := Bumped(t, k);
  }
}
