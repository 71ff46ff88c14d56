/** Lists without repeats, and lists of the same items. */
module Lists {
  ghost predicate NoRepeats<T>(s: seq<T>) {
    forall i, j :: 0 <= i < j < |s| ==> s[i] != s[j]
  }

  /** Repeats dropped, the first of each kept in place. */
  function Distinct<T(==, !new)>(xs: seq<T>): (r: seq<T>)
    ensures forall x :: x in r <==> x in xs
    ensures NoRepeats(r)
  {
    if xs == [] then []
    else
      var rest := Distinct(xs[..|xs| - 1]);
      if xs[|xs| - 1] in rest then rest else rest + [xs[|xs| - 1]]
  }

  lemma SameItems<T>(a: seq<T>, b: seq<T>)
    requires multiset(a) == multiset(b)
    ensures |a| == |b| && forall x :: x in a <==> x in b
  {
    assert |multiset(a)| == |a| && |multiset(b)| == |b|;
    forall x
      ensures x in a <==> x in b
    {
      assert x in a <==> x in multiset(a);
      assert x in b <==> x in multiset(b);
    }
  }

  lemma WithoutLast<T>(a: seq<T>, b: seq<T>)
    requires multiset(a) == multiset(b) && a != [] && b != [] && a[|a| - 1] == b[|b| - 1]
    ensures multiset(a[..|a| - 1]) == multiset(b[..|b| - 1])
  {
    assert a == a[..|a| - 1] + [a[|a| - 1]];
    assert b == b[..|b| - 1] + [b[|b| - 1]];
    assert multiset(a[..|a| - 1]) == multiset(a) - multiset{a[|a| - 1]};
    assert multiset(b[..|b| - 1]) == multiset(b) - multiset{b[|b| - 1]};
  }

  lemma {:induction false} OnceEach<K>(s: seq<K>, x: K)
    requires NoRepeats(s)
    ensures multiset(s)[x] == if x in s then 1 else 0
  {
    if s != [] {
      var rest, last := s[..|s| - 1], s[|s| - 1];
      assert s == rest + [last];
      OnceEach(rest, x);
      assert last !in rest;
    }
  }

  ghost predicate Disjoint<T(!new)>(a: seq<T>, b: seq<T>) {
    forall x :: x in a ==> x !in b
  }

  lemma NoRepeatsConcat<T(!new)>(a: seq<T>, b: seq<T>)
    ensures NoRepeats(a + b) <==> NoRepeats(a) && NoRepeats(b) && Disjoint(a, b)
  {
    var all := a + b;
    if NoRepeats(all) {
      assert NoRepeats(a) by { assert forall i :: 0 <= i < |a| ==> a[i] == all[i]; }
      assert NoRepeats(b) by { assert forall i :: 0 <= i < |b| ==> b[i] == all[|a| + i]; }
      forall x | x in a
        ensures x !in b
      {
        var i :| 0 <= i < |a| && a[i] == x;
        assert all[i] == x;
        assert forall j :: 0 <= j < |b| ==> b[j] == all[|a| + j];
      }
    }
    if NoRepeats(a) && NoRepeats(b) && Disjoint(a, b) {
      forall i, j | 0 <= i < j < |all|
        ensures all[i] != all[j]
      {
        if i < |a| <= j { assert a[i] in a && b[j - |a|] in b; }
      }
    }
  }

  lemma OneApart<T(!new)>(xs: seq<T>, x: T)
    ensures NoRepeats(xs + [x]) <==> NoRepeats(xs) && x !in xs
    ensures forall y :: y in xs + [x] <==> y in xs || y == x
  {
    NoRepeatsConcat(xs, [x]);
    assert x in [x];
  }

  lemma {:induction false} AsMany<T(!new)>(xs: seq<T>, items: set<T>)
    requires NoRepeats(xs) && forall x :: x in items <==> x in xs
    ensures |items| == |xs|
  {
    if xs == [] {
      assert items == {};
    } else {
      var rest, last := xs[..|xs| - 1], xs[|xs| - 1];
      assert xs == rest + [last];
      NoRepeatsConcat(rest, [last]);
      assert last in [last];
      AsMany(rest, items - {last});
    }
  }

  lemma PermutationKeepsNoRepeats<K>(a: seq<K>, b: seq<K>)
    requires multiset(a) == multiset(b) && NoRepeats(a)
    ensures NoRepeats(b)
  {
    forall i, j | 0 <= i < j < |b|
      ensures b[i] != b[j]
    {
      if b[i] == b[j] {
        assert b == b[..i] + [b[i]] + b[i + 1..j] + [b[j]] + b[j + 1..];
        assert multiset(b)[b[i]] >= 2;
        OnceEach(a, b[i]);
        assert false;
      }
    }
  }

  lemma SameBag<K>(a: seq<K>, b: seq<K>)
    requires NoRepeats(a) && NoRepeats(b) && forall x :: x in a <==> x in b
    ensures multiset(a) == multiset(b)
  {
    forall x
      ensures multiset(a)[x] == multiset(b)[x]
    {
      OnceEach(a, x);
      OnceEach(b, x);
    }
  }

  function Mapped<A, B>(xs: seq<A>, f: A -> B): (r: seq<B>)
    ensures |r| == |xs| && forall i :: 0 <= i < |r| ==> r[i] == f(xs[i])
  {
    seq(|xs|, i requires 0 <= i < |xs| => f(xs[i]))
  }

  function WithoutAt<T>(s: seq<T>, i: nat): seq<T>
    requires i < |s|
  {
    s[..i] + s[i + 1..]
  }

  lemma OneOut<T>(s: seq<T>, i: nat)
    requires i < |s|
    ensures multiset(s) == multiset(WithoutAt(s, i)) + multiset{s[i]}
  {
    assert s == s[..i] + [s[i]] + s[i + 1..];
  }

  lemma MappedConcat<A, B>(a: seq<A>, b: seq<A>, f: A -> B)
    ensures Mapped(a + b, f) == Mapped(a, f) + Mapped(b, f)
  {
  }

  lemma MappedWithout<A, B>(s: seq<A>, i: nat, f: A -> B)
    requires i < |s|
    ensures Mapped(WithoutAt(s, i), f) == WithoutAt(Mapped(s, f), i)
  {
  }

  /** Mapping keeps two lists of the same items lists of the same items. */
  lemma {:induction false} MappedKeepsItems<A, B>(a: seq<A>, b: seq<A>, f: A -> B)
    requires multiset(a) == multiset(b)
    ensures multiset(Mapped(a, f)) == multiset(Mapped(b, f))
    decreases |a|
  {
    SameItems(a, b);
    if a != [] {
      assert a[0] in b;
      var i :| 0 <= i < |b| && b[i] == a[0];
      OneOut(a, 0);
      OneOut(b, i);
      assert multiset(WithoutAt(a, 0)) == multiset(a) - multiset{a[0]};
      assert multiset(WithoutAt(b, i)) == multiset(b) - multiset{a[0]};
      MappedKeepsItems(WithoutAt(a, 0), WithoutAt(b, i), f);
      MappedWithout(a, 0, f);
      MappedWithout(b, i, f);
      OneOut(Mapped(a, f), 0);
      OneOut(Mapped(b, f), i);
    }
  }

  lemma StillAt<T>(s: seq<T>, i: nat, j: nat) returns (k: nat)
    requires i < |s| && j < |s| && i != j
    ensures k < |WithoutAt(s, i)| && WithoutAt(s, i)[k] == s[j]
  {
    k := if j < i then j else j - 1;
  }

  /** Two of a list's items, and the rest of it. */
  lemma TwoOut<T>(s: seq<T>, i: nat, j: nat) returns (rest: seq<T>)
    requires i < |s| && j < |s| && i != j
    ensures multiset([s[i], s[j]] + rest) == multiset(s)
    ensures multiset([s[j], s[i]] + rest) == multiset(s)
  {
    var k := StillAt(s, i, j);
    rest := WithoutAt(WithoutAt(s, i), k);
    OneOut(s, i);
    OneOut(WithoutAt(s, i), k);
    PairFirst(s[i], s[j], rest);
    PairFirst(s[j], s[i], rest);
  }

  lemma PairFirst<T>(a: T, b: T, rest: seq<T>)
    ensures multiset([a, b] + rest) == multiset(rest) + multiset{b} + multiset{a}
  {
  }
}
