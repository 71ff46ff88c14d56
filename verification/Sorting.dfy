/** Sorting by an order, and what fixes its result. */
module Sorting {
  import opened Lists
  import opened Text

  type Order<!T(!new)> = (T, T) -> bool

  ghost predicate IsOrder<T(!new)>(le: Order<T>) {
    && (forall a, b :: le(a, b) || le(b, a))
    && (forall a, b, c :: le(a, b) && le(b, c) ==> le(a, c))
  }

  ghost predicate Sorted<T(!new)>(le: Order<T>, s: seq<T>) {
    forall i, j :: 0 <= i < j < |s| ==> le(s[i], s[j])
  }

  /** `x` after everything it does not come before, so that equal items keep their order. */
  function Inserted<T(!new)>(le: Order<T>, s: seq<T>, x: T): (r: seq<T>)
    ensures multiset(r) == multiset(s) + multiset{x}
  {
    if s == [] || le(s[|s| - 1], x) then s + [x]
    else
      assert s == s[..|s| - 1] + [s[|s| - 1]];
      Inserted(le, s[..|s| - 1], x) + [s[|s| - 1]]
  }

  function Sort<T(!new)>(le: Order<T>, s: seq<T>): (r: seq<T>)
    ensures multiset(r) == multiset(s)
  {
    if s == [] then []
    else
      assert s == s[..|s| - 1] + [s[|s| - 1]];
      Inserted(le, Sort(le, s[..|s| - 1]), s[|s| - 1])
  }

  lemma {:induction false} InsertedIsSorted<T(!new)>(le: Order<T>, s: seq<T>, x: T)
    requires IsOrder(le) && Sorted(le, s)
    ensures Sorted(le, Inserted(le, s, x))
  {
    if s != [] && !le(s[|s| - 1], x) {
      var rest, last := s[..|s| - 1], s[|s| - 1];
      InsertedIsSorted(le, rest, x);
      var r := Inserted(le, rest, x);
      forall i | 0 <= i < |r|
        ensures le(r[i], last)
      {
        assert r[i] in multiset(r);
        if r[i] != x { assert r[i] in rest; }
      }
    }
  }

  lemma {:induction false} SortIsSorted<T(!new)>(le: Order<T>, s: seq<T>)
    requires IsOrder(le)
    ensures Sorted(le, Sort(le, s))
  {
    if s != [] {
      SortIsSorted(le, s[..|s| - 1]);
      InsertedIsSorted(le, Sort(le, s[..|s| - 1]), s[|s| - 1]);
    }
  }

  ghost predicate Strict<T(!new)>(le: Order<T>, s: seq<T>) {
    forall a, b :: a in s && b in s && le(a, b) && le(b, a) ==> a == b
  }

  /** Where no two different items tie, the items alone decide their order. */
  lemma {:induction false} SortedIsUnique<T(!new)>(le: Order<T>, a: seq<T>, b: seq<T>)
    requires Sorted(le, a) && Sorted(le, b) && multiset(a) == multiset(b) && Strict(le, a) && IsOrder(le)
    ensures a == b
  {
    SameItems(a, b);
    if a != [] {
      SameLast(le, a, b);
      WithoutLast(a, b);
      SortedIsUnique(le, a[..|a| - 1], b[..|b| - 1]);
      assert a == a[..|a| - 1] + [a[|a| - 1]];
      assert b == b[..|b| - 1] + [b[|b| - 1]];
    }
  }

  lemma SameLast<T(!new)>(le: Order<T>, a: seq<T>, b: seq<T>)
    requires Sorted(le, a) && Sorted(le, b) && multiset(a) == multiset(b) && Strict(le, a) && IsOrder(le)
    requires a != [] && b != []
    ensures a[|a| - 1] == b[|b| - 1]
  {
    SameItems(a, b);
    LastIsGreatest(le, b, a[|a| - 1]);
    LastIsGreatest(le, a, b[|b| - 1]);
  }

  lemma LastIsGreatest<T(!new)>(le: Order<T>, s: seq<T>, x: T)
    requires Sorted(le, s) && x in s && IsOrder(le)
    ensures le(x, s[|s| - 1])
  {
    var i :| 0 <= i < |s| && s[i] == x;
    assert le(x, x);
  }

  /** Sorting is the same for every order the items are given in, where no two different items tie. */
  lemma SortIgnoresOrder<T(!new)>(le: Order<T>, a: seq<T>, b: seq<T>)
    requires IsOrder(le) && Strict(le, a) && multiset(a) == multiset(b)
    ensures Sort(le, a) == Sort(le, b)
  {
    SortIsSorted(le, a);
    SortIsSorted(le, b);
    SameItems(a, Sort(le, a));
    SortedIsUnique(le, Sort(le, a), Sort(le, b));
  }

  /** The first so many of a list. */
  function First<T>(s: seq<T>, most: nat): seq<T> {
    if |s| <= most then s else s[..most]
  }

  /** Of the sorted items the first so many are kept: nothing left out comes before one that is kept, and nothing is
      left out while there is room. */
  lemma FirstAreFirst<T(!new)>(le: Order<T>, s: seq<T>, most: nat, kept: T, other: T)
    requires IsOrder(le)
    ensures |First(Sort(le, s), most)| <= most
    ensures kept in First(Sort(le, s), most) ==> kept in s
    ensures other in s && other !in First(Sort(le, s), most) ==> |First(Sort(le, s), most)| == most
    ensures kept in First(Sort(le, s), most) && other in s && other !in First(Sort(le, s), most) ==> le(kept, other)
  {
    var sorted := Sort(le, s);
    SortIsSorted(le, s);
    SameItems(s, sorted);
    if kept in First(sorted, most) {
      var i :| 0 <= i < |First(sorted, most)| && First(sorted, most)[i] == kept;
      assert sorted[i] == kept;
      if other in s && other !in First(sorted, most) {
        var j :| 0 <= j < |sorted| && sorted[j] == other;
        FirstHas(sorted, most, j);
      }
    }
  }

  lemma FirstHas<T>(s: seq<T>, most: nat, j: nat)
    requires j < |s|
    ensures j < most ==> s[j] in First(s, most)
  {
    if j < most && most < |s| { assert s[..most][j] == s[j]; }
  }

  function TextOrder(): Order<string> {
    (a, b) => TextLe(a, b)
  }

  lemma TextOrderIsOrder()
    ensures IsOrder(TextOrder())
  {
    forall a: string, b: string
      ensures TextOrder()(a, b) || TextOrder()(b, a)
    {
      TextLeTotal(a, b);
    }
    forall a: string, b: string, c: string | TextOrder()(a, b) && TextOrder()(b, c)
      ensures TextOrder()(a, c)
    {
      TextLeTransitive(a, b, c);
    }
  }

  // ---------------------------------------------------------------- stability

  /** The items tied with one, in the order they are listed. */
  function Tied<T(!new)>(le: Order<T>, s: seq<T>, k: T): seq<T> {
    if s == [] then []
    else
      var last := s[|s| - 1];
      Tied(le, s[..|s| - 1], k) + if Ties(le, last, k) then [last] else []
  }

  predicate Ties<T(!new)>(le: Order<T>, x: T, k: T) {
    le(x, k) && le(k, x)
  }

  lemma TiedOneMore<T(!new)>(le: Order<T>, s: seq<T>, x: T, k: T)
    ensures Tied(le, s + [x], k) == Tied(le, s, k) + if Ties(le, x, k) then [x] else []
  {
    assert (s + [x])[..|s|] == s;
  }

  lemma {:induction false} InsertedKeepsTies<T(!new)>(le: Order<T>, s: seq<T>, x: T, k: T)
    requires IsOrder(le)
    ensures Tied(le, Inserted(le, s, x), k) == Tied(le, s, k) + if Ties(le, x, k) then [x] else []
  {
    if s == [] || le(s[|s| - 1], x) {
      TiedOneMore(le, s, x, k);
    } else {
      var rest, last := s[..|s| - 1], s[|s| - 1];
      assert s == rest + [last];
      InsertedKeepsTies(le, rest, x, k);
      TiesPassLast(le, rest, last, Inserted(le, rest, x), x, k);
    }
  }

  lemma TiesPassLast<T(!new)>(le: Order<T>, rest: seq<T>, last: T, inserted: seq<T>, x: T, k: T)
    requires IsOrder(le) && !le(last, x)
    requires Tied(le, inserted, k) == Tied(le, rest, k) + if Ties(le, x, k) then [x] else []
    ensures Tied(le, inserted + [last], k) == Tied(le, rest + [last], k) + if Ties(le, x, k) then [x] else []
  {
    TiedOneMore(le, inserted, last, k);
    TiedOneMore(le, rest, last, k);
    assert Ties(le, x, k) ==> !Ties(le, last, k);
  }

  /** Items that tie come out in the order they came in. */
  lemma {:induction false} SortKeepsTies<T(!new)>(le: Order<T>, s: seq<T>, k: T)
    requires IsOrder(le)
    ensures Tied(le, Sort(le, s), k) == Tied(le, s, k)
  {
    if s != [] {
      SortKeepsTies(le, s[..|s| - 1], k);
      InsertedKeepsTies(le, Sort(le, s[..|s| - 1]), s[|s| - 1], k);
    }
  }

  ghost predicate TiedAlike<T(!new)>(le: Order<T>, a: seq<T>, b: seq<T>) {
    forall k :: Tied(le, a, k) == Tied(le, b, k)
  }

  lemma {:induction false} TiedAmong<T(!new)>(le: Order<T>, s: seq<T>, k: T, x: T)
    requires x in Tied(le, s, k)
    ensures x in s && Ties(le, x, k)
  {
    var rest, last := s[..|s| - 1], s[|s| - 1];
    assert s == rest + [last];
    if x in Tied(le, rest, k) {
      TiedAmong(le, rest, k, x);
    }
  }

  lemma TiedToLast<T(!new)>(le: Order<T>, s: seq<T>)
    requires IsOrder(le) && s != []
    ensures
      var last := s[|s| - 1];
      Tied(le, s, last) != [] && last in Tied(le, s, last)
  {
    assert Ties(le, s[|s| - 1], s[|s| - 1]);
  }

  lemma LastTies<T(!new)>(le: Order<T>, a: seq<T>, b: seq<T>)
    requires IsOrder(le) && Sorted(le, b) && TiedAlike(le, a, b) && a != [] && b != []
    ensures le(a[|a| - 1], b[|b| - 1])
  {
    var last := a[|a| - 1];
    TiedToLast(le, a);
    assert last in Tied(le, b, last);
    TiedAmong(le, b, last, last);
    LastIsGreatest(le, b, last);
  }

  lemma TiedRest<T(!new)>(le: Order<T>, s: seq<T>, k: T)
    requires s != []
    ensures Tied(le, s, k) == Tied(le, s[..|s| - 1], k) + if Ties(le, s[|s| - 1], k) then [s[|s| - 1]] else []
  {
  }

  lemma SameEnd<T>(a: seq<T>, x: T, b: seq<T>, y: T)
    requires a + [x] == b + [y]
    ensures x == y && a == b
  {
    assert (a + [x])[|a|] == x && (b + [y])[|b|] == y;
    assert (a + [x])[..|a|] == a && (b + [y])[..|b|] == b;
  }

  lemma TiedRestAlike<T(!new)>(le: Order<T>, c: seq<T>, d: seq<T>, x: T, k: T)
    requires Tied(le, c + [x], k) == Tied(le, d + [x], k)
    ensures Tied(le, c, k) == Tied(le, d, k)
  {
    TiedOneMore(le, c, x, k);
    TiedOneMore(le, d, x, k);
    if Ties(le, x, k) { SameEnd(Tied(le, c, k), x, Tied(le, d, k), x); }
  }

  /** Sorted lists whose tied items come in the same order are one list. */
  lemma {:induction false} TiesDecide<T(!new)>(le: Order<T>, a: seq<T>, b: seq<T>)
    requires IsOrder(le) && Sorted(le, a) && Sorted(le, b) && TiedAlike(le, a, b)
    ensures a == b
  {
    if a == [] || b == [] {
      if a != [] { TiedToLast(le, a); }
      if b != [] { TiedToLast(le, b); }
    } else {
      var x, y := a[|a| - 1], b[|b| - 1];
      LastTies(le, a, b);
      LastTies(le, b, a);
      TiedRest(le, a, x);
      TiedRest(le, b, x);
      SameEnd(Tied(le, a[..|a| - 1], x), x, Tied(le, b[..|b| - 1], x), y);
      var c, d := a[..|a| - 1], b[..|b| - 1];
      assert a == c + [x];
      assert b == d + [x];
      forall k
        ensures Tied(le, c, k) == Tied(le, d, k)
      {
        assert Tied(le, a, k) == Tied(le, b, k);
        TiedRestAlike(le, c, d, x, k);
      }
      assert TiedAlike(le, c, d);
      TiesDecide(le, c, d);
    }
  }

  /** Two lists sort alike exactly when the items that tie come in the same order in both. */
  lemma SortsAlike<T(!new)>(le: Order<T>, a: seq<T>, b: seq<T>)
    requires IsOrder(le)
    ensures Sort(le, a) == Sort(le, b) <==> TiedAlike(le, a, b)
  {
    SortIsSorted(le, a);
    SortIsSorted(le, b);
    forall k
      ensures Tied(le, Sort(le, a), k) == Tied(le, a, k) && Tied(le, Sort(le, b), k) == Tied(le, b, k)
    {
      SortKeepsTies(le, a, k);
      SortKeepsTies(le, b, k);
    }
    if TiedAlike(le, a, b) {
      TiesDecide(le, Sort(le, a), Sort(le, b));
    }
    if Sort(le, a) == Sort(le, b) {
      assert TiedAlike(le, a, b);
    }
  }

  /** The last so many of a list. */
  function Last<T>(s: seq<T>, most: nat): seq<T> {
    if |s| <= most then s else s[|s| - most..]
  }

  /** Of the sorted items the last so many are kept: a sorted run, as many as there are or as allowed, and everything
      else comes no later than any of them. */
  lemma LastAreLast<T(!new)>(le: Order<T>, s: seq<T>, most: nat, i: nat, j: nat)
    requires IsOrder(le) && i < |s| - |Last(Sort(le, s), most)| && j < |Last(Sort(le, s), most)|
    ensures |Sort(le, s)| == |s|
    ensures Sort(le, s) == Sort(le, s)[..|s| - |Last(Sort(le, s), most)|] + Last(Sort(le, s), most)
    ensures le(Sort(le, s)[i], Last(Sort(le, s), most)[j])
  {
    var sorted := Sort(le, s);
    SortIsSorted(le, s);
    SameItems(s, sorted);
    var n := |sorted| - |Last(sorted, most)|;
    assert sorted == sorted[..n] + Last(sorted, most);
  }
}
