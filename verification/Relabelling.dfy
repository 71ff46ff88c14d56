/** The same walks under other names for their links, and with some links gone. */
module Relabelling {
  import opened Wrappers
  import opened Severance

  function Relabel<E, L, S>(name: E -> Option<L>, move: Move<E, S>): Move<L, S> {
    Move(if move.link.Some? then name(move.link.value) else None, move.to)
  }

  function RelabelAll<E, L, S>(name: E -> Option<L>, moves: seq<Move<E, S>>): (r: seq<Move<L, S>>)
    ensures |r| == |moves| && forall i :: 0 <= i < |r| ==> r[i] == Relabel(name, moves[i])
  {
    seq(|moves|, i requires 0 <= i < |moves| => Relabel(name, moves[i]))
  }

  /** The walk with its links named otherwise, or not at all. */
  function Relabelled<E, L, S>(next: Successors<E, S>, name: E -> Option<L>): Successors<L, S> {
    s => RelabelAll(name, next(s))
  }

  /** Some step is over a link of that name. */
  predicate Crosses<E, L(==), S>(name: E -> Option<L>, walk: seq<Move<E, S>>, key: L) {
    exists i :: 0 <= i < |walk| && Relabel(name, walk[i]).link == Some(key)
  }

  lemma {:induction false} RelabelledIsWalk<E(!new), L(!new), S(!new)>(next: Successors<E, S>, name: E -> Option<L>,
      start: S, walk: seq<Move<E, S>>)
    requires IsWalk(next, start, walk)
    ensures IsWalk(Relabelled(next, name), start, RelabelAll(name, walk))
    ensures End(start, RelabelAll(name, walk)) == End(start, walk)
  {
    if walk != [] {
      var rest, last := walk[..|walk| - 1], walk[|walk| - 1];
      RelabelledIsWalk(next, name, start, rest);
      assert RelabelAll(name, walk)[..|rest|] == RelabelAll(name, rest);
      var i :| 0 <= i < |next(End(start, rest))| && next(End(start, rest))[i] == last;
      assert Relabelled(next, name)(End(start, rest))[i] == Relabel(name, last);
    }
  }

  /** A walk under the new names, as it is under the old. */
  lemma {:induction false} OriginalWalk<E(!new), L(!new), S(!new)>(next: Successors<E, S>, name: E -> Option<L>,
                                                                   start: S, walk: seq<Move<L, S>>)
    returns (original: seq<Move<E, S>>)
    requires IsWalk(Relabelled(next, name), start, walk)
    ensures IsWalk(next, start, original) && RelabelAll(name, original) == walk
            && End(start, original) == End(start, walk)
  {
    original := [];
    if walk != [] {
      var rest, last := walk[..|walk| - 1], walk[|walk| - 1];
      var before := OriginalWalk(next, name, start, rest);
      var i :| 0 <= i < |next(End(start, rest))| && Relabelled(next, name)(End(start, rest))[i] == last;
      original := before + [next(End(start, rest))[i]];
      assert original[..|before|] == before;
      assert walk == rest + [last];
    }
  }

  lemma {:induction false} UsesIsCrossing<E(!new), L(!new), S(!new)>(name: E -> Option<L>, walk: seq<Move<E, S>>,
                                                                     key: L)
    ensures Uses(RelabelAll(name, walk), key) <==> Crosses(name, walk, key)
  {
    if walk != [] {
      var rest, last := walk[..|walk| - 1], walk[|walk| - 1];
      UsesIsCrossing(name, rest, key);
      assert RelabelAll(name, walk)[..|rest|] == RelabelAll(name, rest);
      assert forall i :: 0 <= i < |rest| ==> walk[i] == rest[i];
      if Crosses(name, rest, key) {
        var i :| 0 <= i < |rest| && Relabel(name, rest[i]).link == Some(key);
        assert Relabel(name, walk[i]).link == Some(key);
      }
    }
  }

  /** New names change nothing about what is reached. */
  lemma ReachedAlike<E(!new), L(!new), S(!new)>(next: Successors<E, S>, name: E -> Option<L>, start: S, bound: nat,
                                                at: S)
    ensures Reaches(Relabelled(next, name), start, 0, bound, at) <==> Reaches(next, start, 0, bound, at)
  {
    if Reaches(next, start, 0, bound, at) {
      var walk :| Leads(next, start, 0, bound, walk, at);
      RelabelledIsWalk(next, name, start, walk);
      assert Leads(Relabelled(next, name), start, 0, bound, RelabelAll(name, walk), at);
    }
    if Reaches(Relabelled(next, name), start, 0, bound, at) {
      var walk :| Leads(Relabelled(next, name), start, 0, bound, walk, at);
      var original := OriginalWalk(next, name, start, walk);
      assert Leads(next, start, 0, bound, original, at);
    }
  }

  /** Every walk to the state crosses a link of that name. */
  ghost predicate AllCross<E(!new), L(!new), S(!new)>(next: Successors<E, S>, name: E -> Option<L>, start: S,
                                                      bound: nat, at: S, key: L) {
    forall walk :: Leads(next, start, 0, bound, walk, at) ==> Crosses(name, walk, key)
  }

  lemma NeededMeansAllCross<E(!new), L(!new), S(!new)>(next: Successors<E, S>, name: E -> Option<L>, start: S,
                                                       bound: nat, at: S, key: L)
    ensures Needs(Relabelled(next, name), start, 0, bound, at, key) <==> AllCross(next, name, start, bound, at, key)
  {
    if Needs(Relabelled(next, name), start, 0, bound, at, key) {
      forall walk | Leads(next, start, 0, bound, walk, at)
        ensures Crosses(name, walk, key)
      {
        RelabelledIsWalk(next, name, start, walk);
        assert Leads(Relabelled(next, name), start, 0, bound, RelabelAll(name, walk), at);
        UsesIsCrossing(name, walk, key);
      }
    }
    if AllCross(next, name, start, bound, at, key) {
      forall walk | Leads(Relabelled(next, name), start, 0, bound, walk, at)
        ensures Uses(walk, key)
      {
        var original := OriginalWalk(next, name, start, walk);
        assert Leads(next, start, 0, bound, original, at);
        UsesIsCrossing(name, original, key);
      }
    }
  }

  // ---------------------------------------------------------------- fewer ways on

  /** The ways on that are left when some are taken away. */
  ghost predicate Leaves<E(!new), S(!new)>(next: Successors<E, S>, gone: Move<E, S> -> bool, less: Successors<E, S>) {
    forall s, move :: move in less(s) <==> move in next(s) && !gone(move)
  }

  predicate NoneGone<E, S>(gone: Move<E, S> -> bool, walk: seq<Move<E, S>>) {
    forall i :: 0 <= i < |walk| ==> !gone(walk[i])
  }

  /** The walks left are those over nothing that is gone. */
  lemma {:induction false} WalksLeft<E(!new), S(!new)>(next: Successors<E, S>, gone: Move<E, S> -> bool,
                                                       less: Successors<E, S>, start: S, walk: seq<Move<E, S>>)
    requires Leaves(next, gone, less)
    ensures IsWalk(less, start, walk) <==> IsWalk(next, start, walk) && NoneGone(gone, walk)
  {
    if walk != [] {
      var rest, last := walk[..|walk| - 1], walk[|walk| - 1];
      WalksLeft(next, gone, less, start, rest);
      assert NoneGone(gone, walk) <==> NoneGone(gone, rest) && !gone(last);
    }
  }
}
