/** Breadth-first search to a bound: every node some walk within the bound reaches, each by a shortest one. */
module Searching {
  import opened Wrappers
  import opened Severance

  /** A state the search came to, and the walk it came by. */
  datatype Visit<L, S> = Visit(state: S, route: seq<Move<L, S>>)

  // ---------------------------------------------------------------- what the visits so far amount to

  ghost predicate DistinctStates<L, S>(order: seq<Visit<L, S>>) {
    forall i, j :: 0 <= i < j < |order| ==> order[i].state != order[j].state
  }

  /** Every visit is by a walk within the bound, and no visit is shorter than one before it. */
  ghost predicate ByWalks<L(!new), S(!new)>(next: Successors<L, S>, start: S, bound: nat, order: seq<Visit<L, S>>) {
    && order != [] && order[0] == Visit(start, []) && DistinctStates(order)
    && (forall i :: 0 <= i < |order| ==> Leads(next, start, 0, bound, order[i].route, order[i].state))
    && (forall i, j :: 0 <= i < j < |order| ==> |order[i].route| <= |order[j].route|)
  }

  /** The state was visited by a walk no longer than so many steps. */
  ghost predicate VisitedBy<L(!new), S(!new)>(order: seq<Visit<L, S>>, s: S, n: int) {
    exists j :: 0 <= j < |order| && order[j].state == s && |order[j].route| <= n
  }

  /** The first `k` ways on from a visit lead to states visited in at most one step more. */
  ghost predicate Followed<L(!new), S(!new)>(next: Successors<L, S>, order: seq<Visit<L, S>>, v: Visit<L, S>, k: nat) {
    forall q :: 0 <= q < k && q < |next(v.state)| ==> VisitedBy(order, next(v.state)[q].to, |v.route| + 1)
  }

  /** The first `done` visits short of the bound have nothing left to follow. */
  ghost predicate AllFollowed<L(!new), S(!new)>(next: Successors<L, S>, bound: nat, order: seq<Visit<L, S>>,
                                                done: nat) {
    forall i :: 0 <= i < done && i < |order| && |order[i].route| < bound ==>
                  Followed(next, order, order[i], |next(order[i].state)|)
  }

  /** No visit is more than a step longer than the one whose turn it is. */
  ghost predicate OneStepAhead<L, S>(order: seq<Visit<L, S>>, done: nat) {
    forall i :: 0 <= i < |order| && done < |order| ==> |order[i].route| <= |order[done].route| + 1
  }

  ghost predicate Searched<L(!new), S(!new)>(next: Successors<L, S>, start: S, bound: nat, order: seq<Visit<L, S>>,
                                             done: nat) {
    && ByWalks(next, start, bound, order) && done <= |order|
    && AllFollowed(next, bound, order, done) && OneStepAhead(order, done)
  }

  lemma MoreVisited<L(!new), S(!new)>(order: seq<Visit<L, S>>, v: Visit<L, S>, s: S, n: int)
    requires VisitedBy(order, s, n)
    ensures VisitedBy(order + [v], s, n)
  {
    var j :| 0 <= j < |order| && order[j].state == s && |order[j].route| <= n;
    assert (order + [v])[j] == order[j];
  }

  lemma MoreFollowed<L(!new), S(!new)>(next: Successors<L, S>, order: seq<Visit<L, S>>, v: Visit<L, S>, w: Visit<L, S>,
                                       k: nat)
    requires Followed(next, order, w, k)
    ensures Followed(next, order + [v], w, k)
  {
    forall q | 0 <= q < k && q < |next(w.state)|
      ensures VisitedBy(order + [v], next(w.state)[q].to, |w.route| + 1)
    {
      MoreVisited(order, v, next(w.state)[q].to, |w.route| + 1);
    }
  }

  // ---------------------------------------------------------------- a finished search

  /** Once every visit is followed, whatever a walk reaches was visited by one no longer. */
  lemma {:induction false} WalksAreVisited<L(!new), S(!new)>(next: Successors<L, S>, start: S, bound: nat,
                                                             order: seq<Visit<L, S>>, walk: seq<Move<L, S>>)
    requires Searched(next, start, bound, order, |order|) && IsWalk(next, start, walk) && |walk| <= bound
    ensures VisitedBy(order, End(start, walk), |walk|)
    decreases |walk|
  {
    if walk == [] {
      assert order[0].state == start;
    } else {
      var rest, last := walk[..|walk| - 1], walk[|walk| - 1];
      WalksAreVisited(next, start, bound, order, rest);
      StepIsVisited(next, bound, order, End(start, rest), |rest|, last);
    }
  }

  lemma StepIsVisited<L(!new), S(!new)>(next: Successors<L, S>, bound: nat, order: seq<Visit<L, S>>, s: S, n: nat,
                                        move: Move<L, S>)
    requires AllFollowed(next, bound, order, |order|) && n < bound && VisitedBy(order, s, n) && move in next(s)
    ensures VisitedBy(order, move.to, n + 1)
  {
    var j :| 0 <= j < |order| && order[j].state == s && |order[j].route| <= n;
    var q :| 0 <= q < |next(s)| && next(s)[q] == move;
    assert Followed(next, order, order[j], |next(s)|);
    assert VisitedBy(order, move.to, |order[j].route| + 1);
    var k :| 0 <= k < |order| && order[k].state == move.to && |order[k].route| <= |order[j].route| + 1;
    assert |order[k].route| <= n + 1;
  }

  // ---------------------------------------------------------------- the nodes found

  predicate StandsAt<S, N(==)>(reached: S -> Option<N>, s: S, n: N) {
    reached(s) == Some(n)
  }

  /** The first visit that reaches the node. */
  ghost predicate FirstAt<L, S, N>(reached: S -> Option<N>, order: seq<Visit<L, S>>, n: N, j: nat) {
    && j < |order| && StandsAt(reached, order[j].state, n)
    && forall i :: 0 <= i < j ==> !StandsAt(reached, order[i].state, n)
  }

  ghost predicate SomeFirst<L(!new), S(!new), N>(reached: S -> Option<N>, order: seq<Visit<L, S>>, n: N) {
    exists j: nat :: FirstAt(reached, order, n, j)
  }

  /** Each node but the first visit's own, by the walk that reached it first. */
  ghost predicate FoundIn<L(!new), S(!new), N(!new)>(reached: S -> Option<N>, own: N, order: seq<Visit<L, S>>,
                                                     found: map<N, seq<Move<L, S>>>) {
    && (forall n :: n in found <==> n != own && SomeFirst(reached, order, n))
    && (forall n, j: nat :: n in found && FirstAt(reached, order, n, j) ==> found[n] == order[j].route)
  }

  lemma {:induction false} SomeIsFirst<L(!new), S(!new), N(!new)>(reached: S -> Option<N>, order: seq<Visit<L, S>>,
                                                                  n: N, i: nat)
    requires i < |order| && StandsAt(reached, order[i].state, n)
    ensures exists j: nat :: j <= i && FirstAt(reached, order, n, j)
  {
    if k: nat :| k < i && StandsAt(reached, order[k].state, n) {
      SomeIsFirst(reached, order, n, k);
    } else {
      assert FirstAt(reached, order, n, i);
    }
  }

  /** A walk to a state at the node, no longer than any other within the bound. */
  ghost predicate ShortestTo<L(!new), S(!new), N(!new)>(next: Successors<L, S>, reached: S -> Option<N>, start: S,
                                                        bound: nat, n: N, route: seq<Move<L, S>>) {
    && Leads(next, start, 0, bound, route, End(start, route)) && StandsAt(reached, End(start, route), n)
    && forall walk, s :: Leads(next, start, 0, bound, walk, s) && StandsAt(reached, s, n) ==> |route| <= |walk|
  }

  lemma FoundIsShortest<L(!new), S(!new), N(!new)>(next: Successors<L, S>, reached: S -> Option<N>, start: S,
                                                   bound: nat, order: seq<Visit<L, S>>, n: N, j: nat)
    requires Searched(next, start, bound, order, |order|) && FirstAt(reached, order, n, j)
    ensures ShortestTo(next, reached, start, bound, n, order[j].route)
  {
    forall walk, s | Leads(next, start, 0, bound, walk, s) && StandsAt(reached, s, n)
      ensures |order[j].route| <= |walk|
    {
      WalksAreVisited(next, start, bound, order, walk);
      var k :| 0 <= k < |order| && order[k].state == s && |order[k].route| <= |walk|;
      assert k >= j;
    }
  }

  /** What a search to the bound finds: exactly the nodes within reach but its own, each by a shortest walk. */
  ghost predicate Finds<L(!new), S(!new), N(!new)>(next: Successors<L, S>, reached: S -> Option<N>, start: S,
                                                   bound: nat, own: N, found: map<N, seq<Move<L, S>>>) {
    && (forall n :: n in found <==> n != own && NodeReached(next, reached, start, bound, n))
    && (forall n :: n in found ==> ShortestTo(next, reached, start, bound, n, found[n]))
  }

  lemma ReachedIsFirst<L(!new), S(!new), N(!new)>(next: Successors<L, S>, reached: S -> Option<N>, start: S, bound: nat,
                                                  order: seq<Visit<L, S>>, n: N)
    requires Searched(next, start, bound, order, |order|)
    ensures NodeReached(next, reached, start, bound, n) <==> SomeFirst(reached, order, n)
  {
    if NodeReached(next, reached, start, bound, n) {
      var s :| reached(s) == Some(n) && Reaches(next, start, 0, bound, s);
      var walk :| Leads(next, start, 0, bound, walk, s);
      WalksAreVisited(next, start, bound, order, walk);
      var k :| 0 <= k < |order| && order[k].state == s && |order[k].route| <= |walk|;
      SomeIsFirst(reached, order, n, k);
    }
    if SomeFirst(reached, order, n) {
      var j: nat :| FirstAt(reached, order, n, j);
      assert Leads(next, start, 0, bound, order[j].route, order[j].state);
      assert Reaches(next, start, 0, bound, order[j].state);
    }
  }

  lemma SearchFinds<L(!new), S(!new), N(!new)>(next: Successors<L, S>, reached: S -> Option<N>, start: S, bound: nat,
                                               own: N, order: seq<Visit<L, S>>, found: map<N, seq<Move<L, S>>>)
    requires Searched(next, start, bound, order, |order|) && FoundIn(reached, own, order, found)
    ensures Finds(next, reached, start, bound, own, found)
  {
    forall n
      ensures n in found <==> n != own && NodeReached(next, reached, start, bound, n)
    {
      ReachedIsFirst(next, reached, start, bound, order, n);
    }
    forall n | n in found
      ensures ShortestTo(next, reached, start, bound, n, found[n])
    {
      var j: nat :| FirstAt(reached, order, n, j);
      FoundIsShortest(next, reached, start, bound, order, n, j);
    }
  }

  // ---------------------------------------------------------------- the search

  /** Every state within so many steps. */
  ghost function Ball<L, S>(next: Successors<L, S>, start: S, d: nat): set<S> {
    if d == 0 then {start}
    else
      var inner := Ball(next, start, d - 1);
      inner + set s, i | s in inner && 0 <= i < |next(s)| :: next(s)[i].to
  }

  lemma {:induction false} WalkStaysInside<L, S>(next: Successors<L, S>, start: S, d: nat, walk: seq<Move<L, S>>)
    requires IsWalk(next, start, walk) && |walk| <= d
    ensures End(start, walk) in Ball(next, start, d)
    decreases d
  {
    if |walk| < d {
      WalkStaysInside(next, start, d - 1, walk);
    } else if walk != [] {
      var rest, last := walk[..|walk| - 1], walk[|walk| - 1];
      WalkStaysInside(next, start, d - 1, rest);
      var i :| 0 <= i < |next(End(start, rest))| && next(End(start, rest))[i] == last;
    }
  }

  /** The states visited. */
  ghost predicate SeenAre<L(!new), S(!new)>(order: seq<Visit<L, S>>, seen: set<S>) {
    |seen| == |order| && forall s :: s in seen <==> exists j :: 0 <= j < |order| && order[j].state == s
  }

  lemma SeenIsBounded<L(!new), S(!new)>(next: Successors<L, S>, start: S, bound: nat, order: seq<Visit<L, S>>,
                                        seen: set<S>)
    requires ByWalks(next, start, bound, order) && SeenAre(order, seen)
    ensures |order| <= |Ball(next, start, bound)|
  {
    forall s | s in seen
      ensures s in Ball(next, start, bound)
    {
      var j :| 0 <= j < |order| && order[j].state == s;
      WalkStaysInside(next, start, bound, order[j].route);
    }
    NoMore(seen, Ball(next, start, bound));
  }

  lemma NoMore<T>(a: set<T>, b: set<T>)
    requires a <= b
    ensures |a| <= |b|
  {
    assert b == a + (b - a);
  }

  /** The visit whose turn it is, its first `k` ways on followed. */
  ghost predicate Following<L(!new), S(!new)>(next: Successors<L, S>, start: S, bound: nat, order: seq<Visit<L, S>>,
                                              done: nat, head: Visit<L, S>, k: nat) {
    && ByWalks(next, start, bound, order) && done < |order| && order[done] == head && |head.route| < bound
    && AllFollowed(next, bound, order, done) && OneStepAhead(order, done) && Followed(next, order, head, k)
  }

  /** A state not visited yet is visited in one step more than the one it was met from. */
  lemma VisitOneMore<L(!new), S(!new)>(next: Successors<L, S>, start: S, bound: nat, order: seq<Visit<L, S>>, done: nat,
                                       head: Visit<L, S>, k: nat, seen: set<S>, v: Visit<L, S>)
    requires Following(next, start, bound, order, done, head, k) && SeenAre(order, seen)
    requires k < |next(head.state)| && v == Visit(next(head.state)[k].to, head.route + [next(head.state)[k]])
    requires v.state !in seen
    ensures Following(next, start, bound, order + [v], done, head, k + 1) && SeenAre(order + [v], seen + {v.state})
  {
    LeadsOneMore(next, start, bound, head, k);
    ByWalksOneMore(next, start, bound, order, v);
    AllFollowedStays(next, bound, order, v, done);
    MoreFollowed(next, order, v, head, k);
    assert (order + [v])[|order|] == v;
    assert VisitedBy(order + [v], v.state, |head.route| + 1);
    SeenOneMore(order, seen, v);
  }

  lemma LeadsOneMore<L(!new), S(!new)>(next: Successors<L, S>, start: S, bound: nat, head: Visit<L, S>, k: nat)
    requires Leads(next, start, 0, bound, head.route, head.state) && |head.route| < bound && k < |next(head.state)|
    ensures Leads(next, start, 0, bound, head.route + [next(head.state)[k]], next(head.state)[k].to)
  {
    OneMove(next, start, |head.route|, head.route, head.state, k);
  }

  lemma ByWalksOneMore<L(!new), S(!new)>(next: Successors<L, S>, start: S, bound: nat, order: seq<Visit<L, S>>,
                                         v: Visit<L, S>)
    requires ByWalks(next, start, bound, order) && Leads(next, start, 0, bound, v.route, v.state)
    requires forall i :: 0 <= i < |order| ==> order[i].state != v.state && |order[i].route| <= |v.route|
    ensures ByWalks(next, start, bound, order + [v])
  {
  }

  lemma AllFollowedStays<L(!new), S(!new)>(next: Successors<L, S>, bound: nat, order: seq<Visit<L, S>>, v: Visit<L, S>,
                                           done: nat)
    requires AllFollowed(next, bound, order, done) && done <= |order|
    ensures AllFollowed(next, bound, order + [v], done)
  {
    forall i | 0 <= i < done && |order[i].route| < bound
      ensures Followed(next, order + [v], order[i], |next(order[i].state)|)
    {
      MoreFollowed(next, order, v, order[i], |next(order[i].state)|);
    }
  }

  lemma SeenOneMore<L(!new), S(!new)>(order: seq<Visit<L, S>>, seen: set<S>, v: Visit<L, S>)
    requires SeenAre(order, seen) && v.state !in seen
    ensures SeenAre(order + [v], seen + {v.state})
  {
    forall s
      ensures s in seen + {v.state} <==> exists j :: 0 <= j < |order + [v]| && (order + [v])[j].state == s
    {
      if s in seen {
        var j :| 0 <= j < |order| && order[j].state == s;
        assert (order + [v])[j].state == s;
      }
      assert (order + [v])[|order|].state == v.state;
    }
  }

  /** Meeting a state visited before changes nothing: it was visited in at most one step more. */
  lemma MeetAgain<L(!new), S(!new)>(next: Successors<L, S>, start: S, bound: nat, order: seq<Visit<L, S>>, done: nat,
                                    head: Visit<L, S>, k: nat, seen: set<S>)
    requires Following(next, start, bound, order, done, head, k) && SeenAre(order, seen)
    requires k < |next(head.state)| && next(head.state)[k].to in seen
    ensures Following(next, start, bound, order, done, head, k + 1)
  {
    var j :| 0 <= j < |order| && order[j].state == next(head.state)[k].to;
    assert VisitedBy(order, next(head.state)[k].to, |head.route| + 1);
  }

  lemma FoundOneMore<L(!new), S(!new), N(!new)>(reached: S -> Option<N>, own: N, order: seq<Visit<L, S>>,
                                                found: map<N, seq<Move<L, S>>>, v: Visit<L, S>)
    requires FoundIn(reached, own, order, found)
    ensures FoundIn(reached, own, order + [v], WithFound(reached, own, found, v))
  {
    forall n, j: nat
      ensures FirstAt(reached, order + [v], n, j) <==>
              FirstAt(reached, order, n, j)
              || (j == |order| && StandsAt(reached, v.state, n) && !SomeFirst(reached, order, n))
    {
      FirstOneMore(reached, order, v, n, j);
    }
    forall n
      ensures SomeFirst(reached, order + [v], n) <==>
              SomeFirst(reached, order, n) || StandsAt(reached, v.state, n)
    {
      if StandsAt(reached, v.state, n) {
        assert (order + [v])[|order|] == v;
        SomeIsFirst(reached, order + [v], n, |order|);
      }
      if SomeFirst(reached, order, n) {
        var j: nat :| FirstAt(reached, order, n, j);
        assert FirstAt(reached, order + [v], n, j);
      }
    }
  }

  lemma FirstOneMore<L(!new), S(!new), N(!new)>(reached: S -> Option<N>, order: seq<Visit<L, S>>, v: Visit<L, S>, n: N,
                                                j: nat)
    ensures FirstAt(reached, order + [v], n, j) <==>
            FirstAt(reached, order, n, j)
            || (j == |order| && StandsAt(reached, v.state, n) && !SomeFirst(reached, order, n))
  {
    var all := order + [v];
    assert forall i :: 0 <= i < |order| ==> all[i] == order[i];
    if SomeFirst(reached, order, n) {
      var i: nat :| FirstAt(reached, order, n, i);
      assert StandsAt(reached, all[i].state, n);
    }
    if j == |order| && !SomeFirst(reached, order, n) {
      forall i: nat | i < j
        ensures !StandsAt(reached, all[i].state, n)
      {
        if StandsAt(reached, order[i].state, n) { SomeIsFirst(reached, order, n, i); }
      }
    }
  }

  function WithFound<L, S, N(==)>(reached: S -> Option<N>, own: N, found: map<N, seq<Move<L, S>>>,
                                  v: Visit<L, S>): map<N, seq<Move<L, S>>> {
    var n := reached(v.state);
    if n.Some? && n.value != own && n.value !in found then found[n.value := v.route] else found
  }

  /** `reachable_from`: breadth first over states, each visited once, to the bound. */
  method Search<L(!new, ==), S(!new, ==), N(!new, ==)>(next: Successors<L, S>, reached: S -> Option<N>, start: S,
                                                       bound: nat, own: N) returns (found: map<N, seq<Move<L, S>>>)
    requires reached(start) == Some(own)
    ensures Finds(next, reached, start, bound, own, found)
  {
    found := map[];
    var queue, seen := [Visit(start, [])], {start};
    ghost var order, done := queue, 0;
    SearchBegins(next, reached, start, bound, own);
    while queue != []
      invariant Searched(next, start, bound, order, done) && queue == order[done..]
      invariant SeenAre(order, seen) && FoundIn(reached, own, order, found)
      decreases |Ball(next, start, bound)| - done
    {
      var head := queue[0];
      queue := queue[1..];
      assert head == order[done];
      if |head.route| < bound {
        queue, seen, found, order := Follow(next, reached, start, bound, own, head, queue, seen, found, order, done);
      }
      SeenIsBounded(next, start, bound, order, seen);
      TurnOver(next, start, bound, order, done, head);
      done := done + 1;
    }
    SearchFinds(next, reached, start, bound, own, order, found);
  }

  lemma SearchBegins<L(!new), S(!new), N(!new)>(next: Successors<L, S>, reached: S -> Option<N>, start: S, bound: nat,
                                                own: N)
    requires reached(start) == Some(own)
    ensures Searched(next, start, bound, [Visit(start, [])], 0)
    ensures SeenAre<L, S>([Visit(start, [])], {start}) && FoundIn<L, S, N>(reached, own, [Visit(start, [])], map[])
  {
    var order: seq<Visit<L, S>> := [Visit(start, [])];
    assert order[0].state == start;
  }

  lemma TurnOver<L(!new), S(!new)>(next: Successors<L, S>, start: S, bound: nat, order: seq<Visit<L, S>>, done: nat,
                                   head: Visit<L, S>)
    requires ByWalks(next, start, bound, order) && done < |order| && order[done] == head
    requires AllFollowed(next, bound, order, done) && OneStepAhead(order, done)
    requires |head.route| < bound ==> Followed(next, order, head, |next(head.state)|)
    ensures Searched(next, start, bound, order, done + 1)
  {
  }

  /** The search while a visit is followed: what was met, what is queued of it, and what was found. */
  ghost predicate Underway<L(!new), S(!new), N(!new)>(next: Successors<L, S>, reached: S -> Option<N>, start: S,
                                                      bound: nat, own: N, order: seq<Visit<L, S>>, done: nat,
                                                      head: Visit<L, S>, k: nat, queue: seq<Visit<L, S>>, seen: set<S>,
                                                      found: map<N, seq<Move<L, S>>>) {
    && Following(next, start, bound, order, done, head, k) && queue == order[done + 1..]
    && SeenAre(order, seen) && FoundIn(reached, own, order, found)
  }

  lemma MeetsAgain<L(!new), S(!new), N(!new)>(next: Successors<L, S>, reached: S -> Option<N>, start: S, bound: nat,
                                              own: N, order: seq<Visit<L, S>>, done: nat, head: Visit<L, S>, k: nat,
                                              queue: seq<Visit<L, S>>, seen: set<S>, found: map<N, seq<Move<L, S>>>)
    requires Underway(next, reached, start, bound, own, order, done, head, k, queue, seen, found)
    requires k < |next(head.state)| && next(head.state)[k].to in seen
    ensures Underway(next, reached, start, bound, own, order, done, head, k + 1, queue, seen, found)
  {
    MeetAgain(next, start, bound, order, done, head, k, seen);
  }

  lemma QueuedOneMore<T>(order: seq<T>, v: T, n: nat)
    requires n <= |order|
    ensures (order + [v])[n..] == order[n..] + [v]
  {
  }

  method Follow<L(!new, ==), S(!new, ==), N(!new, ==)>(next: Successors<L, S>, reached: S -> Option<N>, ghost start: S,
                                                       ghost bound: nat, own: N, head: Visit<L, S>,
                                                       waiting: seq<Visit<L, S>>, known: set<S>,
                                                       before: map<N, seq<Move<L, S>>>, ghost visits: seq<Visit<L, S>>,
                                                       ghost done: nat)
    returns (queue: seq<Visit<L, S>>, seen: set<S>, found: map<N, seq<Move<L, S>>>, ghost order: seq<Visit<L, S>>)
    requires Underway(next, reached, start, bound, own, visits, done, head, 0, waiting, known, before)
    ensures Underway(next, reached, start, bound, own, order, done, head, |next(head.state)|, queue, seen, found)
  {
    queue, seen, found, order := waiting, known, before, visits;
    var moves := next(head.state);
    for k := 0 to |moves|
      invariant Underway(next, reached, start, bound, own, order, done, head, k, queue, seen, found)
    {
      var v := Visit(moves[k].to, head.route + [moves[k]]);
      if v.state in seen {
        MeetsAgain(next, reached, start, bound, own, order, done, head, k, queue, seen, found);
        continue;
      }
      VisitOneMore(next, start, bound, order, done, head, k, seen, v);
      FoundOneMore(reached, own, order, found, v);
      QueuedOneMore(order, v, done + 1);
      seen := seen + {v.state};
      found := WithFound(reached, own, found, v);
      queue := queue + [v];
      order := order + [v];
    }
  }
}
