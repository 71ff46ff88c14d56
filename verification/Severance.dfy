/** Which links each state of a walk hangs on, and which routes close when a link is removed. */
module Severance {
  import opened Wrappers

  /** A way on from a state: the link taken, where it is one that can be removed, and where it leads. */
  datatype Move<L, S> = Move(link: Option<L>, to: S)

  type Successors<!L, !S> = S -> seq<Move<L, S>>

  // ---------------------------------------------------------------- walks

  function End<L, S>(entry: S, walk: seq<Move<L, S>>): S {
    if walk == [] then entry else walk[|walk| - 1].to
  }

  predicate IsWalk<L(==), S(==)>(next: Successors<L, S>, entry: S, walk: seq<Move<L, S>>) {
    walk == [] || (IsWalk(next, entry, walk[..|walk| - 1]) && walk[|walk| - 1] in next(End(entry, walk[..|walk| - 1])))
  }

  predicate Uses<L(==), S>(walk: seq<Move<L, S>>, link: L) {
    walk != [] && (Uses(walk[..|walk| - 1], link) || walk[|walk| - 1].link == Some(link))
  }

  /** A walk of `lo` to `hi` steps from one state to another. */
  predicate Leads<L(==), S(==)>(next: Successors<L, S>, entry: S, lo: nat, hi: nat, walk: seq<Move<L, S>>, at: S) {
    lo <= |walk| <= hi && IsWalk(next, entry, walk) && End(entry, walk) == at
  }

  ghost predicate Reaches<L(!new), S(!new)>(next: Successors<L, S>, entry: S, lo: nat, hi: nat, at: S) {
    exists walk :: Leads(next, entry, lo, hi, walk, at)
  }

  /** Every such walk uses the link. */
  ghost predicate Needs<L(!new), S(!new)>(next: Successors<L, S>, entry: S, lo: nat, hi: nat, at: S, link: L) {
    forall walk :: Leads(next, entry, lo, hi, walk, at) ==> Uses(walk, link)
  }

  /** The states such walks reach, each with the links that all of them to it use. */
  ghost predicate Answers<L(!new), S(!new)>(next: Successors<L, S>, entry: S, lo: nat, hi: nat, m: map<S, set<L>>) {
    && (forall s :: s in m <==> Reaches(next, entry, lo, hi, s))
    && (forall s, link :: s in m ==> (link in m[s] <==> Needs(next, entry, lo, hi, s, link)))
  }

  // ---------------------------------------------------------------- merging what arrives

  /** One way of reaching a key, with the links it carries. */
  datatype Arrival<L, K> = Arrival(at: K, through: set<L>)

  function With<L, K>(m: map<K, set<L>>, a: Arrival<L, K>): map<K, set<L>> {
    m[a.at := if a.at in m then m[a.at] * a.through else a.through]
  }

  ghost predicate Arrived<L(!new), K(!new)>(arrivals: set<Arrival<L, K>>, k: K) {
    exists a :: a in arrivals && a.at == k
  }

  ghost predicate AllCarry<L(!new), K(!new)>(arrivals: set<Arrival<L, K>>, k: K, link: L) {
    forall a :: a in arrivals && a.at == k ==> link in a.through
  }

  /** Each key arrived at, with the links that every arrival there carries. */
  ghost predicate MergeOf<L(!new), K(!new)>(m: map<K, set<L>>, arrivals: set<Arrival<L, K>>) {
    && (forall k :: k in m <==> Arrived(arrivals, k))
    && (forall k, link :: k in m ==> (link in m[k] <==> AllCarry(arrivals, k, link)))
  }

  lemma WithMerges<L(!new), K(!new)>(m: map<K, set<L>>, arrivals: set<Arrival<L, K>>, a: Arrival<L, K>)
    requires MergeOf(m, arrivals)
    ensures MergeOf(With(m, a), arrivals + {a})
  {
    forall k
      ensures k in With(m, a) <==> Arrived(arrivals + {a}, k)
    {
      if k == a.at {
        assert a in arrivals + {a};
      }
      if Arrived(arrivals, k) {
        var b :| b in arrivals && b.at == k;
        assert b in arrivals + {a};
      }
    }
    forall k, link | k in With(m, a)
      ensures link in With(m, a)[k] <==> AllCarry(arrivals + {a}, k, link)
    {
      CarriedWith(arrivals, a, k, link);
      if k !in m {
        assert !Arrived(arrivals, k);
      }
    }
  }

  lemma CarriedWith<L(!new), K(!new)>(arrivals: set<Arrival<L, K>>, a: Arrival<L, K>, k: K, link: L)
    ensures AllCarry(arrivals + {a}, k, link) <==> AllCarry(arrivals, k, link) && (a.at == k ==> link in a.through)
    ensures !Arrived(arrivals, k) ==> AllCarry(arrivals, k, link)
  {
    if AllCarry(arrivals + {a}, k, link) {
      assert forall b :: b in arrivals ==> b in arrivals + {a};
      assert a in arrivals + {a};
    }
  }

  // ---------------------------------------------------------------- one layer further

  function Through<L, S>(carried: set<L>, move: Move<L, S>): Arrival<L, S> {
    Arrival(move.to, match move.link case Some(link) => carried + {link} case None => carried)
  }

  ghost function Onward<L, S>(carried: set<L>, moves: seq<Move<L, S>>): set<Arrival<L, S>> {
    set i | 0 <= i < |moves| :: Through(carried, moves[i])
  }

  /** Everything a layer leads to. */
  ghost function Ahead<L, S>(next: Successors<L, S>, layer: map<S, set<L>>, states: set<S>): set<Arrival<L, S>> {
    set s, a | s in states && s in layer && a in Onward(layer[s], next(s)) :: a
  }

  lemma {:induction false} Prefix<L, S>(next: Successors<L, S>, entry: S, walk: seq<Move<L, S>>, n: nat)
    requires IsWalk(next, entry, walk) && n <= |walk|
    ensures IsWalk(next, entry, walk[..n])
    decreases |walk|
  {
    if n < |walk| {
      Prefix(next, entry, walk[..|walk| - 1], n);
      assert walk[..|walk| - 1][..n] == walk[..n];
    } else {
      assert walk[..n] == walk;
    }
  }

  lemma OneMove<L, S>(next: Successors<L, S>, entry: S, d: nat, walk: seq<Move<L, S>>, s: S, i: nat)
    requires Leads(next, entry, d, d, walk, s) && i < |next(s)|
    ensures Leads(next, entry, d + 1, d + 1, walk + [next(s)[i]], next(s)[i].to)
    ensures forall link :: Uses(walk + [next(s)[i]], link) <==> Uses(walk, link) || next(s)[i].link == Some(link)
  {
    assert (walk + [next(s)[i]])[..|walk|] == walk;
  }

  lemma LastMove<L, S>(next: Successors<L, S>, entry: S, d: nat, walk: seq<Move<L, S>>, at: S) returns (s: S, i: nat)
    requires Leads(next, entry, d + 1, d + 1, walk, at)
    ensures Leads(next, entry, d, d, walk[..d], s) && i < |next(s)| && next(s)[i] == walk[d] && walk[d].to == at
  {
    s := End(entry, walk[..d]);
    i :| 0 <= i < |next(s)| && next(s)[i] == walk[d];
  }

  lemma AheadHas<L, S>(next: Successors<L, S>, layer: map<S, set<L>>, s: S, i: nat)
    requires s in layer && i < |next(s)|
    ensures Through(layer[s], next(s)[i]) in Ahead(next, layer, layer.Keys)
  {
    assert Through(layer[s], next(s)[i]) in Onward(layer[s], next(s));
  }

  lemma AheadFrom<L, S>(next: Successors<L, S>, layer: map<S, set<L>>, a: Arrival<L, S>) returns (s: S, i: nat)
    requires a in Ahead(next, layer, layer.Keys)
    ensures s in layer && i < |next(s)| && a == Through(layer[s], next(s)[i])
  {
    s :| s in layer && a in Onward(layer[s], next(s));
    i :| 0 <= i < |next(s)| && a == Through(layer[s], next(s)[i]);
  }

  lemma ReachedAhead<L(!new), S(!new)>(next: Successors<L, S>, entry: S, d: nat, layer: map<S, set<L>>, at: S)
    requires Answers(next, entry, d, d, layer)
    ensures Arrived(Ahead(next, layer, layer.Keys), at) <==> Reaches(next, entry, d + 1, d + 1, at)
  {
    if Arrived(Ahead(next, layer, layer.Keys), at) {
      var a :| a in Ahead(next, layer, layer.Keys) && a.at == at;
      var s, i := AheadFrom(next, layer, a);
      var walk :| Leads(next, entry, d, d, walk, s);
      OneMove(next, entry, d, walk, s, i);
    }
    if Reaches(next, entry, d + 1, d + 1, at) {
      var walk :| Leads(next, entry, d + 1, d + 1, walk, at);
      var s, i := LastMove(next, entry, d, walk, at);
      assert Reaches(next, entry, d, d, s);
      AheadHas(next, layer, s, i);
    }
  }

  lemma CarriedIsNeeded<L(!new), S(!new)>(next: Successors<L, S>, entry: S, d: nat, layer: map<S, set<L>>, at: S,
                                          link: L)
    requires Answers(next, entry, d, d, layer) && AllCarry(Ahead(next, layer, layer.Keys), at, link)
    ensures Needs(next, entry, d + 1, d + 1, at, link)
  {
    forall walk | Leads(next, entry, d + 1, d + 1, walk, at)
      ensures Uses(walk, link)
    {
      var s, i := LastMove(next, entry, d, walk, at);
      assert Reaches(next, entry, d, d, s);
      AheadHas(next, layer, s, i);
      assert link in Through(layer[s], next(s)[i]).through;
      if link in layer[s] {
        assert Uses(walk[..d], link);
      }
    }
  }

  lemma NeededIsCarried<L(!new), S(!new)>(next: Successors<L, S>, entry: S, d: nat, layer: map<S, set<L>>, at: S,
                                          link: L)
    requires Answers(next, entry, d, d, layer) && Needs(next, entry, d + 1, d + 1, at, link)
    ensures AllCarry(Ahead(next, layer, layer.Keys), at, link)
  {
    forall a | a in Ahead(next, layer, layer.Keys) && a.at == at
      ensures link in a.through
    {
      var s, i := AheadFrom(next, layer, a);
      if next(s)[i].link != Some(link) {
        forall walk | Leads(next, entry, d, d, walk, s)
          ensures Uses(walk, link)
        {
          OneMove(next, entry, d, walk, s, i);
          assert Uses(walk + [next(s)[i]], link);
        }
        assert Needs(next, entry, d, d, s, link);
      }
    }
  }

  lemma LayerAhead<L(!new), S(!new)>(next: Successors<L, S>, entry: S, d: nat, layer: map<S, set<L>>,
                                     ahead: map<S, set<L>>)
    requires Answers(next, entry, d, d, layer) && MergeOf(ahead, Ahead(next, layer, layer.Keys))
    ensures Answers(next, entry, d + 1, d + 1, ahead)
  {
    forall s
      ensures s in ahead <==> Reaches(next, entry, d + 1, d + 1, s)
    {
      ReachedAhead(next, entry, d, layer, s);
    }
    forall s, link | s in ahead
      ensures link in ahead[s] <==> Needs(next, entry, d + 1, d + 1, s, link)
    {
      if AllCarry(Ahead(next, layer, layer.Keys), s, link) { CarriedIsNeeded(next, entry, d, layer, s, link); }
      if Needs(next, entry, d + 1, d + 1, s, link) { NeededIsCarried(next, entry, d, layer, s, link); }
    }
  }

  // ---------------------------------------------------------------- every length together

  /** What walks of either range need, where the second follows on the first. */
  ghost predicate Joined<L(!new), S(!new)>(m: map<S, set<L>>, a: map<S, set<L>>, b: map<S, set<L>>) {
    && m.Keys == a.Keys + b.Keys
    && forall s :: s in m ==>
         m[s] == if s in a && s in b then a[s] * b[s] else if s in a then a[s] else b[s]
  }

  lemma ReachesJoin<L(!new), S(!new)>(next: Successors<L, S>, entry: S, d: nat, at: S)
    ensures Reaches(next, entry, 0, d + 1, at) <==>
            Reaches(next, entry, 0, d, at) || Reaches(next, entry, d + 1, d + 1, at)
  {
    if Reaches(next, entry, 0, d + 1, at) {
      var walk :| Leads(next, entry, 0, d + 1, walk, at);
      assert Leads(next, entry, 0, d, walk, at) || Leads(next, entry, d + 1, d + 1, walk, at);
    }
    if Reaches(next, entry, 0, d, at) {
      var walk :| Leads(next, entry, 0, d, walk, at);
      assert Leads(next, entry, 0, d + 1, walk, at);
    }
    if Reaches(next, entry, d + 1, d + 1, at) {
      var walk :| Leads(next, entry, d + 1, d + 1, walk, at);
      assert Leads(next, entry, 0, d + 1, walk, at);
    }
  }

  lemma NeedsJoin<L(!new), S(!new)>(next: Successors<L, S>, entry: S, d: nat, at: S, link: L)
    ensures Needs(next, entry, 0, d + 1, at, link) <==>
            Needs(next, entry, 0, d, at, link) && Needs(next, entry, d + 1, d + 1, at, link)
  {
    assert forall walk: seq<Move<L, S>> :: Leads(next, entry, 0, d + 1, walk, at) <==>
             Leads(next, entry, 0, d, walk, at) || Leads(next, entry, d + 1, d + 1, walk, at);
  }

  lemma NeededWhereUnreached<L(!new), S(!new)>(next: Successors<L, S>, entry: S, lo: nat, hi: nat, at: S, link: L)
    requires !Reaches(next, entry, lo, hi, at)
    ensures Needs(next, entry, lo, hi, at, link)
  {
  }

  lemma JoinedAnswers<L(!new), S(!new)>(next: Successors<L, S>, entry: S, d: nat, m: map<S, set<L>>, a: map<S, set<L>>,
                                        b: map<S, set<L>>)
    requires Joined(m, a, b) && Answers(next, entry, 0, d, a) && Answers(next, entry, d + 1, d + 1, b)
    ensures Answers(next, entry, 0, d + 1, m)
  {
    forall s
      ensures s in m <==> Reaches(next, entry, 0, d + 1, s)
    {
      ReachesJoin(next, entry, d, s);
    }
    forall s, link | s in m
      ensures link in m[s] <==> Needs(next, entry, 0, d + 1, s, link)
    {
      NeedsJoin(next, entry, d, s, link);
      if s !in a { NeededWhereUnreached(next, entry, 0, d, s, link); }
      if s !in b { NeededWhereUnreached(next, entry, d + 1, d + 1, s, link); }
    }
  }

  lemma NoWalk<L(!new), S(!new)>(next: Successors<L, S>, entry: S, d: nat, walk: seq<Move<L, S>>)
    requires Answers(next, entry, d, d, map[]) && |walk| == d
    ensures !IsWalk(next, entry, walk)
  {
    assert !Reaches(next, entry, d, d, End(entry, walk));
    assert !Leads(next, entry, d, d, walk, End(entry, walk));
  }

  lemma NoLonger<L(!new), S(!new)>(next: Successors<L, S>, entry: S, d: nat, hi: nat, walk: seq<Move<L, S>>, s: S)
    requires Answers(next, entry, d + 1, d + 1, map[]) && d <= hi
    ensures Leads(next, entry, 0, hi, walk, s) <==> Leads(next, entry, 0, d, walk, s)
  {
    if Leads(next, entry, 0, hi, walk, s) && |walk| > d {
      NoWalk(next, entry, d + 1, walk[..d + 1]);
      Prefix(next, entry, walk, d + 1);
    }
  }

  /** Where nothing is reached in one step more, nothing is in any number of steps more. */
  lemma NoFurther<L(!new), S(!new)>(next: Successors<L, S>, entry: S, d: nat, hi: nat, m: map<S, set<L>>)
    requires Answers(next, entry, 0, d, m) && Answers(next, entry, d + 1, d + 1, map[]) && d <= hi
    ensures Answers(next, entry, 0, hi, m)
  {
    forall walk, s
      ensures Leads(next, entry, 0, hi, walk, s) <==> Leads(next, entry, 0, d, walk, s)
    {
      NoLonger(next, entry, d, hi, walk, s);
    }
    forall s
      ensures s in m <==> Reaches(next, entry, 0, hi, s)
    {
      if walk :| Leads(next, entry, 0, hi, walk, s) {
        assert Leads(next, entry, 0, d, walk, s);
      }
    }
    forall s, link | s in m
      ensures link in m[s] <==> Needs(next, entry, 0, hi, s, link)
    {
      assert Needs(next, entry, 0, d, s, link) <==> Needs(next, entry, 0, hi, s, link);
    }
  }

  lemma AtTheEntry<L(!new), S(!new)>(next: Successors<L, S>, entry: S)
    ensures Answers(next, entry, 0, 0, map[entry := {}])
  {
    assert Leads(next, entry, 0, 0, [], entry);
  }

  // ---------------------------------------------------------------- the walk

  method Layer<L(!new, ==), S(!new, ==)>(next: Successors<L, S>, layer: map<S, set<L>>) returns (ahead: map<S, set<L>>)
    ensures MergeOf(ahead, Ahead(next, layer, layer.Keys))
  {
    ahead := map[];
    var todo := layer.Keys;
    while todo != {}
      invariant todo <= layer.Keys
      invariant MergeOf(ahead, Ahead(next, layer, layer.Keys - todo))
    {
      var s :| s in todo;
      var moves := next(s);
      ghost var before := Ahead(next, layer, layer.Keys - todo);
      for i := 0 to |moves|
        invariant MergeOf(ahead, before + Onward(layer[s], moves[..i]))
      {
        var a := Through(layer[s], moves[i]);
        WithMerges(ahead, before + Onward(layer[s], moves[..i]), a);
        OnwardOneMore(layer[s], moves, i);
        assert before + Onward(layer[s], moves[..i]) + {a} == before + Onward(layer[s], moves[..i + 1]);
        ahead := With(ahead, a);
      }
      assert moves[..|moves|] == moves;
      AheadOneMore(next, layer, layer.Keys - todo, s);
      assert layer.Keys - todo + {s} == layer.Keys - (todo - {s});
      todo := todo - {s};
    }
    assert layer.Keys - todo == layer.Keys;
  }

  lemma OnwardOneMore<L, S>(carried: set<L>, moves: seq<Move<L, S>>, i: nat)
    requires i < |moves|
    ensures Onward(carried, moves[..i + 1]) == Onward(carried, moves[..i]) + {Through(carried, moves[i])}
  {
    forall a | a in Onward(carried, moves[..i]) + {Through(carried, moves[i])}
      ensures a in Onward(carried, moves[..i + 1])
    {
      if a in Onward(carried, moves[..i]) {
        var k :| 0 <= k < i && a == Through(carried, moves[..i][k]);
        assert a == Through(carried, moves[..i + 1][k]);
      } else {
        assert moves[..i + 1][i] == moves[i];
      }
    }
    forall a | a in Onward(carried, moves[..i + 1])
      ensures a in Onward(carried, moves[..i]) + {Through(carried, moves[i])}
    {
      var k :| 0 <= k < i + 1 && a == Through(carried, moves[..i + 1][k]);
      if k < i { assert a == Through(carried, moves[..i][k]); }
    }
  }

  lemma AheadOneMore<L, S>(next: Successors<L, S>, layer: map<S, set<L>>, done: set<S>, s: S)
    requires s in layer
    ensures Ahead(next, layer, done + {s}) == Ahead(next, layer, done) + Onward(layer[s], next(s))
  {
  }

  method JoinLayers<L(!new, ==), S(!new, ==)>(necessary: map<S, set<L>>, ahead: map<S, set<L>>)
    returns (joined: map<S, set<L>>)
    ensures Joined(joined, necessary, ahead)
  {
    joined := necessary;
    var todo := ahead.Keys;
    while todo != {}
      invariant todo <= ahead.Keys
      invariant joined.Keys == necessary.Keys + (ahead.Keys - todo)
      invariant forall s :: s in joined ==>
                  joined[s] == if s in necessary && s in ahead && s !in todo then necessary[s] * ahead[s]
                               else if s in necessary then necessary[s] else ahead[s]
    {
      var s :| s in todo;
      joined := With(joined, Arrival(s, ahead[s]));
      todo := todo - {s};
    }
  }

  /** `necessary_links`: for each state reached within the bound, the links that every walk to it within the bound
      uses. */
  method NecessaryLinks<L(!new, ==), S(!new, ==)>(next: Successors<L, S>, entry: S, maxDepth: nat)
    returns (necessary: map<S, set<L>>)
    ensures Answers(next, entry, 0, maxDepth, necessary)
  {
    necessary := map[entry := {}];
    var layer: map<S, set<L>> := map[entry := {}];
    AtTheEntry(next, entry);
    for d := 0 to maxDepth
      invariant Answers(next, entry, 0, d, necessary) && Answers(next, entry, d, d, layer)
    {
      var ahead := Layer(next, layer);
      LayerAhead(next, entry, d, layer, ahead);
      if ahead == map[] {
        NoFurther(next, entry, d, maxDepth, necessary);
        return;
      }
      var joined := JoinLayers(necessary, ahead);
      JoinedAnswers(next, entry, d, joined, necessary, ahead);
      necessary, layer := joined, ahead;
    }
  }

  // ---------------------------------------------------------------- the routes that close

  /** Some walk within the bound ends standing at the node. */
  ghost predicate NodeReached<L(!new), S(!new), N(!new)>(next: Successors<L, S>, reached: S -> Option<N>, start: S,
                                                         bound: nat, node: N) {
    exists s :: reached(s) == Some(node) && Reaches(next, start, 0, bound, s)
  }

  /** Every walk within the bound that does uses the link. */
  ghost predicate NodeNeeds<L(!new), S(!new), N(!new)>(next: Successors<L, S>, reached: S -> Option<N>, start: S,
                                                       bound: nat, node: N, link: L) {
    forall s :: reached(s) == Some(node) ==> Needs(next, start, 0, bound, s, link)
  }

  /** The nodes reached, each with the links that all walks to it use. */
  ghost predicate NodeAnswers<L(!new), S(!new), N(!new)>(next: Successors<L, S>, reached: S -> Option<N>, start: S,
                                                         bound: nat, perNode: map<N, set<L>>) {
    && (forall n :: n in perNode <==> NodeReached(next, reached, start, bound, n))
    && (forall n, link :: n in perNode ==> (link in perNode[n] <==> NodeNeeds(next, reached, start, bound, n, link)))
  }

  /** What each state stands for, with what it needs. */
  ghost function Standing<L(!new), S(!new), N(!new)>(reached: S -> Option<N>, necessary: map<S, set<L>>,
                                                     states: set<S>): set<Arrival<L, N>> {
    set s | s in states && s in necessary && reached(s).Some? :: Arrival(reached(s).value, necessary[s])
  }

  lemma StandingHas<L(!new), S(!new), N(!new)>(reached: S -> Option<N>, necessary: map<S, set<L>>, n: N)
    ensures Arrived(Standing(reached, necessary, necessary.Keys), n) <==>
            exists s :: s in necessary && reached(s) == Some(n)
  {
    if s :| s in necessary && reached(s) == Some(n) {
      assert Arrival(n, necessary[s]) in Standing(reached, necessary, necessary.Keys);
    }
  }

  lemma StandingCarries<L(!new), S(!new), N(!new)>(reached: S -> Option<N>, necessary: map<S, set<L>>, n: N, link: L)
    ensures AllCarry(Standing(reached, necessary, necessary.Keys), n, link) <==>
            forall s :: s in necessary && reached(s) == Some(n) ==> link in necessary[s]
  {
    assert forall s :: s in necessary && reached(s).Some? ==>
             Arrival(reached(s).value, necessary[s]) in Standing(reached, necessary, necessary.Keys);
  }

  lemma NodesAnswer<L(!new), S(!new), N(!new)>(next: Successors<L, S>, reached: S -> Option<N>, start: S, bound: nat,
                                               necessary: map<S, set<L>>, perNode: map<N, set<L>>)
    requires Answers(next, start, 0, bound, necessary)
    requires MergeOf(perNode, Standing(reached, necessary, necessary.Keys))
    ensures NodeAnswers(next, reached, start, bound, perNode)
  {
    forall n
      ensures n in perNode <==> NodeReached(next, reached, start, bound, n)
    {
      StandingHas(reached, necessary, n);
    }
    forall n, link | n in perNode
      ensures link in perNode[n] <==> NodeNeeds(next, reached, start, bound, n, link)
    {
      StandingCarries(reached, necessary, n, link);
      forall s | s !in necessary
        ensures Needs(next, start, 0, bound, s, link)
      {
        NeededWhereUnreached(next, start, 0, bound, s, link);
      }
    }
  }

  method PerNode<L(!new, ==), S(!new, ==), N(!new, ==)>(next: Successors<L, S>, reached: S -> Option<N>, start: S,
                                                        maxDepth: nat) returns (perNode: map<N, set<L>>)
    ensures NodeAnswers(next, reached, start, maxDepth, perNode)
  {
    var necessary := NecessaryLinks(next, start, maxDepth);
    perNode := map[];
    var todo := necessary.Keys;
    while todo != {}
      invariant todo <= necessary.Keys
      invariant MergeOf(perNode, Standing(reached, necessary, necessary.Keys - todo))
    {
      var s :| s in todo;
      ghost var before := Standing(reached, necessary, necessary.Keys - todo);
      ghost var after := Standing(reached, necessary, necessary.Keys - (todo - {s}));
      if reached(s).Some? {
        var a := Arrival(reached(s).value, necessary[s]);
        WithMerges(perNode, before, a);
        assert after == before + {a};
        perNode := With(perNode, a);
      } else {
        assert after == before;
      }
      todo := todo - {s};
    }
    assert necessary.Keys - todo == necessary.Keys;
    NodesAnswer(next, reached, start, maxDepth, necessary, perNode);
  }

  /** Removing the link puts the target out of reach of this entry: it is another node, reached, and all walks that
      reach it use the link. */
  ghost predicate Severs<L(!new), S(!new), N(!new)>(next: Successors<L, S>, reached: S -> Option<N>, entry: (N, S),
                                                    targets: set<N>, bound: nat, link: L, target: N) {
    && target in targets && target != entry.0 && NodeReached(next, reached, entry.1, bound, target)
    && NodeNeeds(next, reached, entry.1, bound, target, link)
  }

  ghost predicate SomeSevers<L(!new), S(!new), N(!new)>(next: Successors<L, S>, reached: S -> Option<N>,
                                                        entries: seq<(N, S)>, targets: set<N>, bound: nat, link: L,
                                                        pair: (N, N)) {
    exists i :: 0 <= i < |entries| && entries[i].0 == pair.0
        && Severs(next, reached, entries[i], targets, bound, link, pair.1)
  }

  predicate Has<L, P(==)>(closes: map<L, set<P>>, link: L, pair: P) {
    link in closes && pair in closes[link]
  }

  function WithPair<L, P>(closes: map<L, set<P>>, link: L, pair: P): map<L, set<P>> {
    closes[link := (if link in closes then closes[link] else {}) + {pair}]
  }

  ghost predicate NoneEmpty<L, P>(closes: map<L, set<P>>) {
    forall link :: link in closes ==> closes[link] != {}
  }

  /** Adds a pair under each of the links. */
  method AddPairs<L(!new, ==), P(!new, ==)>(closes: map<L, set<P>>, links: set<L>, pair: P)
    returns (added: map<L, set<P>>)
    requires NoneEmpty(closes)
    ensures NoneEmpty(added)
    ensures forall link, p :: Has(added, link, p) <==> Has(closes, link, p) || (link in links && p == pair)
  {
    added := closes;
    var todo := links;
    while todo != {}
      invariant todo <= links && NoneEmpty(added)
      invariant forall link, p :: Has(added, link, p) <==> Has(closes, link, p) || (link in links - todo && p == pair)
    {
      var link :| link in todo;
      added := WithPair(added, link, pair);
      todo := todo - {link};
    }
  }

  /** Adds what one entry's walk found. */
  method AddEntry<L(!new, ==), S(!new, ==), N(!new, ==)>(next: Successors<L, S>, reached: S -> Option<N>, entry: (N, S),
                                                         targets: set<N>, maxDepth: nat, closes: map<L, set<(N, N)>>)
    returns (added: map<L, set<(N, N)>>)
    requires NoneEmpty(closes)
    ensures NoneEmpty(added)
    ensures forall link, p :: Has(added, link, p) <==>
              Has(closes, link, p) || (p.0 == entry.0 && Severs(next, reached, entry, targets, maxDepth, link, p.1))
  {
    var perNode := PerNode(next, reached, entry.1, maxDepth);
    var found := perNode.Keys * targets;
    added := closes;
    var todo := found;
    while todo != {}
      invariant todo <= found && NoneEmpty(added)
      invariant forall link, p :: Has(added, link, p) <==>
                  Has(closes, link, p)
                  || (p.0 == entry.0 && p.1 in found - todo && p.1 != entry.0 && link in perNode[p.1])
    {
      var target :| target in todo;
      if target != entry.0 {
        added := AddPairs(added, perNode[target], (entry.0, target));
      }
      todo := todo - {target};
    }
  }

  /** `severed_pairs`: for each link, the routes from an entry to a target that close without it. */
  method SeveredPairs<L(!new, ==), S(!new, ==), N(!new, ==)>(next: Successors<L, S>, reached: S -> Option<N>,
                                                             entries: seq<(N, S)>, targets: set<N>, maxDepth: nat)
    returns (closes: map<L, set<(N, N)>>)
    ensures NoneEmpty(closes)
    ensures forall link, p :: Has(closes, link, p) <==> SomeSevers(next, reached, entries, targets, maxDepth, link, p)
  {
    closes := map[];
    for i := 0 to |entries|
      invariant NoneEmpty(closes)
      invariant forall link, p :: Has(closes, link, p) <==>
                  SomeSevers(next, reached, entries[..i], targets, maxDepth, link, p)
    {
      var added := AddEntry(next, reached, entries[i], targets, maxDepth, closes);
      forall link, p
        ensures SomeSevers(next, reached, entries[..i + 1], targets, maxDepth, link, p) <==> Has(added, link, p)
      {
        SeversOneMore(next, reached, entries, targets, maxDepth, link, p, i);
      }
      closes := added;
    }
    assert entries[..|entries|] == entries;
  }

  lemma SeversOneMore<L(!new), S(!new), N(!new)>(next: Successors<L, S>, reached: S -> Option<N>, entries: seq<(N, S)>,
                                                 targets: set<N>, bound: nat, link: L, p: (N, N), i: nat)
    requires i < |entries|
    ensures SomeSevers(next, reached, entries[..i + 1], targets, bound, link, p) <==>
            SomeSevers(next, reached, entries[..i], targets, bound, link, p)
            || (entries[i].0 == p.0 && Severs(next, reached, entries[i], targets, bound, link, p.1))
  {
    assert entries[..i + 1] == entries[..i] + [entries[i]];
  }

  // ---------------------------------------------------------------- what removing a link does

  function Kept<L(==, !new), S(!new)>(moves: seq<Move<L, S>>, link: L): (r: seq<Move<L, S>>)
    ensures forall m :: m in r <==> m in moves && m.link != Some(link)
  {
    if moves == [] then []
    else
      var last := moves[|moves| - 1];
      Kept(moves[..|moves| - 1], link) + if last.link != Some(link) then [last] else []
  }

  /** The walk once the link is gone. */
  function Without<L(==, !new), S(!new)>(next: Successors<L, S>, link: L): Successors<L, S> {
    s => Kept(next(s), link)
  }

  lemma {:induction false} WalkWithout<L(!new), S(!new)>(next: Successors<L, S>, link: L, entry: S,
                                                         walk: seq<Move<L, S>>)
    ensures IsWalk(Without(next, link), entry, walk) <==> IsWalk(next, entry, walk) && !Uses(walk, link)
  {
    if walk != [] {
      WalkWithout(next, link, entry, walk[..|walk| - 1]);
    }
  }

  /** A link is necessary to a state exactly when removing it puts the state out of reach. */
  lemma NeededMeansCutOff<L(!new), S(!new)>(next: Successors<L, S>, entry: S, bound: nat, at: S, link: L)
    ensures Needs(next, entry, 0, bound, at, link) <==> !Reaches(Without(next, link), entry, 0, bound, at)
  {
    forall walk: seq<Move<L, S>>
      ensures Leads(Without(next, link), entry, 0, bound, walk, at) <==>
              Leads(next, entry, 0, bound, walk, at) && !Uses(walk, link)
    {
      WalkWithout(next, link, entry, walk);
    }
  }

  /** A pair is reported under a link exactly when its target is another node, reached from the entry within the bound,
      and is not once the link is removed. */
  lemma SeveredExactlyWhenCutOff<L(!new), S(!new), N(!new)>(next: Successors<L, S>, reached: S -> Option<N>,
                                                            entry: (N, S), targets: set<N>, bound: nat, link: L,
                                                            target: N)
    ensures Severs(next, reached, entry, targets, bound, link, target) <==>
            target in targets && target != entry.0 && NodeReached(next, reached, entry.1, bound, target)
            && !NodeReached(Without(next, link), reached, entry.1, bound, target)
  {
    forall s
      ensures Needs(next, entry.1, 0, bound, s, link) <==> !Reaches(Without(next, link), entry.1, 0, bound, s)
    {
      NeededMeansCutOff(next, entry.1, bound, s, link);
    }
  }
}
