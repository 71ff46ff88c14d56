/** Walking a relation breadth first: what the list of ids found so far amounts to. */
module Exploring {
  import opened Lists

  type Relation<!K(!new)> = (K, K) -> bool

  ghost predicate Trail<K(!new)>(step: Relation<K>, path: seq<K>) {
    path != [] && forall i, k :: 0 <= i && k == i + 1 && k < |path| ==> step(path[i], path[k])
  }

  ghost predicate Leads<K(!new)>(step: Relation<K>, a: K, b: K) {
    exists path :: Trail(step, path) && path[0] == a && path[|path| - 1] == b
  }

  /** Everything found is led to from the start, and the first `done` found have nothing left to find. */
  ghost predicate Explored<K(!new)>(step: Relation<K>, start: K, found: seq<K>, done: nat) {
    && done <= |found| && found != [] && found[0] == start && NoRepeats(found)
    && (forall i :: 0 <= i < |found| ==> Leads(step, start, found[i]))
    && (forall i :: 0 <= i < done ==> Exhausted(step, found, found[i]))
  }

  ghost predicate Exhausted<K(!new)>(step: Relation<K>, found: seq<K>, a: K) {
    forall b :: step(a, b) ==> b in found
  }

  lemma Begin<K(!new)>(step: Relation<K>, start: K)
    ensures Explored(step, start, [start], 0)
  {
    assert Trail(step, [start]);
  }

  lemma LeadsNext<K(!new)>(step: Relation<K>, a: K, b: K, c: K)
    requires Leads(step, a, b) && step(b, c)
    ensures Leads(step, a, c)
  {
    var path :| Trail(step, path) && path[0] == a && path[|path| - 1] == b;
    assert Trail(step, path + [c]);
  }

  lemma FindOneMore<K(!new)>(step: Relation<K>, start: K, found: seq<K>, done: nat, b: K)
    requires Explored(step, start, found, done) && done < |found| && step(found[done], b) && b !in found
    ensures Explored(step, start, found + [b], done)
  {
    LeadsNext(step, start, found[done], b);
    forall i | 0 <= i < done
      ensures Exhausted(step, found + [b], (found + [b])[i])
    {
      assert Exhausted(step, found, found[i]);
    }
  }

  lemma OneMoreDone<K(!new)>(step: Relation<K>, start: K, found: seq<K>, done: nat)
    requires Explored(step, start, found, done) && done < |found| && Exhausted(step, found, found[done])
    ensures Explored(step, start, found, done + 1)
  {
  }

  lemma {:induction false} TrailIsFound<K(!new)>(step: Relation<K>, start: K, found: seq<K>, path: seq<K>)
    requires Explored(step, start, found, |found|) && Trail(step, path) && path[0] == start
    ensures path[|path| - 1] in found
  {
    if |path| > 1 {
      var rest := path[..|path| - 1];
      TrailIsFound(step, start, found, rest);
      var i :| 0 <= i < |found| && found[i] == rest[|rest| - 1];
      assert Exhausted(step, found, found[i]) && step(path[|path| - 2], path[|path| - 1]);
    }
  }

  /** Once nothing is left to find, what was found is exactly what the start leads to. */
  lemma AllFound<K(!new)>(step: Relation<K>, start: K, found: seq<K>)
    requires Explored(step, start, found, |found|)
    ensures forall b :: b in found <==> Leads(step, start, b)
  {
    forall b | Leads(step, start, b)
      ensures b in found
    {
      var path :| Trail(step, path) && path[0] == start && path[|path| - 1] == b;
      TrailIsFound(step, start, found, path);
    }
  }

  /** The state of the loop: what was found, what is queued of it, and the same as a set. */
  ghost predicate Walking<K(!new)>(step: Relation<K>, start: K, found: seq<K>, queue: seq<K>, seen: set<K>, done: nat) {
    Explored(step, start, found, done) && queue == found[done..] && seen == set a | a in found
  }

  lemma WalkBegins<K(!new)>(step: Relation<K>, start: K)
    ensures Walking(step, start, [start], [start], {start}, 0)
  {
    Begin(step, start);
  }

  /** The same while the head of the queue is looked at: what was known before it, and how much was queued. */
  ghost predicate Following<K(!new)>(step: Relation<K>, start: K, found: seq<K>, queue: seq<K>, seen: set<K>, done: nat,
                                     head: K, known: set<K>, waiting: nat) {
    && Walking(step, start, found, queue, seen, done)
    && queue != [] && queue[0] == head && known <= seen && (seen == known ==> |queue| == waiting)
  }

  lemma FollowFinds<K(!new)>(step: Relation<K>, start: K, found: seq<K>, queue: seq<K>, seen: set<K>, done: nat,
                             head: K, known: set<K>, waiting: nat, b: K)
    requires Following(step, start, found, queue, seen, done, head, known, waiting) && step(head, b) && b !in seen
    ensures Following(step, start, found + [b], queue + [b], seen + {b}, done, head, known, waiting)
  {
    FindOneMore(step, start, found, done, b);
    assert b in seen + {b} && b !in known;
  }

  lemma FollowMovesOn<K(!new)>(step: Relation<K>, start: K, found: seq<K>, queue: seq<K>, seen: set<K>, done: nat,
                               head: K, known: set<K>, waiting: nat, all: set<K>)
    requires Following(step, start, found, queue, seen, done, head, known, waiting) && seen <= all
    requires forall b :: step(head, b) ==> b in seen
    ensures Walking(step, start, found, queue[1..], seen, done + 1)
    ensures |all - seen| < |all - known| || (seen == known && |queue[1..]| < waiting)
  {
    OneMoreDone(step, start, found, done);
    if seen != known { FewerLeft(all, known, seen); }
  }

  lemma WalkEnds<K(!new)>(step: Relation<K>, start: K, found: seq<K>, seen: set<K>, done: nat)
    requires Walking(step, start, found, [], seen, done)
    ensures forall b :: b in found <==> Leads(step, start, b)
    ensures NoRepeats(found)
  {
    AllFound(step, start, found);
  }

  lemma FewerLeft<K(!new)>(all: set<K>, seen: set<K>, now: set<K>)
    requires seen < now <= all
    ensures |all - now| < |all - seen|
  {
    var b :| b in now && b !in seen;
    assert all - now < all - seen;
    Smaller(all - now, all - seen);
  }

  lemma Smaller<K(!new)>(a: set<K>, b: set<K>)
    requires a < b
    ensures |a| < |b|
  {
    var rest := b - a;
    assert b == a + rest && rest != {};
  }

  // ---------------------------------------------------------------- the same walk backwards

  ghost predicate Transposes<K(!new)>(step: Relation<K>, back: Relation<K>) {
    forall a, b :: step(a, b) <==> back(b, a)
  }

  function Backwards<K>(path: seq<K>): seq<K> {
    seq(|path|, i requires 0 <= i < |path| => path[|path| - 1 - i])
  }

  lemma TrailBack<K(!new)>(step: Relation<K>, back: Relation<K>, path: seq<K>)
    requires Transposes(step, back) && Trail(step, path)
    ensures Trail(back, Backwards(path))
  {
    forall i, k | 0 <= i && k == i + 1 && k < |path|
      ensures back(Backwards(path)[i], Backwards(path)[k])
    {
      var j, m := |path| - 1 - k, |path| - 1 - i;
      assert step(path[j], path[m]);
    }
  }

  /** One end leads to the other exactly when, over the transposed relation, the other leads back. */
  lemma LeadsBack<K(!new)>(step: Relation<K>, back: Relation<K>, a: K, b: K)
    requires Transposes(step, back)
    ensures Leads(step, a, b) <==> Leads(back, b, a)
  {
    if Leads(step, a, b) { LeadsOneWay(step, back, a, b); }
    if Leads(back, b, a) { LeadsOneWay(back, step, b, a); }
  }

  lemma LeadsOneWay<K(!new)>(step: Relation<K>, back: Relation<K>, a: K, b: K)
    requires Transposes(step, back) && Leads(step, a, b)
    ensures Leads(back, b, a)
  {
    var path :| Trail(step, path) && path[0] == a && path[|path| - 1] == b;
    TrailBack(step, back, path);
    assert Backwards(path)[0] == b && Backwards(path)[|path| - 1] == a;
  }
}
