/** What a tight schedule is worth: it exists exactly without cycles, and no other order beats it. */
module Layering {
  import opened Lists
  import opened Tasks

  // ---------------------------------------------------------------- what a schedule is

  ghost predicate Placed(ws: seq<seq<Task>>, t: Task) {
    exists i :: 0 <= i < |ws| && t in ws[i]
  }

  function Total(ws: seq<seq<Task>>): nat {
    if ws == [] then 0 else Total(ws[..|ws| - 1]) + |ws[|ws| - 1]|
  }

  lemma PlacedGrows(ws: seq<seq<Task>>, wave: seq<Task>)
    ensures forall t :: Placed(ws + [wave], t) <==> Placed(ws, t) || t in wave
    ensures Total(ws + [wave]) == Total(ws) + |wave|
  {
    var more := ws + [wave];
    assert more[..|more| - 1] == ws;
    forall t
      ensures Placed(more, t) <==> Placed(ws, t) || t in wave
    {
      if t in wave { assert t in more[|ws|]; }
      if Placed(ws, t) { var i :| 0 <= i < |ws| && t in ws[i]; assert t in more[i]; }
    }
  }

  /** Every task is in exactly one wave, once, and every reading it needs is in an earlier one. */
  ghost predicate IsSchedule(ws: seq<seq<Task>>, tasks: seq<Task>, carried: set<Key>) {
    && Total(ws) == |tasks|
    && (forall t :: t in tasks <==> Placed(ws, t))
    && Ordered(ws, tasks, carried)
  }

  ghost predicate Ordered(ws: seq<seq<Task>>, tasks: seq<Task>, carried: set<Key>) {
    && (forall i :: 0 <= i < |ws| ==> ws[i] != [] && NoRepeats(ws[i]))
    && (forall i, j, t :: 0 <= i < j < |ws| && t in ws[i] ==> t !in ws[j])
    && (forall i, t, u {:trigger Needs(t, u, carried), t in ws[i]} ::
          0 <= i < |ws| && t in ws[i] && u in tasks && Needs(t, u, carried) ==> Placed(ws[..i], u))
  }

  /** No task waits longer than it must: past the first wave it needs a reading of the wave before. */
  ghost predicate Tight(ws: seq<seq<Task>>, carried: set<Key>) {
    forall i, j, t {:trigger NeedsOneOf(t, ws[j], carried), t in ws[i]} ::
      0 <= j < |ws| && i == j + 1 && i < |ws| && t in ws[i] ==> NeedsOneOf(t, ws[j], carried)
  }

  ghost predicate NeedsOneOf(t: Task, wave: seq<Task>, carried: set<Key>) {
    exists u :: u in wave && Needs(t, u, carried)
  }

  /** Key `a` is read by a task that depends on key `b`, and `b` is not carried. */
  ghost predicate Edge(tasks: seq<Task>, carried: set<Key>, a: Key, b: Key) {
    b !in carried && exists t :: t in tasks && t.key == a && b in t.dependsOn
  }

  ghost predicate Walk(ks: seq<Key>, tasks: seq<Task>, carried: set<Key>) {
    forall i, j :: 0 <= i < j < |ks| && j == i + 1 ==> Edge(tasks, carried, ks[i], ks[j])
  }

  /** A closed walk of at least one dependency over the keys of the selected tasks. */
  ghost predicate Cycle(ks: seq<Key>, tasks: seq<Task>, carried: set<Key>) {
    && 2 <= |ks|
    && ks[0] == ks[|ks| - 1]
    && ks[0] in Produces(tasks)
    && Walk(ks, tasks, carried)
  }

  // ---------------------------------------------------------------- no schedule over a cycle

  /** The last wave that reads a key, or -1. */
  function LastWave(ws: seq<seq<Task>>, key: Key): (n: int)
    ensures -1 <= n < |ws|
    ensures n >= 0 ==> exists t :: t in ws[n] && t.key == key
    ensures forall j, t :: n < j < |ws| && t in ws[j] ==> t.key != key
  {
    if ws == [] then -1
    else if exists t :: t in ws[|ws| - 1] && t.key == key then |ws| - 1
    else LastWave(ws[..|ws| - 1], key)
  }

  lemma EdgeDescends(ws: seq<seq<Task>>, tasks: seq<Task>, carried: set<Key>, a: Key, b: Key)
    requires DependenciesProduced(tasks, carried) && IsSchedule(ws, tasks, carried)
    requires Edge(tasks, carried, a, b)
    ensures b in Produces(tasks) && LastWave(ws, b) < LastWave(ws, a)
  {
    var t :| t in tasks && t.key == a && b in t.dependsOn;
    var i :| 0 <= i < |ws| && t in ws[i];
    var n := LastWave(ws, b);
    if n >= 0 {
      var u :| u in ws[n] && u.key == b;
      assert Placed(ws, u) && Needs(t, u, carried);
      var j :| 0 <= j < i && u in ws[..i][j];
      assert u in ws[j] && j == n;
    }
  }

  lemma {:induction false} WalkDescends(ws: seq<seq<Task>>, tasks: seq<Task>, carried: set<Key>, ks: seq<Key>)
    requires DependenciesProduced(tasks, carried) && IsSchedule(ws, tasks, carried)
    requires 2 <= |ks| && Walk(ks, tasks, carried)
    ensures LastWave(ws, ks[|ks| - 1]) < LastWave(ws, ks[0])
  {
    EdgeDescends(ws, tasks, carried, ks[0], ks[1]);
    if |ks| > 2 {
      var rest := ks[1..];
      forall i, j | 0 <= i < j < |rest| && j == i + 1
        ensures Edge(tasks, carried, rest[i], rest[j])
      {
        assert Edge(tasks, carried, ks[i + 1], ks[j + 1]);
      }
      WalkDescends(ws, tasks, carried, rest);
    }
  }

  /** Selected tasks that can be scheduled have no dependency cycle among their keys. */
  lemma ScheduleExcludesCycles(ws: seq<seq<Task>>, tasks: seq<Task>, carried: set<Key>)
    requires DependenciesProduced(tasks, carried) && IsSchedule(ws, tasks, carried)
    ensures !exists ks :: Cycle(ks, tasks, carried)
  {
    if ks :| Cycle(ks, tasks, carried) {
      WalkDescends(ws, tasks, carried, ks);
    }
  }

  // ---------------------------------------------------------------- no task could run earlier

  /** Any way of numbering the tasks under which each comes after every reading it needs. */
  ghost predicate Respects(rank: Task -> nat, tasks: seq<Task>, carried: set<Key>) {
    forall t, u :: t in tasks && u in tasks && Needs(t, u, carried) ==> rank(u) < rank(t)
  }

  lemma {:induction false} WavesAreEarliest(ws: seq<seq<Task>>, tasks: seq<Task>, carried: set<Key>, rank: Task -> nat,
                                            i: nat, t: Task)
    requires IsSchedule(ws, tasks, carried) && Tight(ws, carried)
    requires Respects(rank, tasks, carried)
    requires i < |ws| && t in ws[i]
    ensures i <= rank(t)
  {
    if i > 0 {
      assert NeedsOneOf(t, ws[i - 1], carried);
      var u :| u in ws[i - 1] && Needs(t, u, carried);
      WavesAreEarliest(ws, tasks, carried, rank, i - 1, u);
      assert Placed(ws, t) && Placed(ws, u);
    }
  }

  // ---------------------------------------------------------------- the longest dependency chain

  ghost predicate Chain(c: seq<Task>, tasks: seq<Task>, carried: set<Key>) {
    && (forall i :: 0 <= i < |c| ==> c[i] in tasks)
    && (forall i, j :: 0 <= i < j < |c| && j == i + 1 ==> Needs(c[j], c[i], carried))
  }

  lemma {:induction false} ChainsClimb(ws: seq<seq<Task>>, tasks: seq<Task>, carried: set<Key>, c: seq<Task>)
    requires IsSchedule(ws, tasks, carried)
    requires c != [] && Chain(c, tasks, carried)
    ensures exists i :: |c| - 1 <= i < |ws| && c[|c| - 1] in ws[i]
  {
    var t := c[|c| - 1];
    assert Placed(ws, t);
    var i :| 0 <= i < |ws| && t in ws[i];
    if |c| > 1 {
      var rest := c[..|c| - 1];
      ChainsClimb(ws, tasks, carried, rest);
      var u := rest[|rest| - 1];
      var j :| |rest| - 1 <= j < |ws| && u in ws[j];
      assert Needs(t, u, carried) && u in tasks;
      var k :| 0 <= k < i && u in ws[..i][k];
      assert u in ws[k] && k == j;
    }
  }

  lemma {:induction false} ChainTo(ws: seq<seq<Task>>, tasks: seq<Task>, carried: set<Key>, i: nat, t: Task)
    returns (c: seq<Task>)
    requires Tight(ws, carried)
    requires forall j, u :: 0 <= j < |ws| && u in ws[j] ==> u in tasks
    requires i < |ws| && t in ws[i]
    ensures |c| == i + 1 && c[i] == t && Chain(c, tasks, carried)
    decreases i
  {
    if i == 0 {
      c := [t];
    } else {
      assert NeedsOneOf(t, ws[i - 1], carried);
      var u :| u in ws[i - 1] && Needs(t, u, carried);
      var rest := ChainTo(ws, tasks, carried, i - 1, u);
      c := rest + [t];
    }
  }

  /** The number of waves is the length of the longest chain of dependencies. */
  lemma WaveCountIsLongestChain(ws: seq<seq<Task>>, tasks: seq<Task>, carried: set<Key>)
    requires IsSchedule(ws, tasks, carried) && Tight(ws, carried)
    ensures exists c :: Chain(c, tasks, carried) && |c| == |ws|
    ensures forall c :: Chain(c, tasks, carried) ==> |c| <= |ws|
  {
    forall c | Chain(c, tasks, carried)
      ensures |c| <= |ws|
    {
      if c != [] { ChainsClimb(ws, tasks, carried, c); }
    }
    if ws == [] {
      assert Chain([], tasks, carried);
    } else {
      var last := |ws| - 1;
      forall j, u | 0 <= j < |ws| && u in ws[j]
        ensures u in tasks
      {
        assert Placed(ws, u);
      }
      var c := ChainTo(ws, tasks, carried, last, ws[last][0]);
      assert |c| == |ws|;
    }
  }
}
