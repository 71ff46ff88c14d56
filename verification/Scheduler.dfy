/** `CollectionRun.waves`: the selected tasks in layers, each able to run at once. */
module Scheduler {
  import opened Wrappers
  import opened Lists
  import opened Tasks
  import opened Layering

  // ---------------------------------------------------------------- the loop

  function Ready(remaining: seq<Task>, satisfied: set<Key>): (r: seq<Task>)
    ensures forall t :: t in r <==> t in remaining && (forall d :: d in t.dependsOn ==> d in satisfied)
    ensures NoRepeats(remaining) ==> NoRepeats(r)
    ensures forall i :: 0 <= i < |r| ==> r[i] in remaining
  {
    if remaining == [] then []
    else if forall d :: d in remaining[0].dependsOn ==> d in satisfied
    then [remaining[0]] + Ready(remaining[1..], satisfied)
    else Ready(remaining[1..], satisfied)
  }

  function Without(remaining: seq<Task>, scope: string): (r: seq<Task>)
    ensures forall t :: t in r <==> t in remaining && ScopeOf(t) != scope
  {
    if remaining == [] then []
    else if ScopeOf(remaining[0]) == scope then Without(remaining[1..], scope)
    else [remaining[0]] + Without(remaining[1..], scope)
  }

  lemma {:induction false} WithoutNone(remaining: seq<Task>, scope: string)
    requires forall i :: 0 <= i < |remaining| ==> ScopeOf(remaining[i]) != scope
    ensures Without(remaining, scope) == remaining
  {
    if remaining != [] {
      WithoutNone(remaining[1..], scope);
      assert remaining == [remaining[0]] + remaining[1..];
    }
  }

  /** Where no two tasks share a scope, one task is what is taken off. */
  lemma {:induction false} WithoutOne(remaining: seq<Task>, task: Task)
    requires DistinctScopes(remaining) && task in remaining
    ensures DistinctScopes(Without(remaining, ScopeOf(task)))
    ensures |Without(remaining, ScopeOf(task))| == |remaining| - 1
    ensures forall t :: t in Without(remaining, ScopeOf(task)) <==> t in remaining && t != task
  {
    var first, rest := remaining[0], remaining[1..];
    RestDiffers(remaining);
    if first == task {
      WithoutNone(rest, ScopeOf(task));
      assert forall t :: t in rest ==> ScopeOf(t) != ScopeOf(task);
    } else {
      assert task in rest;
      WithoutOne(rest, task);
      FirstDiffers(first, Without(rest, ScopeOf(task)));
    }
  }

  lemma RestDiffers(tasks: seq<Task>)
    requires tasks != [] && DistinctScopes(tasks)
    ensures DistinctScopes(tasks[1..])
    ensures forall i :: 0 <= i < |tasks[1..]| ==> ScopeOf(tasks[1..][i]) != ScopeOf(tasks[0])
  {
  }

  lemma FirstDiffers(first: Task, rest: seq<Task>)
    requires DistinctScopes(rest) && forall t :: t in rest ==> ScopeOf(t) != ScopeOf(first)
    ensures DistinctScopes([first] + rest)
  {
  }

  /** What `satisfied` and `pending` say about the tasks still to schedule. */
  ghost predicate Bookkeeping(remaining: seq<Task>, satisfied: set<Key>, pending: map<Key, int>, carried: set<Key>) {
    && carried <= satisfied
    && (forall t :: t in remaining && t.key in satisfied ==> t.key in carried)
    && (forall k :: k in pending ==> pending[k] == |Readings(remaining, k)|)
    && (forall k :: k in pending && pending[k] == 0 ==> k in satisfied)
  }

  ghost predicate HeldBack(t: Task, satisfied: set<Key>) {
    exists d :: d in t.dependsOn && d !in satisfied
  }

  ghost predicate ReadIn(wave: seq<Task>, key: Key) {
    exists u :: u in wave && u.key == key
  }

  /** A task still waiting waits for a key not satisfied yet, or for the wave just scheduled. */
  ghost predicate Waiting(ws: seq<seq<Task>>, remaining: seq<Task>, satisfied: set<Key>, carried: set<Key>) {
    ws != [] ==> forall t :: t in remaining ==> HeldBack(t, satisfied) || NeedsOneOf(t, ws[|ws| - 1], carried)
  }

  /** What holds each time the loop looks for ready tasks. */
  ghost predicate Progress(ws: seq<seq<Task>>, remaining: seq<Task>, tasks: seq<Task>, carried: set<Key>) {
    && DistinctScopes(remaining) && Among(remaining, tasks)
    && |remaining| + Total(ws) == |tasks|
    && (forall t :: t in tasks <==> t in remaining || Placed(ws, t))
    && (forall t :: t in remaining ==> !Placed(ws, t))
    && Ordered(ws, tasks, carried) && Tight(ws, carried)
  }

  method Waves(tasks: seq<Task>, carried: set<Key>) returns (r: Result<seq<seq<Task>>, seq<Task>>)
    requires Validated(tasks, carried)
    ensures r.Ok? ==> IsSchedule(r.value, tasks, carried) && Tight(r.value, carried)
    ensures r.Err? <==> exists ks :: Cycle(ks, tasks, carried)
  {
    var remaining := tasks;
    var satisfied := carried;
    var pending := map k | k in Produces(tasks) :: |Readings(tasks, k)|;
    var waves: seq<seq<Task>> := [];
    InitialBookkeeping(tasks, carried);
    while remaining != []
      invariant Progress(waves, remaining, tasks, carried)
      invariant Waiting(waves, remaining, satisfied, carried)
      invariant pending.Keys == Produces(tasks) && Bookkeeping(remaining, satisfied, pending, carried)
      decreases |remaining|
    {
      var ready := Ready(remaining, satisfied);
      if ready == [] {
        StuckMeansCycle(tasks, carried, remaining, satisfied, pending);
        return Err(remaining);
      }
      var left, settled, counts := Schedule(remaining, satisfied, pending, carried, ready);
      Advance(waves, ready, remaining, left, satisfied, tasks, carried);
      StillWaiting(waves, ready, remaining, left, satisfied, settled, carried);
      waves := waves + [ready];
      remaining, satisfied, pending := left, settled, counts;
    }
    assert IsSchedule(waves, tasks, carried);
    ScheduleExcludesCycles(waves, tasks, carried);
    return Ok(waves);
  }

  lemma InitialBookkeeping(tasks: seq<Task>, carried: set<Key>)
    ensures
      var pending := map k | k in Produces(tasks) :: |Readings(tasks, k)|;
      Bookkeeping(tasks, carried, pending, carried)
  {
    forall t | t in tasks
      ensures |Readings(tasks, t.key)| != 0
    {
      assert t in Readings(tasks, t.key);
    }
  }

  lemma Advance(ws: seq<seq<Task>>, ready: seq<Task>, remaining: seq<Task>, left: seq<Task>, satisfied: set<Key>,
                tasks: seq<Task>, carried: set<Key>)
    requires Progress(ws, remaining, tasks, carried) && Waiting(ws, remaining, satisfied, carried)
    requires forall t :: t in remaining && t.key in satisfied ==> t.key in carried
    requires ready == Ready(remaining, satisfied) && ready != []
    requires DistinctScopes(left) && |left| == |remaining| - |ready|
    requires forall t :: t in left <==> t in remaining && t !in ready
    ensures Progress(ws + [ready], left, tasks, carried)
  {
    ReadyAreFree(ws, remaining, satisfied, tasks, carried);
    ExtendOrdered(ws, ready, tasks, carried);
    ExtendTight(ws, remaining, satisfied, carried);
    AdvancePlaces(ws, ready, remaining, left, tasks);
  }

  /** A task held back now is held back still, or by a key this wave has just settled. */
  lemma StillWaiting(ws: seq<seq<Task>>, ready: seq<Task>, remaining: seq<Task>, left: seq<Task>, satisfied: set<Key>,
                     settled: set<Key>, carried: set<Key>)
    requires ready == Ready(remaining, satisfied) && carried <= satisfied
    requires forall t :: t in left <==> t in remaining && t !in ready
    requires forall d :: d in settled && d !in satisfied ==> ReadIn(ready, d)
    ensures Waiting(ws + [ready], left, settled, carried)
  {
    forall t | t in left
      ensures HeldBack(t, settled) || NeedsOneOf(t, ready, carried)
    {
      var d :| d in t.dependsOn && d !in satisfied;
      if d in settled {
        var u :| u in ready && u.key == d;
        assert Needs(t, u, carried);
      }
    }
  }

  lemma AdvancePlaces(ws: seq<seq<Task>>, ready: seq<Task>, remaining: seq<Task>, left: seq<Task>, tasks: seq<Task>)
    requires Among(remaining, tasks) && Among(ready, remaining)
    requires |remaining| + Total(ws) == |tasks| && |left| == |remaining| - |ready|
    requires forall t :: t in tasks <==> t in remaining || Placed(ws, t)
    requires forall t :: t in remaining ==> !Placed(ws, t)
    requires forall t :: t in left <==> t in remaining && t !in ready
    ensures Among(left, tasks) && |left| + Total(ws + [ready]) == |tasks|
    ensures forall t :: t in tasks <==> t in left || Placed(ws + [ready], t)
    ensures forall t :: t in left ==> !Placed(ws + [ready], t)
  {
    PlacedGrows(ws, ready);
    forall i | 0 <= i < |left|
      ensures left[i] in tasks
    {
      assert left[i] in remaining;
    }
    forall t | t in ready
      ensures t in remaining
    {
    }
  }

  /** The inner loop: every ready task leaves `remaining`, and its key counts down. */
  method Schedule(remaining: seq<Task>, satisfied: set<Key>, pending: map<Key, int>, ghost carried: set<Key>,
                  ready: seq<Task>) returns (left: seq<Task>, settled: set<Key>, counts: map<Key, int>)
    requires DistinctScopes(remaining) && Bookkeeping(remaining, satisfied, pending, carried)
    requires NoRepeats(ready) && Among(ready, remaining)
    requires forall t :: t in ready ==> t.key in pending
    ensures DistinctScopes(left) && Bookkeeping(left, settled, counts, carried)
    ensures |left| == |remaining| - |ready| && counts.Keys == pending.Keys
    ensures forall t :: t in left <==> t in remaining && t !in ready
    ensures satisfied <= settled
    ensures forall d :: d in settled && d !in satisfied ==> ReadIn(ready, d)
  {
    left, settled, counts := remaining, satisfied, pending;
    for j := 0 to |ready|
      invariant DistinctScopes(left) && Bookkeeping(left, settled, counts, carried)
      invariant |left| == |remaining| - j && counts.Keys == pending.Keys
      invariant forall t :: t in left ==> t in remaining
      invariant forall i :: 0 <= i < |ready| ==> (ready[i] in left <==> j <= i)
      invariant forall t :: t in remaining && t !in ready ==> t in left
      invariant satisfied <= settled
      invariant forall d :: d in settled && d !in satisfied ==> ReadIn(ready, d)
    {
      var task := ready[j];
      PlaceOne(left, settled, counts, carried, task);
      assert forall i :: 0 <= i < |ready| && i != j ==> ready[i] != task;
      left := Without(left, ScopeOf(task));
      counts := counts[task.key := counts[task.key] - 1];
      if counts[task.key] == 0 {
        settled := settled + {task.key};
      }
    }
  }

  /** Scheduling one task takes it off the list, off its key's count, and settles the key at zero. */
  lemma PlaceOne(remaining: seq<Task>, satisfied: set<Key>, pending: map<Key, int>, carried: set<Key>, task: Task)
    requires DistinctScopes(remaining) && task in remaining && task.key in pending
    requires Bookkeeping(remaining, satisfied, pending, carried)
    ensures DistinctScopes(Without(remaining, ScopeOf(task)))
    ensures |Without(remaining, ScopeOf(task))| == |remaining| - 1
    ensures forall t :: t in Without(remaining, ScopeOf(task)) <==> t in remaining && t != task
    ensures
      var left := pending[task.key := pending[task.key] - 1];
      var now := if left[task.key] == 0 then satisfied + {task.key} else satisfied;
      Bookkeeping(Without(remaining, ScopeOf(task)), now, left, carried)
  {
    var rest := Without(remaining, ScopeOf(task));
    WithoutOne(remaining, task);
    ReadingsWithout(remaining, task);
    forall t | t in rest && t.key == task.key
      ensures |Readings(rest, task.key)| != 0
    {
      assert t in Readings(rest, task.key);
    }
  }

  lemma ReadingsWithout(remaining: seq<Task>, task: Task)
    requires DistinctScopes(remaining) && task in remaining
    ensures forall k :: |Readings(Without(remaining, ScopeOf(task)), k)| ==
                        |Readings(remaining, k)| - if k == task.key then 1 else 0
  {
    var rest := Without(remaining, ScopeOf(task));
    WithoutOne(remaining, task);
    forall k
      ensures |Readings(rest, k)| == |Readings(remaining, k)| - if k == task.key then 1 else 0
    {
      if k == task.key {
        assert task in Readings(remaining, k);
        assert Readings(rest, k) == Readings(remaining, k) - {task};
      } else {
        assert Readings(rest, k) == Readings(remaining, k);
      }
    }
  }

  lemma ReadyAreFree(ws: seq<seq<Task>>, remaining: seq<Task>, satisfied: set<Key>, tasks: seq<Task>, carried: set<Key>)
    requires forall t :: t in remaining && t.key in satisfied ==> t.key in carried
    requires forall t :: t in tasks ==> t in remaining || Placed(ws, t)
    ensures forall t, u :: t in Ready(remaining, satisfied) && u in tasks && Needs(t, u, carried) ==> Placed(ws, u)
  {
    forall t, u | t in Ready(remaining, satisfied) && u in tasks && Needs(t, u, carried)
      ensures Placed(ws, u)
    {
      assert u.key in satisfied;
    }
  }

  /** Adding the ready tasks as the next wave keeps the waves ordered. */
  lemma ExtendOrdered(ws: seq<seq<Task>>, ready: seq<Task>, tasks: seq<Task>, carried: set<Key>)
    requires ready != [] && NoRepeats(ready)
    requires forall t :: t in ready ==> !Placed(ws, t)
    requires forall t, u :: t in ready && u in tasks && Needs(t, u, carried) ==> Placed(ws, u)
    requires Ordered(ws, tasks, carried)
    ensures Ordered(ws + [ready], tasks, carried)
  {
    var more := ws + [ready];
    assert more[..|ws|] == ws;
    assert forall i :: 0 <= i < |ws| ==> more[i] == ws[i] && more[..i] == ws[..i];
    forall i, j, t | 0 <= i < j < |more| && t in more[i]
      ensures t !in more[j]
    {
      if j == |ws| { assert Placed(ws, t); }
    }
  }

  /** And tight: a task that was waiting and is ready now was waiting for the last wave. */
  lemma ExtendTight(ws: seq<seq<Task>>, remaining: seq<Task>, satisfied: set<Key>, carried: set<Key>)
    requires Tight(ws, carried) && Waiting(ws, remaining, satisfied, carried)
    ensures Tight(ws + [Ready(remaining, satisfied)], carried)
  {
    var more := ws + [Ready(remaining, satisfied)];
    forall i, j, t | 0 <= j < |more| && i == j + 1 && i < |more| && t in more[i]
      ensures NeedsOneOf(t, more[j], carried)
    {
      if i == |ws| {
        assert !HeldBack(t, satisfied);
      } else {
        assert t in ws[i] && more[j] == ws[j];
      }
    }
  }

  // ---------------------------------------------------------------- stuck exactly on a cycle

  ghost predicate Among(remaining: seq<Task>, tasks: seq<Task>) {
    forall i :: 0 <= i < |remaining| ==> remaining[i] in tasks
  }

  /** With no task ready, every remaining key depends on a remaining key, so some walk closes. */
  lemma StuckMeansCycle(tasks: seq<Task>, carried: set<Key>, remaining: seq<Task>, satisfied: set<Key>,
                        pending: map<Key, int>)
    requires Validated(tasks, carried)
    requires Among(remaining, tasks)
    requires pending.Keys == Produces(tasks) && Bookkeeping(remaining, satisfied, pending, carried)
    requires remaining != [] && Ready(remaining, satisfied) == []
    ensures exists ks :: Cycle(ks, tasks, carried)
  {
    var keys := Produces(remaining);
    var walk := StuckWalk(tasks, carried, remaining, satisfied, pending, keys, remaining[0], |keys|);
    var i, j := Pigeonhole(walk, keys);
    ClosedPart(walk, i, j, tasks, carried);
    assert walk[i] in Produces(tasks) by {
      var t :| t in remaining && t.key == walk[i];
      assert t in tasks;
    }
  }

  lemma ClosedPart(walk: seq<Key>, i: nat, j: nat, tasks: seq<Task>, carried: set<Key>)
    requires Walk(walk, tasks, carried)
    requires i < j < |walk| && walk[i] == walk[j]
    ensures walk[i] in Produces(tasks) ==> Cycle(walk[i..j + 1], tasks, carried)
  {
    var ks := walk[i..j + 1];
    forall m, n | 0 <= m < n < |ks| && n == m + 1
      ensures Edge(tasks, carried, ks[m], ks[n])
    {
      assert Edge(tasks, carried, walk[i + m], walk[i + n]);
    }
  }

  /** A stuck run can be followed from dependency to dependency for ever. */
  lemma {:induction false} StuckWalk(tasks: seq<Task>, carried: set<Key>, remaining: seq<Task>, satisfied: set<Key>,
                                     pending: map<Key, int>, keys: set<Key>, t: Task, n: nat) returns (walk: seq<Key>)
    requires DependenciesProduced(tasks, carried)
    requires Among(remaining, tasks)
    requires pending.Keys == Produces(tasks) && Bookkeeping(remaining, satisfied, pending, carried)
    requires Ready(remaining, satisfied) == [] && t in remaining
    requires forall t :: t in remaining ==> t.key in keys
    ensures |walk| == n + 1 && walk[0] == t.key
    ensures forall i :: 0 <= i < |walk| ==> walk[i] in keys
    ensures Walk(walk, tasks, carried)
    decreases n
  {
    if n == 0 {
      walk := [t.key];
    } else {
      var u := StuckOn(tasks, carried, remaining, satisfied, pending, t);
      var rest := StuckWalk(tasks, carried, remaining, satisfied, pending, keys, u, n - 1);
      walk := [t.key] + rest;
      ConsWalk(t.key, rest, tasks, carried);
    }
  }

  lemma ConsWalk(k: Key, walk: seq<Key>, tasks: seq<Task>, carried: set<Key>)
    requires walk != [] && Edge(tasks, carried, k, walk[0]) && Walk(walk, tasks, carried)
    ensures Walk([k] + walk, tasks, carried)
  {
  }

  lemma StuckOn(tasks: seq<Task>, carried: set<Key>, remaining: seq<Task>, satisfied: set<Key>, pending: map<Key, int>,
                t: Task) returns (u: Task)
    requires DependenciesProduced(tasks, carried)
    requires Among(remaining, tasks)
    requires pending.Keys == Produces(tasks) && Bookkeeping(remaining, satisfied, pending, carried)
    requires Ready(remaining, satisfied) == [] && t in remaining
    ensures u in remaining && Edge(tasks, carried, t.key, u.key)
  {
    assert t !in Ready(remaining, satisfied);
    var d :| d in t.dependsOn && d !in satisfied;
    assert d in pending;
    u :| u in Readings(remaining, d);
  }

  /** More steps than keys: two of them stand on the same key. */
  lemma Pigeonhole(walk: seq<Key>, keys: set<Key>) returns (i: nat, j: nat)
    requires |walk| > |keys|
    requires forall m :: 0 <= m < |walk| ==> walk[m] in keys
    ensures i < j < |walk| && walk[i] == walk[j]
  {
    if NoRepeats(walk) {
      DistinctFit(walk, keys);
      assert false;
    }
    i, j :| 0 <= i < j < |walk| && walk[i] == walk[j];
  }

  lemma {:induction false} DistinctFit(s: seq<Key>, keys: set<Key>)
    requires NoRepeats(s)
    requires forall m :: 0 <= m < |s| ==> s[m] in keys
    ensures |s| <= |keys|
  {
    if s != [] {
      DistinctFit(s[1..], keys - {s[0]});
    }
  }
}
