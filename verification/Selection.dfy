/** `CollectionRun.__init__`: closing a plan under dependencies, and refusing one that cannot run. */
module Selection {
  import opened Wrappers
  import opened Lists
  import opened Tasks
  import opened Planning

  datatype PlanError = DuplicateScopes(names: set<string>) | UnknownDependency(task: Key, dependency: Key)

  /** A run once it is constructed. */
  datatype Run = Run(tasks: seq<Task>, carried: seq<Carried>)

  // ---------------------------------------------------------------- _select

  /** `{t.key: t for t in tasks}`: of several tasks reading one key, the last stays. */
  function LastOf(tasks: seq<Task>, key: Key): (r: Option<Task>)
    ensures r.Some? <==> key in Produces(tasks)
    ensures r.Some? ==> r.value in tasks && r.value.key == key
  {
    if tasks == [] then None
    else if tasks[|tasks| - 1].key == key then Some(tasks[|tasks| - 1])
    else
      var rest := LastOf(tasks[..|tasks| - 1], key);
      assert tasks == tasks[..|tasks| - 1] + [tasks[|tasks| - 1]];
      rest
  }

  lemma {:induction false} LastOfEachKey(tasks: seq<Task>, i: nat)
    requires i < |tasks| && forall j :: i < j < |tasks| ==> tasks[j].key != tasks[i].key
    ensures LastOf(tasks, tasks[i].key) == Some(tasks[i])
  {
    if i < |tasks| - 1 {
      assert tasks[..|tasks| - 1][i] == tasks[i];
      LastOfEachKey(tasks[..|tasks| - 1], i);
    }
  }

  function DependenciesOf(tasks: seq<Task>, key: Key): seq<Key> {
    match LastOf(tasks, key)
    case None => []
    case Some(t) => t.dependsOn
  }

  /** The keys that need nothing outside themselves, going by the last task of each key. */
  ghost predicate ClosedByLast(keys: set<Key>, tasks: seq<Task>, carried: set<Key>) {
    forall k, d :: k in keys && d in DependenciesOf(tasks, k) ==> d in keys || d in carried
  }

  /** The same, going by every task of each key. */
  ghost predicate Closed(keys: set<Key>, tasks: seq<Task>, carried: set<Key>) {
    forall t, d :: t in tasks && t.key in keys && d in t.dependsOn ==> d in keys || d in carried
  }

  ghost predicate LeastByLast(keys: set<Key>, start: set<Key>, tasks: seq<Task>, carried: set<Key>) {
    forall other :: start <= other && ClosedByLast(other, tasks, carried) ==> keys <= other
  }

  ghost predicate Least(keys: set<Key>, start: set<Key>, tasks: seq<Task>, carried: set<Key>) {
    forall other :: start <= other && Closed(other, tasks, carried) ==> keys <= other
  }

  function Mentioned(tasks: seq<Task>): set<Key> {
    Produces(tasks) + set t, d | t in tasks && d in t.dependsOn :: d
  }

  function Keep(tasks: seq<Task>, keys: set<Key>): (r: seq<Task>)
    ensures forall t :: t in r <==> t in tasks && t.key in keys
  {
    if tasks == [] then []
    else if tasks[0].key in keys then [tasks[0]] + Keep(tasks[1..], keys)
    else Keep(tasks[1..], keys)
  }

  /** Each task kept keeps its place: what comes before it is what was kept of those before it. */
  lemma {:induction false} KeptInOrder(tasks: seq<Task>, keys: set<Key>, i: nat)
    requires i < |tasks|
    ensures
      var before := Keep(tasks[..i], keys);
      before + (if tasks[i].key in keys then [tasks[i]] else []) <= Keep(tasks, keys)
    ensures |Keep(tasks, keys)| <= |tasks|
  {
    if i > 0 {
      assert tasks[..i][0] == tasks[0] && tasks[..i][1..] == tasks[1..][..i - 1];
      KeptInOrder(tasks[1..], keys, i - 1);
    } else if |tasks| > 1 {
      KeptInOrder(tasks[1..], keys, 0);
    }
  }

  function Wanted(tasks: seq<Task>, plan: Plan): set<Key> {
    set t | t in tasks && plan.Wants(t.key) :: t.key
  }

  /** Any listing of a set: the worklist's answer does not depend on the order it starts in. */
  method Listed(keys: set<Key>) returns (r: seq<Key>)
    ensures forall k :: k in r <==> k in keys
  {
    r := [];
    var left := keys;
    while left != {}
      invariant forall k :: k in keys <==> k in left || k in r
    {
      var k :| k in left;
      r, left := r + [k], left - {k};
    }
  }

  ghost predicate Pending(wanted: set<Key>, frontier: seq<Key>, tasks: seq<Task>, carried: set<Key>) {
    && (forall k :: k in frontier ==> k in wanted)
    && (forall k, d :: k in wanted && k !in frontier && d in DependenciesOf(tasks, k) ==> d in wanted || d in carried)
  }

  /** The least keys that hold the wanted ones and need nothing more that is not carried; none of them is. */
  ghost predicate IsSelection(keys: set<Key>, tasks: seq<Task>, plan: Plan) {
    && Wanted(tasks, plan) <= keys && ClosedByLast(keys, tasks, KeysOf(plan.carried))
    && LeastByLast(keys, Wanted(tasks, plan), tasks, KeysOf(plan.carried))
    && keys !! KeysOf(plan.carried)
  }

  ghost predicate Selects(selected: seq<Task>, tasks: seq<Task>, plan: Plan) {
    exists keys :: IsSelection(keys, tasks, plan) && selected == Keep(tasks, keys)
  }

  method Select(tasks: seq<Task>, plan: Plan) returns (selected: seq<Task>, ghost keys: set<Key>)
    ensures Selects(selected, tasks, plan)
    ensures IsSelection(keys, tasks, plan) && selected == Keep(tasks, keys)
  {
    var carried := KeysOf(plan.carried);
    var wanted := Wanted(tasks, plan);
    var frontier := Listed(wanted);
    while frontier != []
      invariant Closing(wanted, frontier, Wanted(tasks, plan), tasks, carried)
      decreases |Mentioned(tasks) - wanted|, |frontier|
    {
      var key := frontier[|frontier| - 1];
      var added := Reached(tasks, key, wanted, carried);
      CloseOne(wanted, frontier, added, Wanted(tasks, plan), tasks, carried);
      frontier, wanted := frontier[..|frontier| - 1] + added, wanted + (set d | d in added);
    }
    selected, keys := Keep(tasks, wanted), wanted;
  }

  /** What the worklist keeps: everything reached so far is needed, and only `frontier` is left to follow. */
  ghost predicate Closing(wanted: set<Key>, frontier: seq<Key>, start: set<Key>, tasks: seq<Task>, carried: set<Key>) {
    && start <= wanted <= Mentioned(tasks) && wanted !! carried
    && Pending(wanted, frontier, tasks, carried)
    && LeastByLast(wanted, start, tasks, carried)
  }

  lemma CloseOne(wanted: set<Key>, frontier: seq<Key>, added: seq<Key>, start: set<Key>, tasks: seq<Task>,
                 carried: set<Key>)
    requires frontier != [] && Closing(wanted, frontier, start, tasks, carried)
    requires
      forall d :: d in added <==>
        d in DependenciesOf(tasks, frontier[|frontier| - 1]) && d !in wanted && d !in carried
    ensures
      var more := wanted + (set d | d in added);
      && Closing(more, frontier[..|frontier| - 1] + added, start, tasks, carried)
      && |Mentioned(tasks) - more| <= |Mentioned(tasks) - wanted|
      && (added != [] ==> |Mentioned(tasks) - more| < |Mentioned(tasks) - wanted|)
  {
    var key := frontier[|frontier| - 1];
    var more := wanted + (set d | d in added);
    ReachedIsLeast(tasks, key, wanted, added, start, carried);
    FollowOne(wanted, frontier, added, tasks, carried);
    forall d | d in added
      ensures d in Mentioned(tasks)
    {
      MentionedByTask(tasks, key, d);
    }
    if added != [] {
      assert added[0] in Mentioned(tasks) - wanted;
      SmallerSet(Mentioned(tasks) - more, Mentioned(tasks) - wanted);
    } else {
      assert more == wanted;
    }
  }

  lemma FollowOne(wanted: set<Key>, frontier: seq<Key>, added: seq<Key>, tasks: seq<Task>, carried: set<Key>)
    requires frontier != [] && Pending(wanted, frontier, tasks, carried)
    requires
      forall d :: d in added <==>
        d in DependenciesOf(tasks, frontier[|frontier| - 1]) && d !in wanted && d !in carried
    ensures Pending(wanted + (set d | d in added), frontier[..|frontier| - 1] + added, tasks, carried)
  {
    var key, rest := frontier[|frontier| - 1], frontier[..|frontier| - 1];
    forall k | k in frontier && k != key
      ensures k in rest
    {
      var i :| 0 <= i < |frontier| && frontier[i] == k;
      assert rest[i] == k;
    }
  }

  lemma MentionedByTask(tasks: seq<Task>, key: Key, d: Key)
    requires d in DependenciesOf(tasks, key)
    ensures d in Mentioned(tasks)
  {
    var t := LastOf(tasks, key).value;
    assert t in tasks && d in t.dependsOn;
  }

  /** The inner loop: the dependencies one key adds, in order and without repeats. */
  method Reached(tasks: seq<Task>, key: Key, wanted: set<Key>, carried: set<Key>) returns (added: seq<Key>)
    ensures forall d :: d in added <==> d in DependenciesOf(tasks, key) && d !in wanted && d !in carried
  {
    added := [];
    var task := LastOf(tasks, key);
    if task.None? {
      return;
    }
    for i := 0 to |task.value.dependsOn|
      invariant forall d :: d in added <==> d in task.value.dependsOn[..i] && d !in wanted && d !in carried
    {
      var dependency := task.value.dependsOn[i];
      assert task.value.dependsOn[..i + 1] == task.value.dependsOn[..i] + [dependency];
      if dependency in wanted || dependency in added || dependency in carried {
        continue;
      }
      added := added + [dependency];
    }
    assert task.value.dependsOn[..|task.value.dependsOn|] == task.value.dependsOn;
  }

  lemma ReachedIsLeast(tasks: seq<Task>, key: Key, wanted: set<Key>, added: seq<Key>, start: set<Key>,
                       carried: set<Key>)
    requires key in wanted && LeastByLast(wanted, start, tasks, carried)
    requires forall d :: d in added ==> d in DependenciesOf(tasks, key) && d !in carried
    ensures LeastByLast(wanted + (set d | d in added), start, tasks, carried)
  {
    var more := wanted + (set d | d in added);
    forall other | start <= other && ClosedByLast(other, tasks, carried)
      ensures more <= other
    {
      assert wanted <= other;
      forall d | d in added
        ensures d in other
      {
        assert key in other && d in DependenciesOf(tasks, key);
      }
    }
  }

  lemma SmallerSet<T>(a: set<T>, b: set<T>)
    requires a < b
    ensures |a| < |b|
  {
    assert |b| == |a| + |b - a| by { assert b == a + (b - a); }
    var x :| x in b - a;
  }

  // ---------------------------------------------------------------- _validate

  method Validate(tasks: seq<Task>, carried: set<Key>) returns (r: Option<PlanError>)
    ensures r.None? <==> Validated(tasks, carried)
    ensures r.Some? && r.value.DuplicateScopes? ==> !DistinctScopes(tasks)
    ensures r.Some? && r.value.UnknownDependency? ==>
              DistinctScopes(tasks) && r.value.dependency !in Produces(tasks) + carried &&
              exists t :: t in tasks && t.key == r.value.task && r.value.dependency in t.dependsOn
  {
    var duplicates := Duplicates(tasks);
    if duplicates != {} {
      return Some(DuplicateScopes(duplicates));
    }
    var produced := Produces(tasks);
    for i := 0 to |tasks|
      invariant forall j, d :: 0 <= j < i && d in tasks[j].dependsOn ==> d in produced || d in carried
    {
      var unknown := FirstUnknown(tasks[i].dependsOn, produced, carried);
      if unknown.Some? {
        assert tasks[i] in tasks;
        return Some(UnknownDependency(tasks[i].key, unknown.value));
      }
    }
    return None;
  }

  method Duplicates(tasks: seq<Task>) returns (duplicates: set<string>)
    ensures duplicates == {} <==> DistinctScopes(tasks)
  {
    var seen: set<string> := {};
    duplicates := {};
    for i := 0 to |tasks|
      invariant forall s :: s in seen <==> ScopedBy(tasks[..i], s)
      invariant duplicates == {} <==> DistinctScopes(tasks[..i])
    {
      assert tasks[..i + 1] == tasks[..i] + [tasks[i]];
      ScopesGrow(tasks[..i], tasks[i]);
      if ScopeOf(tasks[i]) in seen {
        duplicates := duplicates + {ScopeOf(tasks[i])};
      }
      seen := seen + {ScopeOf(tasks[i])};
    }
    assert tasks[..|tasks|] == tasks;
  }

  method FirstUnknown(dependsOn: seq<Key>, produced: set<Key>, carried: set<Key>) returns (r: Option<Key>)
    ensures r.None? <==> forall d :: d in dependsOn ==> d in produced || d in carried
    ensures r.Some? ==> r.value in dependsOn && r.value !in produced && r.value !in carried
  {
    for k := 0 to |dependsOn|
      invariant forall m :: 0 <= m < k ==> dependsOn[m] in produced || dependsOn[m] in carried
    {
      if dependsOn[k] in produced || dependsOn[k] in carried {
        continue;
      }
      return Some(dependsOn[k]);
    }
    return None;
  }

  ghost predicate ScopedBy(tasks: seq<Task>, scope: string) {
    exists j :: 0 <= j < |tasks| && ScopeOf(tasks[j]) == scope
  }

  lemma ScopesGrow(tasks: seq<Task>, t: Task)
    ensures DistinctScopes(tasks + [t]) <==> DistinctScopes(tasks) && !ScopedBy(tasks, ScopeOf(t))
    ensures forall s :: ScopedBy(tasks + [t], s) <==> ScopedBy(tasks, s) || s == ScopeOf(t)
  {
    var all := tasks + [t];
    assert all[|tasks|] == t && forall j :: 0 <= j < |tasks| ==> all[j] == tasks[j];
    if ScopedBy(tasks, ScopeOf(t)) {
      var j :| 0 <= j < |tasks| && ScopeOf(tasks[j]) == ScopeOf(t);
      assert ScopeOf(all[j]) == ScopeOf(all[|tasks|]);
    }
    forall s
      ensures ScopedBy(all, s) <==> ScopedBy(tasks, s) || s == ScopeOf(t)
    {
      if ScopedBy(tasks, s) {
        var j :| 0 <= j < |tasks| && ScopeOf(tasks[j]) == s;
        assert ScopeOf(all[j]) == s;
      }
      if s == ScopeOf(t) { assert ScopeOf(all[|tasks|]) == s; }
    }
  }

  // ---------------------------------------------------------------- __init__

  /** The carried readings the provider offers, when there is a plan. */
  function CarriedFor(tasks: seq<Task>, plan: Option<Plan>): seq<Carried> {
    match plan
    case None => []
    case Some(p) => p.Restrict(Produces(tasks)).carried
  }

  ghost predicate SelectedFor(run: Run, tasks: seq<Task>, plan: Plan) {
    var restricted := plan.Restrict(Produces(tasks));
    var carried := KeysOf(run.carried);
    var keys := Produces(run.tasks);
    && run.tasks == Keep(tasks, keys)
    && Wanted(tasks, restricted) <= keys && Closed(keys, tasks, carried)
    && Least(keys, Wanted(tasks, restricted), tasks, carried)
    && keys !! carried
  }

  /** The least keys are found, and the tasks that read them can run. */
  ghost predicate RunsUnder(tasks: seq<Task>, plan: Plan) {
    exists keys :: IsSelection(keys, tasks, plan) && Validated(Keep(tasks, keys), KeysOf(plan.carried))
  }

  /** A run that is constructed reads the least set of keys that holds the wanted ones and every dependency of theirs
      that is not carried, and nothing in it is carried too; and it is refused exactly when the tasks so selected cannot
      run. */
  method Construct(tasks: seq<Task>, plan: Option<Plan>) returns (r: Result<Run, PlanError>)
    ensures r.Ok? ==> Validated(r.value.tasks, KeysOf(r.value.carried)) && r.value.carried == CarriedFor(tasks, plan)
    ensures r.Ok? && plan.None? ==> r.value.tasks == tasks
    ensures r.Ok? && plan.Some? ==> SelectedFor(r.value, tasks, plan.value)
    ensures plan.None? ==> (r.Ok? <==> Validated(tasks, {}))
    ensures r.Ok? ==> forall c :: c in r.value.carried <==>
              plan.Some? && c in plan.value.carried && exists t :: t in tasks && t.key == c.key
    ensures plan.Some? ==> (r.Ok? <==> RunsUnder(tasks, plan.value.Restrict(Produces(tasks))))
    ensures plan.Some? && LastTaskDeclares(tasks) && Validated(tasks, {}) ==> r.Ok?
  {
    var carried := CarriedFor(tasks, plan);
    var selected := tasks;
    ghost var keys := Produces(tasks);
    if plan.Some? {
      selected, keys := Select(tasks, plan.value.Restrict(Produces(tasks)));
    }
    var error := Validate(selected, KeysOf(carried));
    if plan.Some? {
      SelectedAlone(tasks, plan.value.Restrict(Produces(tasks)), keys);
      if LastTaskDeclares(tasks) && Validated(tasks, {}) {
        DeclaredSelectionIsValid(tasks, plan.value.Restrict(Produces(tasks)), keys);
      }
    }
    if error.Some? {
      return Err(error.value);
    }
    if plan.Some? {
      SelectionIsLeast(tasks, plan.value.Restrict(Produces(tasks)), keys);
    }
    return Ok(Run(selected, carried));
  }

  /** There is one selection, so whether a plan runs is whether it does. */
  lemma SelectedAlone(tasks: seq<Task>, plan: Plan, keys: set<Key>)
    requires IsSelection(keys, tasks, plan)
    ensures RunsUnder(tasks, plan) <==> Validated(Keep(tasks, keys), KeysOf(plan.carried))
  {
    forall other | IsSelection(other, tasks, plan)
      ensures other == keys
    {
      assert keys <= other && other <= keys;
    }
  }

  lemma SelectionIsLeast(tasks: seq<Task>, plan: Plan, keys: set<Key>)
    requires Wanted(tasks, plan) <= keys && LeastByLast(keys, Wanted(tasks, plan), tasks, KeysOf(plan.carried))
    requires DependenciesProduced(Keep(tasks, keys), KeysOf(plan.carried))
    ensures
      var read := Produces(Keep(tasks, keys));
      && Keep(tasks, keys) == Keep(tasks, read)
      && Wanted(tasks, plan) <= read <= keys
      && Closed(read, tasks, KeysOf(plan.carried))
      && Least(read, Wanted(tasks, plan), tasks, KeysOf(plan.carried))
  {
    var carried := KeysOf(plan.carried);
    var read := Produces(Keep(tasks, keys));
    KeepSame(tasks, keys, read);
    forall k | k in Wanted(tasks, plan)
      ensures k in read
    {
      var t :| t in tasks && t.key == k;
      assert t in Keep(tasks, keys);
    }
    forall t, d | t in tasks && t.key in read && d in t.dependsOn
      ensures d in read || d in carried
    {
      assert t in Keep(tasks, keys);
    }
    forall other | Wanted(tasks, plan) <= other && Closed(other, tasks, carried)
      ensures read <= other
    {
      ClosedImpliesByLast(other, tasks, carried);
    }
  }

  lemma ClosedImpliesByLast(keys: set<Key>, tasks: seq<Task>, carried: set<Key>)
    requires Closed(keys, tasks, carried)
    ensures ClosedByLast(keys, tasks, carried)
  {
  }

  lemma {:induction false} KeepSame(tasks: seq<Task>, keys: set<Key>, other: set<Key>)
    requires forall t :: t in tasks ==> (t.key in keys <==> t.key in other)
    ensures Keep(tasks, keys) == Keep(tasks, other)
  {
    if tasks != [] {
      assert tasks[0] in tasks;
      KeepSame(tasks[1..], keys, other);
    }
  }

  // ---------------------------------------------------------------- plans and regional tasks

  /** What any task depends on, the last task of its key declares too, but for the key itself. */
  ghost predicate LastTaskDeclares(tasks: seq<Task>) {
    forall t, d :: t in tasks && d in t.dependsOn ==> d == t.key || d in DependenciesOf(tasks, t.key)
  }

  /** Tasks that run without a plan, the last of each key declaring what the others do, run under any plan. */
  lemma DeclaredSelectionIsValid(tasks: seq<Task>, plan: Plan, keys: set<Key>)
    requires LastTaskDeclares(tasks) && Validated(tasks, {})
    requires ClosedByLast(keys, tasks, KeysOf(plan.carried))
    ensures Validated(Keep(tasks, keys), KeysOf(plan.carried))
  {
    var kept := Keep(tasks, keys);
    KeepDistinct(tasks, keys);
    forall t, d | t in kept && d in t.dependsOn
      ensures d in Produces(kept) || d in KeysOf(plan.carried)
    {
      assert d == t.key || d in DependenciesOf(tasks, t.key);
      assert d in Produces(tasks);
      if d in keys {
        var u :| u in tasks && u.key == d;
        assert u in kept;
      }
    }
  }

  /** Tasks that run without a plan run under every plan exactly when the last task of each key declares every other
      dependency the key's tasks have. */
  lemma EveryPlanRunsExactlyWhenDeclared(tasks: seq<Task>)
    requires Validated(tasks, {})
    ensures (forall plan: Plan :: RunsUnder(tasks, plan.Restrict(Produces(tasks)))) <==> LastTaskDeclares(tasks)
  {
    if LastTaskDeclares(tasks) {
      forall plan: Plan
        ensures RunsUnder(tasks, plan.Restrict(Produces(tasks)))
      {
        var keys := SelectionExists(tasks, plan.Restrict(Produces(tasks)));
        DeclaredSelectionIsValid(tasks, plan.Restrict(Produces(tasks)), keys);
      }
    } else {
      var t, d :| t in tasks && d in t.dependsOn && d != t.key && d !in DependenciesOf(tasks, t.key);
      var plan := UndeclaredIsRefused(tasks, t, d);
      assert !RunsUnder(tasks, plan.Restrict(Produces(tasks)));
    }
  }

  /** The keys that every closed set holding the wanted ones has. */
  lemma SelectionExists(tasks: seq<Task>, plan: Plan) returns (keys: set<Key>)
    ensures IsSelection(keys, tasks, plan)
  {
    var start, carried := Wanted(tasks, plan), KeysOf(plan.carried);
    keys := set k | k in start + Mentioned(tasks) && InEvery(k, start, tasks, carried);
    forall k, d | k in keys && d in DependenciesOf(tasks, k)
      ensures d in keys || d in carried
    {
      MentionedByTask(tasks, k, d);
      if d !in carried { DependencyInEvery(tasks, start, carried, k, d); }
    }
    CarriedInNone(tasks, plan, keys);
  }

  ghost predicate InEvery(k: Key, start: set<Key>, tasks: seq<Task>, carried: set<Key>) {
    forall other :: start <= other && ClosedByLast(other, tasks, carried) ==> k in other
  }

  lemma DependencyInEvery(tasks: seq<Task>, start: set<Key>, carried: set<Key>, k: Key, d: Key)
    requires InEvery(k, start, tasks, carried) && d in DependenciesOf(tasks, k) && d !in carried
    ensures InEvery(d, start, tasks, carried)
  {
  }

  lemma CarriedInNone(tasks: seq<Task>, plan: Plan, keys: set<Key>)
    requires forall k :: k in keys ==> InEvery(k, Wanted(tasks, plan), tasks, KeysOf(plan.carried))
    ensures keys !! KeysOf(plan.carried)
  {
    var start, carried := Wanted(tasks, plan), KeysOf(plan.carried);
    var rest := start + Mentioned(tasks) - carried;
    forall k, d | k in rest && d in DependenciesOf(tasks, k)
      ensures d in rest || d in carried
    {
      MentionedByTask(tasks, k, d);
    }
    assert start <= rest && ClosedByLast(rest, tasks, carried);
    forall k | k in keys
      ensures k !in carried
    {
      assert InEvery(k, start, tasks, carried);
    }
  }

  lemma {:induction false} CarryingAll(keys: set<Key>) returns (carried: seq<Carried>)
    ensures KeysOf(carried) == keys
  {
    if keys == {} {
      carried := [];
    } else {
      var k :| k in keys;
      var rest := CarryingAll(keys - {k});
      carried := [Carried(k, map[], 0, 0)] + rest;
      assert KeysOf(carried) == {k} + KeysOf(rest);
    }
  }

  /** The plan that wants one key and carries all but it and the dependency its last task does not declare. */
  lemma UndeclaredIsRefused(tasks: seq<Task>, t: Task, d: Key) returns (plan: Plan)
    requires Validated(tasks, {}) && t in tasks && d in t.dependsOn && d != t.key && d !in DependenciesOf(tasks, t.key)
    ensures !RunsUnder(tasks, plan.Restrict(Produces(tasks)))
  {
    var carried := CarryingAll(Produces(tasks) - {t.key, d});
    plan := Plan({t.key}, carried);
    var offered := plan.Restrict(Produces(tasks));
    assert KeysOf(offered.carried) == Produces(tasks) - {t.key, d};
    WantsOnlyOne(tasks, offered, t, d);
    SelectedAlone(tasks, offered, {t.key});
    assert t in Keep(tasks, {t.key});
    assert d !in Produces(Keep(tasks, {t.key}));
  }

  lemma WantsOnlyOne(tasks: seq<Task>, plan: Plan, t: Task, d: Key)
    requires Validated(tasks, {}) && t in tasks && d !in DependenciesOf(tasks, t.key)
    requires plan.collect == {t.key} && KeysOf(plan.carried) == Produces(tasks) - {t.key, d}
    ensures IsSelection({t.key}, tasks, plan)
  {
    assert Wanted(tasks, plan) == {t.key};
    forall e | e in DependenciesOf(tasks, t.key)
      ensures e == t.key || e in KeysOf(plan.carried)
    {
      var last := LastOf(tasks, t.key).value;
      assert last in tasks && e in last.dependsOn;
    }
  }

  lemma {:induction false} KeepDistinct(tasks: seq<Task>, keys: set<Key>)
    requires DistinctScopes(tasks)
    ensures DistinctScopes(Keep(tasks, keys))
  {
    if tasks != [] {
      KeepDistinct(tasks[1..], keys);
      forall t | t in Keep(tasks[1..], keys)
        ensures ScopeOf(t) != ScopeOf(tasks[0])
      {
        var j :| 1 <= j < |tasks| && tasks[j] == t;
      }
    }
  }

  lemma DisagreeingAreValid(eu: Task, us: Task, all: Task)
    requires ScopeOf(eu) != ScopeOf(us) && ScopeOf(eu) != ScopeOf(all) && ScopeOf(us) != ScopeOf(all)
    requires us.dependsOn == [] && all.dependsOn == [] && eu.dependsOn == [all.key]
    ensures Validated([eu, us, all], {})
  {
    assert all in [eu, us, all] && all.key in Produces([eu, us, all]);
  }

  lemma KeptWithoutRegions(eu: Task, us: Task, all: Task, keys: set<Key>)
    requires us.key == eu.key != all.key && eu.dependsOn == [all.key]
    requires eu.key in keys && all.key !in keys
    ensures !Validated(Keep([eu, us, all], keys), {})
  {
    var tasks := [eu, us, all];
    assert eu in tasks && eu in Keep(tasks, keys) && all.key in eu.dependsOn;
    assert all.key !in Produces(Keep(tasks, keys));
  }

  /** Where the last task of a key declares less than another, a plan can be refused although everything it needs is
      offered: the closure follows only the last task of a key, and the check that comes after follows them all. */
  lemma DisagreeingRegionsAreRefused(keys: set<Key>)
    ensures
      var tasks := [Task("groups", Some("eu"), ["regions"]), Task("groups", Some("us"), []), Task("regions", None, [])];
      var plan := Plan({"groups"}, []);
      && Validated(tasks, {})
      && (Wanted(tasks, plan) <= keys && LeastByLast(keys, Wanted(tasks, plan), tasks, {}) ==>
            !Validated(Keep(tasks, keys), {}))
  {
    var eu, us, all := Task("groups", Some("eu"), ["regions"]), Task("groups", Some("us"), []),
        Task("regions", None, []);
    var tasks := [eu, us, all];
    var plan := Plan({"groups"}, []);
    assert ScopeOf(eu)[7] == 'e' && ScopeOf(us)[7] == 'u' && |ScopeOf(all)| == 7;
    DisagreeingAreValid(eu, us, all);
    if Wanted(tasks, plan) <= keys && LeastByLast(keys, Wanted(tasks, plan), tasks, {}) {
      assert eu in tasks && "groups" in Wanted(tasks, plan);
      LastOfKeys(eu, us, all);
      assert keys <= {"groups"};
      KeptWithoutRegions(eu, us, all, keys);
    }
  }

  lemma LastOfKeys(eu: Task, us: Task, all: Task)
    requires us.key != all.key && us.dependsOn == []
    ensures ClosedByLast({us.key}, [eu, us, all], {})
  {
    var tasks := [eu, us, all];
    assert tasks[..2] == [eu, us];
    assert LastOf(tasks, us.key) == LastOf([eu, us], us.key) == Some(us);
  }
}
