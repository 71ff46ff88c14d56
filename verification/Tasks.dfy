/** Collection tasks as `connectors/collection.py` declares them, and how one is named inside a run. */
module Tasks {
  import opened Wrappers

  /** The value of an evidence key. Keys of every provider are string enums, so two are equal exactly when their values
      are. */
  type Key = string

  /** One unit of collection. What its `run` does is a parameter of the execution. */
  datatype Task = Task(key: Key, region: Option<string>, dependsOn: seq<Key>)

  /** The name of one reading: its key, qualified by a region that is not empty. */
  function Scope(key: Key, region: Option<string>): string {
    if region.Some? && region.value != "" then key + "@" + region.value else key
  }

  function ScopeOf(t: Task): string {
    Scope(t.key, t.region)
  }

  /** The keys a list of tasks produces, whatever the regions. */
  function Produces(tasks: seq<Task>): set<Key> {
    set t | t in tasks :: t.key
  }

  /** The tasks that read one key. */
  function Readings(tasks: seq<Task>, key: Key): set<Task> {
    set t | t in tasks && t.key == key
  }

  ghost predicate DistinctScopes(tasks: seq<Task>) {
    forall i, j :: 0 <= i < j < |tasks| ==> ScopeOf(tasks[i]) != ScopeOf(tasks[j])
  }

  ghost predicate DependenciesProduced(tasks: seq<Task>, carried: set<Key>) {
    forall t, d :: t in tasks && d in t.dependsOn ==> d in Produces(tasks) || d in carried
  }

  /** What a run holds once `_validate` has passed. */
  ghost predicate Validated(tasks: seq<Task>, carried: set<Key>) {
    DistinctScopes(tasks) && DependenciesProduced(tasks, carried)
  }

  /** `t` cannot start before `u` has been scheduled. */
  ghost predicate Needs(t: Task, u: Task, carried: set<Key>) {
    u.key in t.dependsOn && u.key !in carried
  }
}
