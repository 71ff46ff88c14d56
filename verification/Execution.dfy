/** What `CollectionRun.execute` does to the report and the capture, as functions of what it found, and what holds of
    every run. A task's own work is an arbitrary function of the task and the capture as it stood before its wave. */
module Execution {
  import opened Wrappers
  import opened Lists
  import opened Tasks
  import opened Capture
  import opened Coverage
  import opened Planning
  import opened Layering

  /** How one task's `run` ended: it raised, or it returned data and perhaps why that is not all of it. */
  datatype Attempt =
    | Unavailable(message: string)
    | Raised(message: string)
    | Returned(payload: Payload, partialReason: Option<string>)

  type Provider = (Task, Payload) -> Attempt

  /** A result and the payload recorded with it. */
  datatype Reading = Reading(result: TaskResult, payload: Payload)

  /** What has been recorded so far: results by name, and the same readings in the order they were merged. */
  datatype RunState = RunState(results: seq<TaskResult>, log: seq<Entry<string>>)

  // ---------------------------------------------------------------- one task

  function Size(v: Value): nat {
    match v
    case Scalar(_) => 0
    case List(items) => |items|
    case Dict(entries) => |entries|
  }

  /** How many items a payload holds, over its lists and dictionaries. */
  ghost function Count<K>(payload: map<K, Value>): nat
    decreases |payload|
  {
    if payload == map[] then 0
    else
      var k :| k in payload;
      Size(payload[k]) + Count(payload - {k})
  }

  /** `_run_one`: any failure becomes a recorded gap, with the reason given, and what was returned is counted. */
  ghost function RunOne(t: Task, a: Attempt): (r: Reading)
    ensures r.result.key == t.key && r.result.region == t.region && r.result.outcome != SKIPPED
    ensures r.result.outcome == COMPLETE <==> a.Returned? && (a.partialReason == None || a.partialReason == Some(""))
    ensures r.result.outcome == UNAVAILABLE <==> a.Unavailable?
    ensures r.result.outcome == FAILED <==> a.Raised?
    ensures r.result.outcome == COMPLETE ==> r.result.detail == ""
    ensures r.result.outcome == PARTIAL ==> a.partialReason == Some(r.result.detail) && r.result.detail != ""
    ensures !a.Returned? ==> r.result.detail == a.message && r.result.itemCount == 0 && r.payload == map[]
    ensures a.Returned? ==> r.payload == a.payload && r.result.itemCount == Count(a.payload)
    ensures r.result.carriedFrom.None?
  {
    match a
    case Unavailable(m) => Reading(TaskResult(t.key, t.region, UNAVAILABLE, m, 0, None), map[])
    case Raised(m) => Reading(TaskResult(t.key, t.region, FAILED, m, 0, None), map[])
    case Returned(p, reason) =>
      if reason.Some? && reason.value != ""
      then Reading(TaskResult(t.key, t.region, PARTIAL, reason.value, Count(p), None), p)
      else Reading(TaskResult(t.key, t.region, COMPLETE, "", Count(p), None), p)
  }

  function CarriedReading(c: Carried): Reading {
    Reading(TaskResult(c.key, None, COMPLETE, "carried forward from an earlier scan", c.itemCount, Some(c.collectedAt)),
            c.payload)
  }

  predicate Blocked(t: Task, results: seq<TaskResult>) {
    exists d :: d in t.dependsOn && Saw(results, d) && !KeyIsTrustworthy(results, d)
  }

  function Blocker(dependsOn: seq<Key>, results: seq<TaskResult>): Key {
    if dependsOn == [] then ""
    else if !KeyIsTrustworthy(results, dependsOn[0]) then dependsOn[0]
    else Blocker(dependsOn[1..], results)
  }

  function SkippedReading(t: Task, results: seq<TaskResult>): Reading {
    Reading(TaskResult(t.key, t.region, SKIPPED,
                       "needs " + Blocker(t.dependsOn, results) + ", which did not produce usable data", 0, None),
            map[])
  }

  // ---------------------------------------------------------------- one wave, and the run

  function Record(s: RunState, r: Reading): RunState {
    RunState(Put(s.results, r.result), s.log + [Entry(NameOf(r.result), r.result.region, r.payload)])
  }

  function RecordAll(s: RunState, readings: seq<Reading>): RunState
    decreases |readings|
  {
    if readings == [] then s else RecordAll(Record(s, readings[0]), readings[1..])
  }

  function Seeded(carried: seq<Carried>): seq<Reading> {
    seq(|carried|, i requires 0 <= i < |carried| => CarriedReading(carried[i]))
  }

  /** `_partition`: the tasks of a wave whose inputs rule them out, and the others. */
  function Partition(wave: seq<Task>, results: seq<TaskResult>): (r: (seq<Task>, seq<Task>))
    ensures |r.0| + |r.1| == |wave|
    ensures forall t :: t in r.0 <==> t in wave && Blocked(t, results)
    ensures forall t :: t in r.1 <==> t in wave && !Blocked(t, results)
    ensures NoRepeats(wave) ==> NoRepeats(r.0) && NoRepeats(r.1)
  {
    if wave == [] then ([], [])
    else
      var (skipped, runnable) := Partition(wave[1..], results);
      if Blocked(wave[0], results) then ([wave[0]] + skipped, runnable) else (skipped, [wave[0]] + runnable)
  }

  function SkippedReadings(skipped: seq<Task>, results: seq<TaskResult>): (r: seq<Reading>)
    ensures |r| == |skipped|
    ensures forall i :: 0 <= i < |r| ==>
              r[i].result.key == skipped[i].key && r[i].result.region == skipped[i].region
              && r[i].result.outcome == SKIPPED && r[i].payload == map[]
  {
    if skipped == [] then []
    else
      var r := SkippedReading(skipped[0], results);
      [r] + SkippedReadings(skipped[1..], Put(results, r.result))
  }

  ghost function RunReadings(runnable: seq<Task>, data: Payload, provider: Provider): (r: seq<Reading>)
    ensures |r| == |runnable|
    ensures forall i :: 0 <= i < |r| ==> r[i] == RunOne(runnable[i], provider(runnable[i], data))
  {
    seq(|runnable|, i requires 0 <= i < |runnable| => RunOne(runnable[i], provider(runnable[i], data)))
  }

  ghost function WaveReadings(wave: seq<Task>, results: seq<TaskResult>, data: Payload,
                              provider: Provider): seq<Reading> {
    var (skipped, runnable) := Partition(wave, results);
    SkippedReadings(skipped, results) + RunReadings(runnable, data, provider)
  }

  function Start(carried: seq<Carried>): RunState {
    RecordAll(RunState([], []), Seeded(carried))
  }

  ghost function AfterWaves(data: Payload, carried: seq<Carried>, ws: seq<seq<Task>>, provider: Provider): RunState {
    if ws == [] then Start(carried)
    else
      var s := AfterWaves(data, carried, ws[..|ws| - 1], provider);
      RecordAll(s, WaveReadings(ws[|ws| - 1], s.results, Rebuild(data, s.log), provider))
  }

  // ---------------------------------------------------------------- what a run is given

  /** Every reading of the run has a name of its own, and no key is both carried and read. */
  ghost predicate DistinctReadings(tasks: seq<Task>, carried: seq<Carried>) {
    && DistinctScopes(tasks)
    && (forall i, j :: 0 <= i < j < |carried| ==> carried[i].key != carried[j].key)
    && (forall c, t :: c in carried && t in tasks ==> c.key != ScopeOf(t))
    && Produces(tasks) !! KeysOf(carried)
  }

  /** Keys without '@' are enough for the names to be distinct. */
  lemma PlainKeysAreDistinct(tasks: seq<Task>, carried: seq<Carried>)
    requires DistinctScopes(tasks) && Produces(tasks) !! KeysOf(carried)
    requires forall i, j :: 0 <= i < j < |carried| ==> carried[i].key != carried[j].key
    requires forall c :: c in carried ==> '@' !in c.key
    ensures DistinctReadings(tasks, carried)
  {
    forall c, t | c in carried && t in tasks
      ensures c.key != ScopeOf(t)
    {
      assert t.key in Produces(tasks) && c.key in KeysOf(carried);
      if t.region.Some? && t.region.value != "" {
        assert ScopeOf(t)[|t.key|] == '@';
      }
    }
  }

  // ---------------------------------------------------------------- what a run keeps

  ghost predicate Of(r: TaskResult, t: Task) {
    r.key == t.key && r.region == t.region
  }

  ghost predicate Aligned(s: RunState) {
    |s.log| == |s.results|
    && forall i :: 0 <= i < |s.log| ==> s.log[i].scope == NameOf(s.results[i]) && s.log[i].region == s.results[i].region
  }

  ghost predicate Named(results: seq<TaskResult>, name: string) {
    exists r :: r in results && NameOf(r) == name
  }

  /** The task ran on a capture that already held every reading of its dependencies, and what it returned is what was
      recorded under its result. */
  ghost predicate RanOn(data: Payload, s: RunState, provider: Provider, t: Task, r: TaskResult, m: nat) {
    && m <= |s.log| && m <= |s.results|
    && r == RunOne(t, provider(t, Rebuild(data, s.log[..m]))).result
    && RecordedFrom(s, m, RunOne(t, provider(t, Rebuild(data, s.log[..m]))))
    && forall q :: m <= q < |s.results| ==> s.results[q].key !in t.dependsOn
  }

  ghost predicate RecordedFrom(s: RunState, m: nat, ran: Reading) {
    exists i :: m <= i < |s.results| && i < |s.log| && s.results[i] == ran.result && s.log[i].payload == ran.payload
  }

  /** How many results were recorded before the wave of a task: those carried and those of the waves before. */
  ghost predicate BeforeItsWave(ws: seq<seq<Task>>, first: nat, t: Task, m: nat) {
    exists n :: 0 <= n < |ws| && t in ws[n] && m == first + Total(ws[..n])
  }

  ghost predicate Untrusted(t: Task, results: seq<TaskResult>) {
    exists d :: d in t.dependsOn && !KeyIsTrustworthy(results, d)
  }

  ghost predicate FirstUntrusted(t: Task, results: seq<TaskResult>, i: int) {
    && 0 <= i < |t.dependsOn| && !KeyIsTrustworthy(results, t.dependsOn[i])
    && forall j :: 0 <= j < i ==> KeyIsTrustworthy(results, t.dependsOn[j])
  }

  /** The result says which dependency it went without: the first that cannot be relied on. */
  ghost predicate NamesBlocker(t: Task, results: seq<TaskResult>, r: TaskResult) {
    exists i :: FirstUntrusted(t, results, i) &&
                r == TaskResult(t.key, t.region, SKIPPED,
                                "needs " + t.dependsOn[i] + ", which did not produce usable data", 0, None)
  }

  ghost predicate LeftNothing(s: RunState, r: TaskResult) {
    exists i :: 0 <= i < |s.results| && i < |s.log| && s.results[i] == r && s.log[i].payload == map[]
  }

  /** SKIPPED exactly when a dependency cannot be trusted, and then naming the first; otherwise the result of running on
      all of them. */
  ghost predicate Judged(data: Payload, s: RunState, ws: seq<seq<Task>>, first: nat, provider: Provider, t: Task) {
    exists r :: r in s.results && Of(r, t) && JudgedAs(data, s, ws, first, provider, t, r)
  }

  ghost predicate JudgedAs(data: Payload, s: RunState, ws: seq<seq<Task>>, first: nat, provider: Provider, t: Task,
                           r: TaskResult) {
    && (r.outcome == SKIPPED <==> Untrusted(t, s.results))
    && (r.outcome == SKIPPED ==> NamesBlocker(t, s.results, r) && LeftNothing(s, r))
    && (r.outcome != SKIPPED ==> exists m: nat :: BeforeItsWave(ws, first, t, m) && RanOn(data, s, provider, t, r, m))
  }

  /** What the report says of a reading that was carried: that it is complete, and when it was taken. */
  ghost predicate SaysCarried(r: TaskResult, c: Carried) {
    r == TaskResult(c.key, None, COMPLETE, "carried forward from an earlier scan", c.itemCount, Some(c.collectedAt))
  }

  ghost predicate OfCarried(r: TaskResult, carried: seq<Carried>) {
    exists c :: c in carried && SaysCarried(r, c)
  }

  /** What is carried stands first, in the report and in the capture, in the order it was given. */
  ghost predicate CarriedFirst(s: RunState, carried: seq<Carried>) {
    && |carried| <= |s.results| && |carried| <= |s.log|
    && forall i :: 0 <= i < |carried| ==>
         SaysCarried(s.results[i], carried[i]) && s.log[i] == Entry(carried[i].key, None, carried[i].payload)
  }

  ghost predicate OfPlaced(r: TaskResult, ws: seq<seq<Task>>) {
    exists t :: Placed(ws, t) && Of(r, t)
  }

  /** Exactly one result per carried key and per task scheduled so far, each judged by its dependencies. */
  ghost predicate Accounted(data: Payload, s: RunState, ws: seq<seq<Task>>, carried: seq<Carried>, provider: Provider) {
    && Aligned(s) && DistinctNames(s.results)
    && |s.results| == |carried| + Total(ws)
    && (forall r :: r in s.results ==> OfCarried(r, carried) || OfPlaced(r, ws))
    && CarriedFirst(s, carried)
    && (forall t :: Placed(ws, t) ==> Judged(data, s, ws, |carried|, provider, t))
  }
}
