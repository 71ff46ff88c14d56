/** `CollectionRun.execute`, wave by wave. */
module Collection {
  import opened Wrappers
  import opened Tasks
  import opened Capture
  import opened Coverage
  import opened Planning
  import opened Selection
  import opened Layering
  import opened Scheduler
  import opened Execution
  import opened Runs
  import opened Report

  // ---------------------------------------------------------------- one task

  /** The count does not depend on the order the values are taken in. */
  lemma {:induction false} CountOneMore<K>(payload: map<K, Value>, k: K)
    requires k in payload
    ensures Count(payload) == Size(payload[k]) + Count(payload - {k})
    decreases |payload|
  {
    var picked :| picked in payload && Count(payload) == Size(payload[picked]) + Count(payload - {picked});
    if picked != k {
      CountOneMore(payload - {picked}, k);
      CountOneMore(payload - {k}, picked);
      assert payload - {picked} - {k} == payload - {k} - {picked};
    }
  }

  /** One data key more counts as many items as its list or dictionary has, and a single value none. */
  lemma CountGrows(payload: Payload, k: string, v: Value)
    requires k !in payload
    ensures Count(payload[k := v]) ==
            Count(payload) + match v case Scalar(_) => 0 case List(items) => |items| case Dict(entries) => |entries|
    ensures Count<string>(map[]) == 0
  {
    CountOneMore(payload[k := v], k);
    assert payload[k := v] - {k} == payload;
  }

  method CountItems(payload: Payload) returns (n: nat)
    ensures n == Count(payload)
  {
    n := 0;
    var left := payload;
    while left != map[]
      invariant n + Count(left) == Count(payload)
      decreases |left|
    {
      var k :| k in left;
      CountOneMore(left, k);
      n, left := n + Size(left[k]), left - {k};
    }
  }

  method RunTask(t: Task, attempt: Attempt) returns (r: Reading)
    ensures r == RunOne(t, attempt)
  {
    match attempt
    case Unavailable(message) =>
      r := Reading(TaskResult(t.key, t.region, UNAVAILABLE, message, 0, None), map[]);
    case Raised(message) =>
      r := Reading(TaskResult(t.key, t.region, FAILED, message, 0, None), map[]);
    case Returned(payload, partialReason) =>
      var count := CountItems(payload);
      if partialReason.Some? && partialReason.value != "" {
        r := Reading(TaskResult(t.key, t.region, PARTIAL, partialReason.value, count, None), payload);
      } else {
        r := Reading(TaskResult(t.key, t.region, COMPLETE, "", count, None), payload);
      }
  }

  // ---------------------------------------------------------------- one wave at once

  ghost predicate InFlight(runnable: seq<Task>, next: int, flying: set<int>, done: map<int, Reading>, data: Payload,
                           provider: Provider) {
    && 0 <= next <= |runnable| && flying !! done.Keys
    && (forall i :: i in flying || i in done <==> 0 <= i < next)
    && (forall i :: 0 <= i < |runnable| && i in done ==> done[i] == RunOne(runnable[i], provider(runnable[i], data)))
  }

  /** The tasks of a wave start in order as the gate lets them and finish in any order at all; what is gathered is in
      the order they were given, whoever finished first. */
  method Gather(runnable: seq<Task>, data: Payload, provider: Provider, gate: nat) returns (readings: seq<Reading>)
    requires gate > 0
    ensures readings == RunReadings(runnable, data, provider)
  {
    var next, flying: set<int>, done: map<int, Reading> := 0, {}, map[];
    while next < |runnable| || flying != {}
      invariant InFlight(runnable, next, flying, done, data, provider)
      invariant |flying| <= gate
      decreases |runnable| - next, |flying|
    {
      if {
        case next < |runnable| && |flying| < gate =>
          flying, next := flying + {next}, next + 1;
        case i: int :| i in flying =>
          var reading := RunTask(runnable[i], provider(runnable[i], data));
          flying, done := flying - {i}, done[i := reading];
      }
    }
    readings := seq(|runnable|, i requires 0 <= i < |runnable| && i in done => done[i]);
  }

  lemma PostAllData(initial: Payload, log: seq<Entry<string>>)
    ensures PostAll(initial, log).data == Rebuild(initial, log)
  {
  }

  lemma PostEmpty(l: Ledger<string>, e: Entry<string>)
    requires e.payload == map[]
    ensures Post(l, e) == l
  {
    if e.region.Some? {
      MergedNothing(l, e);
    } else {
      assert l.data + e.payload == l.data;
      assert l.owner + (map k | k in e.payload :: e.scope) == l.owner;
    }
  }

  lemma OneRecorded(s: RunState, r: Reading)
    ensures RecordAll(s, [r]) == Record(s, r)
  {
    assert [r][1..] == [];
  }

  lemma RecordAllSnoc(s: RunState, readings: seq<Reading>, i: nat)
    requires i < |readings|
    ensures RecordAll(s, readings[..i + 1]) == Record(RecordAll(s, readings[..i]), readings[i])
  {
    assert readings[..i + 1] == readings[..i] + [readings[i]];
    RecordAllConcat(s, readings[..i], [readings[i]]);
    OneRecorded(RecordAll(s, readings[..i]), readings[i]);
  }

  method Skip(skipped: seq<Task>, c: Collected, ghost initial: Payload, ghost s: RunState)
    requires c.Reached(initial, s)
    modifies c
    ensures c.Reached(initial, RecordAll(s, SkippedReadings(skipped, s.results)))
  {
    ghost var readings := SkippedReadings(skipped, s.results);
    for i := 0 to |skipped|
      invariant c.Reached(initial, RecordAll(s, readings[..i]))
    {
      ghost var now := RecordAll(s, readings[..i]);
      var r := SkippedReading(skipped[i], c.results);
      SkippedReadingNow(skipped, s, i);
      RecordAllSnoc(s, readings, i);
      PostSnoc(initial, now.log, Entry(NameOf(r.result), r.result.region, r.payload));
      PostEmpty(PostAll(initial, now.log), Entry(NameOf(r.result), r.result.region, r.payload));
      c.Record(r);
    }
    assert readings[..|readings|] == readings;
  }

  method KeepAll(readings: seq<Reading>, c: Collected, ghost initial: Payload, ghost s: RunState)
    requires c.Reached(initial, s)
    modifies c
    ensures c.Reached(initial, RecordAll(s, readings))
  {
    for i := 0 to |readings|
      invariant c.Reached(initial, RecordAll(s, readings[..i]))
    {
      RecordAllSnoc(s, readings, i);
      c.MergeAndRecord(readings[i], initial, RecordAll(s, readings[..i]));
    }
    assert readings[..|readings|] == readings;
  }

  lemma {:induction false} RecordAllConcat(s: RunState, first: seq<Reading>, second: seq<Reading>)
    ensures RecordAll(s, first + second) == RecordAll(RecordAll(s, first), second)
    decreases |first|
  {
    if first == [] {
      assert first + second == second;
    } else {
      var all, next := first + second, Record(s, first[0]);
      assert all[0] == first[0] && all[1..] == first[1..] + second;
      assert RecordAll(s, all) == RecordAll(next, all[1..]);
      RecordAllConcat(next, first[1..], second);
    }
  }

  method RunWave(wave: seq<Task>, c: Collected, provider: Provider, gate: nat, ghost initial: Payload,
                 ghost s: RunState)
    requires gate > 0 && c.Reached(initial, s)
    modifies c
    ensures c.Reached(initial, RecordAll(s, WaveReadings(wave, s.results, Rebuild(initial, s.log), provider)))
  {
    var (skipped, runnable) := Partition(wave, c.results);
    var data := c.data;
    PostAllData(initial, s.log);
    Skip(skipped, c, initial, s);
    ghost var now := RecordAll(s, SkippedReadings(skipped, s.results));
    var readings := Gather(runnable, data, provider, gate);
    KeepAll(readings, c, initial, now);
    RecordAllConcat(s, SkippedReadings(skipped, s.results), readings);
  }

  /** What progress is reported after each wave: how many tasks are done by then. */
  function DoneAfterEach(ws: seq<seq<Task>>): (r: seq<nat>)
    ensures |r| == |ws| && (ws != [] ==> r[|ws| - 1] == Total(ws))
  {
    if ws == [] then [] else DoneAfterEach(ws[..|ws| - 1]) + [Total(ws)]
  }

  /** The state of a finished run, with what was carried first and one result for each task after it. */
  ghost predicate LeavesRun(s: RunState, data: Payload, run: Run, ws: seq<seq<Task>>, provider: Provider) {
    && Finished(s, data, run.tasks, run.carried, ws, provider)
    && CarriedFirst(s, run.carried) && |s.results| == |run.carried| + |run.tasks|
  }

  /** What was carried, and nothing else. */
  ghost predicate LeavesCarried(s: RunState, run: Run) {
    CarriedFirst(s, run.carried) && |s.results| == |run.carried|
  }

  lemma RunIsLeft(data: Payload, run: Run, ws: seq<seq<Task>>, provider: Provider)
    requires Validated(run.tasks, KeysOf(run.carried)) && DistinctReadings(run.tasks, run.carried)
    ensures LeavesCarried(Start(run.carried), run)
    ensures IsSchedule(ws, run.tasks, KeysOf(run.carried)) ==>
              LeavesRun(AfterWaves(data, run.carried, ws, provider), data, run, ws, provider)
  {
    StartAccounted(data, run.tasks, run.carried, provider);
    if IsSchedule(ws, run.tasks, KeysOf(run.carried)) {
      EveryReadingIsRecordedOnce(AfterWaves(data, run.carried, ws, provider), data, run.tasks, run.carried, ws,
                                 provider);
    }
  }

  /** A run over any plan, capture and provider: it fails only on a dependency cycle, after seeding what is carried;
      otherwise it leaves the report and the capture of a finished run over its waves. */
  method Execute(run: Run, c: Collected, provider: Provider, limit: Option<nat>)
    returns (r: Result<seq<nat>, seq<Task>>, ghost ws: seq<seq<Task>>)
    requires Validated(run.tasks, KeysOf(run.carried)) && DistinctReadings(run.tasks, run.carried)
    requires c.Empty()
    modifies c
    ensures r.Err? <==> exists ks :: Cycle(ks, run.tasks, KeysOf(run.carried))
    ensures r.Err? ==>
              LeavesCarried(Start(run.carried), run) && c.Reached(old(c.data), Start(run.carried))
    ensures r.Ok? ==> Tight(ws, KeysOf(run.carried))
    ensures r.Ok? ==>
              var s := AfterWaves(old(c.data), run.carried, ws, provider);
              LeavesRun(s, old(c.data), run, ws, provider) && c.Reached(old(c.data), s)
    ensures r.Ok? ==> r.value == DoneAfterEach(ws)
    ensures r.Ok? && run.tasks != [] ==> r.value != [] && r.value[|r.value| - 1] == |run.tasks|
  {
    ghost var initial := c.data;
    var gate := if limit.Some? && limit.value > 0 then limit.value else if run.tasks != [] then |run.tasks| else 1;
    ws := [];
    assert PostAll(initial, []) == c.Held();
    KeepAll(Seeded(run.carried), c, initial, RunState([], []));
    var planned := Waves(run.tasks, KeysOf(run.carried));
    if planned.Err? {
      RunIsLeft(initial, run, [], provider);
      return Err(planned.error), ws;
    }
    ws := planned.value;
    var progress := RunWaves(planned.value, c, provider, gate, initial, run.carried);
    assert ws[..|ws|] == ws;
    RunIsLeft(initial, run, ws, provider);
    return Ok(progress), ws;
  }

  method RunWaves(waves: seq<seq<Task>>, c: Collected, provider: Provider, gate: nat, ghost initial: Payload,
                  ghost carried: seq<Carried>) returns (progress: seq<nat>)
    requires gate > 0 && c.Reached(initial, Start(carried))
    modifies c
    ensures c.Reached(initial, AfterWaves(initial, carried, waves, provider))
    ensures progress == DoneAfterEach(waves)
  {
    var done := 0;
    progress := [];
    for n := 0 to |waves|
      invariant c.Reached(initial, AfterWaves(initial, carried, waves[..n], provider))
      invariant done == Total(waves[..n]) && progress == DoneAfterEach(waves[..n])
    {
      assert waves[..n + 1][..n] == waves[..n];
      RunWave(waves[n], c, provider, gate, initial, AfterWaves(initial, carried, waves[..n], provider));
      done := done + |waves[n]|;
      progress := progress + [done];
    }
    assert waves[..|waves|] == waves;
  }
}
