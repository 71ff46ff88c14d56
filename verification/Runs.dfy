/** Every run of the collection executor, from the first carried reading to the last wave. */
module Runs {
  import opened Wrappers
  import opened Lists
  import opened Tasks
  import opened Capture
  import opened Coverage
  import opened Planning
  import opened Layering
  import opened Execution

  function ResultsOf(readings: seq<Reading>): seq<TaskResult> {
    seq(|readings|, i requires 0 <= i < |readings| => readings[i].result)
  }

  function EntriesOf(readings: seq<Reading>): seq<Entry<string>> {
    seq(|readings|, i requires 0 <= i < |readings| =>
      Entry(NameOf(readings[i].result), readings[i].result.region, readings[i].payload))
  }

  ghost predicate Fresh(readings: seq<Reading>, results: seq<TaskResult>) {
    && DistinctNames(ResultsOf(readings))
    && forall i, j :: 0 <= i < |readings| && 0 <= j < |results| ==> NameOf(readings[i].result) != NameOf(results[j])
  }

  /** Readings with names of their own are all appended, none replaced. */
  lemma {:induction false} RecordAllAppends(s: RunState, readings: seq<Reading>)
    requires Fresh(readings, s.results)
    ensures RecordAll(s, readings) == RunState(s.results + ResultsOf(readings), s.log + EntriesOf(readings))
    decreases |readings|
  {
    if readings == [] {
      assert s.results + ResultsOf(readings) == s.results && s.log + EntriesOf(readings) == s.log;
    } else {
      FreshRest(s.results, readings);
      RecordAllAppends(Record(s, readings[0]), readings[1..]);
      FirstOf(readings);
      assert Record(s, readings[0]) == RunState(s.results + ResultsOf(readings)[..1], s.log + EntriesOf(readings)[..1]);
      AppendedInTwo(s.results, ResultsOf(readings));
      AppendedInTwo(s.log, EntriesOf(readings));
    }
  }

  lemma AppendedInTwo<T>(before: seq<T>, added: seq<T>)
    requires added != []
    ensures before + added == before + added[..1] + added[1..]
  {
  }

  lemma FirstOf(readings: seq<Reading>)
    requires readings != []
    ensures ResultsOf(readings)[..1] == [readings[0].result] && ResultsOf(readings)[1..] == ResultsOf(readings[1..])
    ensures EntriesOf(readings)[..1] ==
            [Entry(NameOf(readings[0].result), readings[0].result.region, readings[0].payload)]
    ensures EntriesOf(readings)[1..] == EntriesOf(readings[1..])
  {
  }

  lemma FreshRest(results: seq<TaskResult>, readings: seq<Reading>)
    requires readings != [] && Fresh(readings, results)
    ensures Put(results, readings[0].result) == results + [readings[0].result]
    ensures Fresh(readings[1..], results + [readings[0].result])
  {
    var rest, all := readings[1..], ResultsOf(readings);
    assert forall i :: 0 <= i < |rest| ==> rest[i] == readings[i + 1];
    forall i, j | 0 <= i < j < |rest|
      ensures NameOf(ResultsOf(rest)[i]) != NameOf(ResultsOf(rest)[j])
    {
      assert NameOf(all[i + 1]) != NameOf(all[j + 1]);
    }
    forall i | 0 <= i < |rest|
      ensures NameOf(rest[i].result) != NameOf(readings[0].result)
    {
      assert NameOf(all[0]) != NameOf(all[i + 1]);
    }
  }

  lemma AppendAligned(s: RunState, readings: seq<Reading>)
    requires Aligned(s) && DistinctNames(s.results) && Fresh(readings, s.results)
    ensures Aligned(RunState(s.results + ResultsOf(readings), s.log + EntriesOf(readings)))
    ensures DistinctNames(s.results + ResultsOf(readings))
  {
    var added := ResultsOf(readings);
    var all := s.results + added;
    forall i, j | 0 <= i < j < |all|
      ensures NameOf(all[i]) != NameOf(all[j])
    {
      if j < |s.results| {
      } else if i >= |s.results| {
        assert NameOf(added[i - |s.results|]) != NameOf(added[j - |s.results|]);
      }
    }
  }

  lemma ScopesDiffer(tasks: seq<Task>, t: Task, u: Task)
    requires DistinctScopes(tasks) && t in tasks && u in tasks && t != u
    ensures ScopeOf(t) != ScopeOf(u)
  {
    var i :| 0 <= i < |tasks| && tasks[i] == t;
    var j :| 0 <= j < |tasks| && tasks[j] == u;
    if i < j {
      assert ScopeOf(tasks[i]) != ScopeOf(tasks[j]);
    } else {
      assert ScopeOf(tasks[j]) != ScopeOf(tasks[i]);
    }
  }

  // ---------------------------------------------------------------- what one wave produces

  function Order(wave: seq<Task>, results: seq<TaskResult>): seq<Task> {
    Partition(wave, results).0 + Partition(wave, results).1
  }

  lemma OrderOfWave(wave: seq<Task>, results: seq<TaskResult>)
    requires NoRepeats(wave)
    ensures NoRepeats(Order(wave, results)) && |Order(wave, results)| == |wave|
    ensures forall t :: t in Order(wave, results) <==> t in wave
  {
    var order, skipped := Order(wave, results), Partition(wave, results).0;
    forall i, j | 0 <= i < j < |order|
      ensures order[i] != order[j]
    {
      if i < |skipped| <= j {
        assert order[i] in skipped && order[j] in Partition(wave, results).1;
      }
    }
  }

  /** The reading a task gets in its wave: skipped where blocked, else the result of running on `data`. */
  ghost predicate WaveJudged(r: Reading, t: Task, results: seq<TaskResult>, data: Payload, provider: Provider) {
    && Of(r.result, t)
    && (Blocked(t, results) ==> r.result.outcome == SKIPPED && r.payload == map[])
    && (!Blocked(t, results) ==> r == RunOne(t, provider(t, data)))
  }

  lemma SkippedAt(skipped: seq<Task>, i: nat, results: seq<TaskResult>, data: Payload, provider: Provider)
    requires i < |skipped| && Blocked(skipped[i], results)
    ensures WaveJudged(SkippedReadings(skipped, results)[i], skipped[i], results, data, provider)
  {
  }

  lemma RunAt(runnable: seq<Task>, i: nat, results: seq<TaskResult>, data: Payload, provider: Provider)
    requires i < |runnable| && !Blocked(runnable[i], results)
    ensures WaveJudged(RunReadings(runnable, data, provider)[i], runnable[i], results, data, provider)
  {
  }

  lemma ReadingAt(skipped: seq<Task>, runnable: seq<Task>, i: nat, results: seq<TaskResult>, data: Payload,
                  provider: Provider)
    requires i < |skipped| ==> Blocked(skipped[i], results)
    requires |skipped| <= i ==> i - |skipped| < |runnable| && !Blocked(runnable[i - |skipped|], results)
    ensures WaveJudged((SkippedReadings(skipped, results) + RunReadings(runnable, data, provider))[i],
                       (skipped + runnable)[i], results, data, provider)
  {
    if i < |skipped| {
      SkippedAt(skipped, i, results, data, provider);
    } else {
      RunAt(runnable, i - |skipped|, results, data, provider);
    }
  }

  lemma WaveReadingAt(wave: seq<Task>, i: nat, results: seq<TaskResult>, data: Payload, provider: Provider)
    requires i < |wave|
    ensures |WaveReadings(wave, results, data, provider)| == |Order(wave, results)| == |wave|
    ensures WaveJudged(WaveReadings(wave, results, data, provider)[i], Order(wave, results)[i], results, data, provider)
  {
    PartitionAt(wave, results, i);
    ReadingAt(Partition(wave, results).0, Partition(wave, results).1, i, results, data, provider);
  }

  lemma PartitionAt(wave: seq<Task>, results: seq<TaskResult>, i: nat)
    requires i < |wave|
    ensures
      var (skipped, runnable) := Partition(wave, results);
      if i < |skipped| then Blocked(skipped[i], results)
      else i - |skipped| < |runnable| && !Blocked(runnable[i - |skipped|], results)
  {
    var (skipped, runnable) := Partition(wave, results);
    if i < |skipped| {
      assert skipped[i] in skipped;
    } else {
      assert runnable[i - |skipped|] in runnable;
    }
  }

  ghost predicate OneOf(r: TaskResult, wave: seq<Task>) {
    exists t :: t in wave && Of(r, t)
  }

  ghost predicate GivesAt(readings: seq<Reading>, i: int, t: Task, results: seq<TaskResult>, data: Payload,
                          provider: Provider) {
    && 0 <= i < |readings| && WaveJudged(readings[i], t, results, data, provider)
    && (Blocked(t, results) ==> NamesBlocker(t, results, readings[i].result))
  }

  ghost predicate Gives(readings: seq<Reading>, t: Task, results: seq<TaskResult>, data: Payload, provider: Provider) {
    exists i :: GivesAt(readings, i, t, results, data, provider)
  }

  /** Each skipped task names its blocker by the report as it stands then. */
  lemma {:induction false} SkippedReadingNow(skipped: seq<Task>, s: RunState, i: nat)
    requires i < |skipped|
    ensures
      var readings := SkippedReadings(skipped, s.results);
      readings[i] == SkippedReading(skipped[i], RecordAll(s, readings[..i]).results)
    decreases i
  {
    var readings := SkippedReadings(skipped, s.results);
    if i > 0 {
      var next := Record(s, readings[0]);
      assert readings[1..] == SkippedReadings(skipped[1..], next.results);
      SkippedReadingNow(skipped[1..], next, i - 1);
      assert readings[..i][1..] == readings[1..][..i - 1];
    }
  }

  lemma {:induction false} BlockerIsFirst(dependsOn: seq<Key>, results: seq<TaskResult>) returns (i: nat)
    requires exists d :: d in dependsOn && !KeyIsTrustworthy(results, d)
    ensures i < |dependsOn| && Blocker(dependsOn, results) == dependsOn[i]
    ensures !KeyIsTrustworthy(results, dependsOn[i])
    ensures forall j :: 0 <= j < i ==> KeyIsTrustworthy(results, dependsOn[j])
  {
    if !KeyIsTrustworthy(results, dependsOn[0]) {
      i := 0;
    } else {
      var before := BlockerIsFirst(dependsOn[1..], results);
      i := before + 1;
    }
  }

  /** Results no dependency of a task names do not change which of them is the first to be missing. */
  lemma SkippedAfter(t: Task, results: seq<TaskResult>, added: seq<TaskResult>)
    requires Blocked(t, results) && forall r :: r in added ==> r.key !in t.dependsOn
    ensures NamesBlocker(t, results, SkippedReading(t, results + added).result)
  {
    forall d | d in t.dependsOn
      ensures KeyIsTrustworthy(results + added, d) == KeyIsTrustworthy(results, d)
    {
      TrustUnmoved(results, added, d);
    }
    var at := BlockerIsFirst(t.dependsOn, results + added);
    assert FirstUntrusted(t, results, at);
  }

  lemma SkippedNamesBlocker(skipped: seq<Task>, results: seq<TaskResult>, i: nat)
    requires i < |skipped| && Blocked(skipped[i], results)
    requires forall u :: u in skipped ==> u.key !in skipped[i].dependsOn
    requires Fresh(SkippedReadings(skipped, results), results)
    ensures NamesBlocker(skipped[i], results, SkippedReadings(skipped, results)[i].result)
  {
    var readings, s := SkippedReadings(skipped, results), RunState(results, []);
    SkippedReadingNow(skipped, s, i);
    FreshFirst(readings, results, i);
    RecordAllAppends(s, readings[..i]);
    var added := ResultsOf(readings[..i]);
    assert RecordAll(s, readings[..i]).results == results + added;
    forall r | r in added
      ensures r.key !in skipped[i].dependsOn
    {
      var j :| 0 <= j < i && added[j] == r;
      assert r.key == skipped[j].key && skipped[j] in skipped;
    }
    SkippedAfter(skipped[i], results, added);
  }

  lemma FreshFirst(readings: seq<Reading>, results: seq<TaskResult>, n: nat)
    requires n <= |readings| && Fresh(readings, results)
    ensures Fresh(readings[..n], results)
  {
    var all, first := ResultsOf(readings), ResultsOf(readings[..n]);
    forall i, j | 0 <= i < j < |first|
      ensures NameOf(first[i]) != NameOf(first[j])
    {
      assert first[i] == all[i] && first[j] == all[j];
    }
  }

  // ---------------------------------------------------------------- one wave keeps the account

  /** `wave` may come next: its tasks are new, and what it and the waves before it need is placed. */
  ghost predicate NextWave(ws: seq<seq<Task>>, wave: seq<Task>, tasks: seq<Task>, carried: set<Key>) {
    && NoRepeats(wave)
    && (forall t :: t in wave ==> t in tasks && !Placed(ws, t))
    && (forall t :: Placed(ws, t) ==> t in tasks)
    && (forall t, u :: t in wave && u in tasks && Needs(t, u, carried) ==> Placed(ws, u))
    && (forall t, u :: Placed(ws, t) && u in tasks && Needs(t, u, carried) ==> Placed(ws, u))
  }

  ghost predicate Scheduled(ws: seq<seq<Task>>, wave: seq<Task>, t: Task) {
    Placed(ws, t) || t in wave
  }

  /** Nobody scheduled so far, this wave included, waits for a reading of this wave. */
  lemma WaveFeedsNobodyYet(ws: seq<seq<Task>>, wave: seq<Task>, tasks: seq<Task>, carried: seq<Carried>, t: Task,
                           u: Task)
    requires NextWave(ws, wave, tasks, KeysOf(carried)) && Produces(tasks) !! KeysOf(carried)
    requires Scheduled(ws, wave, t) && u in wave
    ensures u.key !in t.dependsOn
  {
    if u.key in t.dependsOn {
      assert u.key in Produces(tasks);
      assert Needs(t, u, KeysOf(carried));
      assert false;
    }
  }

  lemma NewNames(ws: seq<seq<Task>>, wave: seq<Task>, tasks: seq<Task>, carried: seq<Carried>, t: Task, r: TaskResult)
    requires DistinctReadings(tasks, carried)
    requires NextWave(ws, wave, tasks, KeysOf(carried)) && t in wave
    requires OfCarried(r, carried) || OfPlaced(r, ws)
    ensures NameOf(r) != ScopeOf(t)
  {
    if OfCarried(r, carried) {
      var c :| c in carried && SaysCarried(r, c);
      assert c.key != ScopeOf(t);
    } else {
      var u :| Placed(ws, u) && Of(r, u);
      ScopesDiffer(tasks, t, u);
    }
  }

  lemma WaveIsFresh(data: Payload, s: RunState, ws: seq<seq<Task>>, wave: seq<Task>, tasks: seq<Task>,
                    carried: seq<Carried>, provider: Provider)
    requires DistinctReadings(tasks, carried)
    requires NextWave(ws, wave, tasks, KeysOf(carried))
    requires forall r :: r in s.results ==> OfCarried(r, carried) || OfPlaced(r, ws)
    ensures Fresh(WaveReadings(wave, s.results, data, provider), s.results)
  {
    var readings, order := WaveReadings(wave, s.results, data, provider), Order(wave, s.results);
    OrderOfWave(wave, s.results);
    var results := ResultsOf(readings);
    assert |readings| == |order|;
    forall i | 0 <= i < |results|
      ensures NameOf(results[i]) == ScopeOf(order[i]) && order[i] in wave
    {
      WaveReadingAt(wave, i, s.results, data, provider);
      assert order[i] in order;
    }
    forall i, j | 0 <= i < j < |results|
      ensures NameOf(results[i]) != NameOf(results[j])
    {
      ScopesDiffer(tasks, order[i], order[j]);
    }
    forall i, j | 0 <= i < |readings| && 0 <= j < |s.results|
      ensures NameOf(readings[i].result) != NameOf(s.results[j])
    {
      assert NameOf(results[i]) == ScopeOf(order[i]);
      NewNames(ws, wave, tasks, carried, order[i], s.results[j]);
    }
  }

  lemma TrustUnmoved(results: seq<TaskResult>, added: seq<TaskResult>, d: Key)
    requires forall r :: r in added ==> r.key != d
    ensures Saw(results + added, d) == Saw(results, d)
    ensures KeyIsTrustworthy(results + added, d) == KeyIsTrustworthy(results, d)
  {
    assert forall r :: r in results + added <==> r in results || r in added;
  }

  lemma NamesBlockerStays(results: seq<TaskResult>, added: seq<TaskResult>, t: Task, r: TaskResult)
    requires forall r :: r in added ==> r.key !in t.dependsOn
    requires NamesBlocker(t, results, r)
    ensures NamesBlocker(t, results + added, r)
  {
    var i :| FirstUntrusted(t, results, i) &&
             r == TaskResult(t.key, t.region, SKIPPED,
                             "needs " + t.dependsOn[i] + ", which did not produce usable data", 0, None);
    forall j | 0 <= j <= i
      ensures KeyIsTrustworthy(results + added, t.dependsOn[j]) == KeyIsTrustworthy(results, t.dependsOn[j])
    {
      TrustUnmoved(results, added, t.dependsOn[j]);
    }
    assert FirstUntrusted(t, results + added, i);
  }

  lemma UntrustedUnmoved(results: seq<TaskResult>, added: seq<TaskResult>, t: Task)
    requires forall r :: r in added ==> r.key !in t.dependsOn
    ensures Untrusted(t, results + added) == Untrusted(t, results)
  {
    forall d | d in t.dependsOn
      ensures KeyIsTrustworthy(results + added, d) == KeyIsTrustworthy(results, d)
    {
      TrustUnmoved(results, added, d);
    }
  }

  /** The state once the readings of a wave are recorded. */
  ghost function Later(s: RunState, readings: seq<Reading>): RunState {
    RunState(s.results + ResultsOf(readings), s.log + EntriesOf(readings))
  }

  ghost predicate FeedsNot(readings: seq<Reading>, t: Task) {
    forall i :: 0 <= i < |readings| ==> readings[i].result.key !in t.dependsOn
  }

  lemma BeforeItsWaveStays(ws: seq<seq<Task>>, wave: seq<Task>, first: nat, t: Task, m: nat)
    requires BeforeItsWave(ws, first, t, m)
    ensures BeforeItsWave(ws + [wave], first, t, m)
  {
    var n :| 0 <= n < |ws| && t in ws[n] && m == first + Total(ws[..n]);
    assert (ws + [wave])[..n] == ws[..n] && (ws + [wave])[n] == ws[n];
  }

  lemma RanStays(data: Payload, s: RunState, provider: Provider, t: Task, r: TaskResult, m: nat, readings: seq<Reading>)
    requires RanOn(data, s, provider, t, r, m) && FeedsNot(readings, t) && |s.log| == |s.results|
    ensures RanOn(data, Later(s, readings), provider, t, r, m)
  {
    var next := Later(s, readings);
    assert next.log[..m] == s.log[..m];
    var ran := RunOne(t, provider(t, Rebuild(data, s.log[..m])));
    var i :| m <= i < |s.results| && i < |s.log| && s.results[i] == ran.result && s.log[i].payload == ran.payload;
    assert next.results[i] == s.results[i] && next.log[i] == s.log[i];
    forall q | m <= q < |next.results|
      ensures next.results[q].key !in t.dependsOn
    {
      if q >= |s.results| { assert next.results[q] == readings[q - |s.results|].result; }
    }
  }

  /** What was judged stays judged when nothing it depends on is added. */
  lemma JudgedStays(data: Payload, s: RunState, ws: seq<seq<Task>>, wave: seq<Task>, first: nat, provider: Provider,
                    t: Task, readings: seq<Reading>)
    requires Judged(data, s, ws, first, provider, t) && |s.log| == |s.results| && FeedsNot(readings, t)
    ensures Judged(data, Later(s, readings), ws + [wave], first, provider, t)
  {
    var next := Later(s, readings);
    var r :| r in s.results && Of(r, t) && JudgedAs(data, s, ws, first, provider, t, r);
    UntrustedUnmoved(s.results, ResultsOf(readings), t);
    if r.outcome != SKIPPED {
      var m: nat :| BeforeItsWave(ws, first, t, m) && RanOn(data, s, provider, t, r, m);
      BeforeItsWaveStays(ws, wave, first, t, m);
      RanStays(data, s, provider, t, r, m, readings);
    } else {
      NamesBlockerStays(s.results, ResultsOf(readings), t, r);
      var i :| 0 <= i < |s.results| && i < |s.log| && s.results[i] == r && s.log[i].payload == map[];
      assert next.results[i] == r && next.log[i].payload == map[];
    }
    assert r in next.results && JudgedAs(data, next, ws + [wave], first, provider, t, r);
  }

  lemma DependenciesSeen(data: Payload, s: RunState, ws: seq<seq<Task>>, wave: seq<Task>, tasks: seq<Task>,
                         carried: seq<Carried>, provider: Provider, t: Task, d: Key)
    requires NextWave(ws, wave, tasks, KeysOf(carried)) && DependenciesProduced(tasks, KeysOf(carried))
    requires Accounted(data, s, ws, carried, provider)
    requires t in wave && d in t.dependsOn
    ensures Saw(s.results, d)
  {
    if d in KeysOf(carried) {
      var i :| 0 <= i < |carried| && carried[i].key == d;
      assert s.results[i] in s.results && s.results[i].key == d;
    } else {
      var u :| u in tasks && u.key == d;
      assert Needs(t, u, KeysOf(carried));
      assert Judged(data, s, ws, |carried|, provider, u);
    }
  }

  lemma RanNow(data: Payload, s: RunState, provider: Provider, t: Task, readings: seq<Reading>, i: nat)
    requires |s.log| == |s.results| && FeedsNot(readings, t) && i < |readings|
    requires readings[i] == RunOne(t, provider(t, Rebuild(data, s.log)))
    ensures RanOn(data, Later(s, readings), provider, t, readings[i].result, |s.log|)
  {
    var next, m := Later(s, readings), |s.log|;
    assert next.log[..m] == s.log;
    assert next.results[m + i] == readings[i].result && next.log[m + i].payload == readings[i].payload;
    forall q | m <= q < |next.results|
      ensures next.results[q].key !in t.dependsOn
    {
      assert next.results[q] == readings[q - m].result;
    }
  }

  lemma LeavesNothing(s: RunState, readings: seq<Reading>, i: nat)
    requires |s.log| == |s.results| && i < |readings| && readings[i].payload == map[]
    ensures LeftNothing(Later(s, readings), readings[i].result)
  {
    var next, m := Later(s, readings), |s.log|;
    assert next.results[m + i] == readings[i].result && next.log[m + i].payload == readings[i].payload;
  }

  lemma BlockedIsUntrusted(data: Payload, s: RunState, ws: seq<seq<Task>>, wave: seq<Task>, tasks: seq<Task>,
                           carried: seq<Carried>, provider: Provider, t: Task)
    requires NextWave(ws, wave, tasks, KeysOf(carried)) && DependenciesProduced(tasks, KeysOf(carried))
    requires Accounted(data, s, ws, carried, provider) && t in wave
    ensures Blocked(t, s.results) <==> Untrusted(t, s.results)
  {
    forall d | d in t.dependsOn
      ensures Saw(s.results, d)
    {
      DependenciesSeen(data, s, ws, wave, tasks, carried, provider, t, d);
    }
  }

  /** What a task was given in its wave is how it is judged, whatever else the wave recorded. */
  lemma JudgedAsGiven(data: Payload, s: RunState, ws: seq<seq<Task>>, wave: seq<Task>, first: nat, provider: Provider,
                      t: Task, readings: seq<Reading>, i: nat)
    requires t in wave && FeedsNot(readings, t) && |s.log| == |s.results| == first + Total(ws) && i < |readings|
    requires Blocked(t, s.results) <==> Untrusted(t, s.results)
    requires GivesAt(readings, i, t, s.results, Rebuild(data, s.log), provider)
    ensures JudgedAs(data, Later(s, readings), ws + [wave], first, provider, t, readings[i].result)
  {
    UntrustedUnmoved(s.results, ResultsOf(readings), t);
    if Blocked(t, s.results) {
      NamesBlockerStays(s.results, ResultsOf(readings), t, readings[i].result);
      LeavesNothing(s, readings, i);
    } else {
      RanNow(data, s, provider, t, readings, i);
      assert (ws + [wave])[..|ws|] == ws && (ws + [wave])[|ws|] == wave;
      assert BeforeItsWave(ws + [wave], first, t, |s.log|);
    }
  }

  lemma JudgedNow(data: Payload, s: RunState, ws: seq<seq<Task>>, wave: seq<Task>, tasks: seq<Task>,
                  carried: seq<Carried>, provider: Provider, t: Task, readings: seq<Reading>)
    requires NextWave(ws, wave, tasks, KeysOf(carried)) && DependenciesProduced(tasks, KeysOf(carried))
    requires Accounted(data, s, ws, carried, provider)
    requires t in wave && FeedsNot(readings, t)
    requires Gives(readings, t, s.results, Rebuild(data, s.log), provider)
    ensures Judged(data, Later(s, readings), ws + [wave], |carried|, provider, t)
  {
    var i :| GivesAt(readings, i, t, s.results, Rebuild(data, s.log), provider);
    BlockedIsUntrusted(data, s, ws, wave, tasks, carried, provider, t);
    JudgedAsGiven(data, s, ws, wave, |carried|, provider, t, readings, i);
    assert Later(s, readings).results[|s.results| + i] == readings[i].result;
    assert readings[i].result in Later(s, readings).results;
  }

  /** `readings` is what the wave's tasks produced, one each. */
  ghost predicate AddedBy(readings: seq<Reading>, wave: seq<Task>, results: seq<TaskResult>, data: Payload,
                          provider: Provider) {
    && |readings| == |wave|
    && (forall i :: 0 <= i < |readings| ==> OneOf(readings[i].result, wave))
    && (forall t :: t in wave ==> Gives(readings, t, results, data, provider))
  }

  /** A wave whose tasks wait for none of each other. */
  ghost predicate SelfContained(wave: seq<Task>) {
    forall t, u :: t in wave && u in wave ==> u.key !in t.dependsOn
  }

  lemma WaveGivesAt(wave: seq<Task>, i: nat, results: seq<TaskResult>, data: Payload, provider: Provider)
    requires NoRepeats(wave) && SelfContained(wave) && i < |wave| == |Order(wave, results)|
    requires Fresh(WaveReadings(wave, results, data, provider), results)
    ensures GivesAt(WaveReadings(wave, results, data, provider), i, Order(wave, results)[i], results, data, provider)
  {
    var readings, order := WaveReadings(wave, results, data, provider), Order(wave, results);
    var (skipped, runnable) := Partition(wave, results);
    WaveReadingAt(wave, i, results, data, provider);
    PartitionAt(wave, results, i);
    if i < |skipped| {
      FreshFirst(readings, results, |skipped|);
      assert readings[..|skipped|] == SkippedReadings(skipped, results);
      assert skipped[i] in skipped;
      SkippedNamesBlocker(skipped, results, i);
    }
  }

  lemma WaveAdds(wave: seq<Task>, results: seq<TaskResult>, data: Payload, provider: Provider)
    requires NoRepeats(wave) && SelfContained(wave)
    requires Fresh(WaveReadings(wave, results, data, provider), results)
    ensures AddedBy(WaveReadings(wave, results, data, provider), wave, results, data, provider)
  {
    var readings, order := WaveReadings(wave, results, data, provider), Order(wave, results);
    OrderOfWave(wave, results);
    forall i | 0 <= i < |readings|
      ensures OneOf(readings[i].result, wave)
    {
      WaveReadingAt(wave, i, results, data, provider);
      assert order[i] in order;
    }
    forall t | t in wave
      ensures Gives(readings, t, results, data, provider)
    {
      var i :| 0 <= i < |order| && order[i] == t;
      WaveGivesAt(wave, i, results, data, provider);
    }
  }

  lemma WaveIsSelfContained(ws: seq<seq<Task>>, wave: seq<Task>, tasks: seq<Task>, carried: seq<Carried>)
    requires NextWave(ws, wave, tasks, KeysOf(carried)) && Produces(tasks) !! KeysOf(carried)
    ensures SelfContained(wave)
  {
    forall t, u | t in wave && u in wave
      ensures u.key !in t.dependsOn
    {
      WaveFeedsNobodyYet(ws, wave, tasks, carried, t, u);
    }
  }

  lemma WaveFeedsNot(ws: seq<seq<Task>>, wave: seq<Task>, tasks: seq<Task>, carried: seq<Carried>,
                     results: seq<TaskResult>, data: Payload, provider: Provider, readings: seq<Reading>, t: Task)
    requires DependenciesProduced(tasks, KeysOf(carried)) && Produces(tasks) !! KeysOf(carried)
    requires NextWave(ws, wave, tasks, KeysOf(carried)) && Scheduled(ws, wave, t)
    requires AddedBy(readings, wave, results, data, provider)
    ensures FeedsNot(readings, t)
  {
    forall i | 0 <= i < |readings|
      ensures readings[i].result.key !in t.dependsOn
    {
      assert OneOf(readings[i].result, wave);
      var u :| u in wave && Of(readings[i].result, u);
      WaveFeedsNobodyYet(ws, wave, tasks, carried, t, u);
    }
  }

  lemma AllJudged(data: Payload, s: RunState, ws: seq<seq<Task>>, wave: seq<Task>, tasks: seq<Task>,
                  carried: seq<Carried>, provider: Provider, readings: seq<Reading>, t: Task)
    requires DependenciesProduced(tasks, KeysOf(carried)) && Produces(tasks) !! KeysOf(carried)
    requires NextWave(ws, wave, tasks, KeysOf(carried))
    requires Accounted(data, s, ws, carried, provider)
    requires AddedBy(readings, wave, s.results, Rebuild(data, s.log), provider)
    requires Scheduled(ws, wave, t)
    ensures Judged(data, Later(s, readings), ws + [wave], |carried|, provider, t)
  {
    WaveFeedsNot(ws, wave, tasks, carried, s.results, Rebuild(data, s.log), provider, readings, t);
    if t in wave {
      JudgedNow(data, s, ws, wave, tasks, carried, provider, t, readings);
    } else {
      JudgedStays(data, s, ws, wave, |carried|, provider, t, readings);
    }
  }

  lemma SourceKnown(ws: seq<seq<Task>>, wave: seq<Task>, carried: seq<Carried>, r: TaskResult)
    requires OfCarried(r, carried) || OfPlaced(r, ws) || OneOf(r, wave)
    ensures OfCarried(r, carried) || OfPlaced(r, ws + [wave])
  {
    PlacedGrows(ws, wave);
    if OneOf(r, wave) {
      var t :| t in wave && Of(r, t);
      assert Placed(ws + [wave], t);
    } else if OfPlaced(r, ws) {
      var t :| Placed(ws, t) && Of(r, t);
      assert Placed(ws + [wave], t);
    }
  }

  lemma SourcesKnown(s: RunState, ws: seq<seq<Task>>, wave: seq<Task>, carried: seq<Carried>, readings: seq<Reading>)
    requires forall r :: r in s.results ==> OfCarried(r, carried) || OfPlaced(r, ws)
    requires forall i :: 0 <= i < |readings| ==> OneOf(readings[i].result, wave)
    ensures forall r :: r in Later(s, readings).results ==> OfCarried(r, carried) || OfPlaced(r, ws + [wave])
  {
    var added := ResultsOf(readings);
    forall r | r in s.results + added
      ensures OfCarried(r, carried) || OfPlaced(r, ws + [wave])
    {
      if r !in s.results {
        var i :| 0 <= i < |added| && added[i] == r;
        assert OneOf(readings[i].result, wave);
      }
      SourceKnown(ws, wave, carried, r);
    }
  }

  lemma CarriedStaysFirst(s: RunState, readings: seq<Reading>, carried: seq<Carried>)
    requires CarriedFirst(s, carried)
    ensures CarriedFirst(Later(s, readings), carried)
  {
    var next := Later(s, readings);
    assert forall i :: 0 <= i < |carried| ==> next.results[i] == s.results[i] && next.log[i] == s.log[i];
  }

  /** Recording a wave adds what its tasks produced, under names of their own. */
  lemma WaveRecords(data: Payload, s: RunState, ws: seq<seq<Task>>, wave: seq<Task>, tasks: seq<Task>,
                    carried: seq<Carried>, provider: Provider)
    requires DistinctReadings(tasks, carried) && NextWave(ws, wave, tasks, KeysOf(carried))
    requires Accounted(data, s, ws, carried, provider)
    ensures
      var readings := WaveReadings(wave, s.results, Rebuild(data, s.log), provider);
      && RecordAll(s, readings) == Later(s, readings)
         && AddedBy(readings, wave, s.results, Rebuild(data, s.log), provider)
      && Aligned(Later(s, readings)) && DistinctNames(Later(s, readings).results)
  {
    var readings := WaveReadings(wave, s.results, Rebuild(data, s.log), provider);
    WaveIsFresh(Rebuild(data, s.log), s, ws, wave, tasks, carried, provider);
    RecordAllAppends(s, readings);
    AppendAligned(s, readings);
    WaveIsSelfContained(ws, wave, tasks, carried);
    WaveAdds(wave, s.results, Rebuild(data, s.log), provider);
  }

  /** Recording one wave keeps the account, whatever its tasks did. */
  lemma WaveKeeps(data: Payload, s: RunState, ws: seq<seq<Task>>, wave: seq<Task>, tasks: seq<Task>,
                  carried: seq<Carried>, provider: Provider)
    requires DistinctReadings(tasks, carried) && DependenciesProduced(tasks, KeysOf(carried))
    requires NextWave(ws, wave, tasks, KeysOf(carried))
    requires Accounted(data, s, ws, carried, provider)
    ensures
      var readings := WaveReadings(wave, s.results, Rebuild(data, s.log), provider);
      Accounted(data, RecordAll(s, readings), ws + [wave], carried, provider)
  {
    var readings := WaveReadings(wave, s.results, Rebuild(data, s.log), provider);
    WaveRecords(data, s, ws, wave, tasks, carried, provider);
    CarriedStaysFirst(s, readings, carried);
    PlacedGrows(ws, wave);
    forall t | Placed(ws + [wave], t)
      ensures Judged(data, Later(s, readings), ws + [wave], |carried|, provider, t)
    {
      AllJudged(data, s, ws, wave, tasks, carried, provider, readings, t);
    }
    SourcesKnown(s, ws, wave, carried, readings);
  }

  // ---------------------------------------------------------------- the whole run

  lemma SeededAreDistinct(carried: seq<Carried>)
    requires forall i, j :: 0 <= i < j < |carried| ==> carried[i].key != carried[j].key
    ensures Fresh(Seeded(carried), [])
  {
    var added := ResultsOf(Seeded(carried));
    forall i, j | 0 <= i < j < |added|
      ensures NameOf(added[i]) != NameOf(added[j])
    {
      assert NameOf(added[i]) == carried[i].key && NameOf(added[j]) == carried[j].key;
    }
  }

  lemma StartIsSeeded(carried: seq<Carried>)
    requires Fresh(Seeded(carried), [])
    ensures Start(carried) == RunState(ResultsOf(Seeded(carried)), EntriesOf(Seeded(carried)))
  {
    RecordAllAppends(RunState([], []), Seeded(carried));
    assert [] + ResultsOf(Seeded(carried)) == ResultsOf(Seeded(carried));
    assert [] + EntriesOf(Seeded(carried)) == EntriesOf(Seeded(carried));
  }

  lemma StartAccounted(data: Payload, tasks: seq<Task>, carried: seq<Carried>, provider: Provider)
    requires DistinctReadings(tasks, carried)
    ensures Accounted(data, Start(carried), [], carried, provider)
  {
    SeededAreDistinct(carried);
    StartIsSeeded(carried);
    var s := Start(carried);
    forall r | r in s.results
      ensures OfCarried(r, carried)
    {
      var i :| 0 <= i < |s.results| && s.results[i] == r;
      assert carried[i] in carried && SaysCarried(r, carried[i]);
    }
  }

  lemma ScheduleOffersNext(ws: seq<seq<Task>>, tasks: seq<Task>, carried: set<Key>, n: nat)
    requires IsSchedule(ws, tasks, carried) && n < |ws|
    ensures NextWave(ws[..n], ws[n], tasks, carried)
  {
    forall t | Placed(ws[..n], t)
      ensures t in tasks && t !in ws[n]
    {
      var i :| 0 <= i < n && t in ws[..n][i];
      assert t in ws[i] && Placed(ws, t);
    }
    forall t | t in ws[n]
      ensures t in tasks
    {
      assert Placed(ws, t);
    }
    forall t, u | Placed(ws[..n], t) && u in tasks && Needs(t, u, carried)
      ensures Placed(ws[..n], u)
    {
      var i :| 0 <= i < n && t in ws[..n][i];
      assert t in ws[i] && Placed(ws[..i], u);
      var j :| 0 <= j < i && u in ws[..i][j];
      assert u in ws[..n][j];
    }
  }

  lemma AfterOneMore(data: Payload, carried: seq<Carried>, ws: seq<seq<Task>>, wave: seq<Task>, provider: Provider)
    ensures
      var s := AfterWaves(data, carried, ws, provider);
      AfterWaves(data, carried, ws + [wave], provider) ==
      RecordAll(s, WaveReadings(wave, s.results, Rebuild(data, s.log), provider))
  {
    assert (ws + [wave])[..|ws|] == ws;
  }

  ghost predicate EachMayComeNext(ws: seq<seq<Task>>, tasks: seq<Task>, carried: set<Key>) {
    forall n :: 0 <= n < |ws| ==> NextWave(ws[..n], ws[n], tasks, carried)
  }

  lemma {:induction false} RunKeeps(data: Payload, carried: seq<Carried>, ws: seq<seq<Task>>, tasks: seq<Task>,
                                    provider: Provider)
    requires DistinctReadings(tasks, carried) && DependenciesProduced(tasks, KeysOf(carried))
    requires EachMayComeNext(ws, tasks, KeysOf(carried))
    ensures Accounted(data, AfterWaves(data, carried, ws, provider), ws, carried, provider)
  {
    if ws == [] {
      StartAccounted(data, tasks, carried, provider);
    } else {
      var before, wave := ws[..|ws| - 1], ws[|ws| - 1];
      EachBefore(ws, tasks, KeysOf(carried));
      RunKeeps(data, carried, before, tasks, provider);
      assert ws == before + [wave];
      RunKeepsOneMore(data, carried, before, wave, tasks, provider);
    }
  }

  lemma EachBefore(ws: seq<seq<Task>>, tasks: seq<Task>, carried: set<Key>)
    requires ws != [] && EachMayComeNext(ws, tasks, carried)
    ensures EachMayComeNext(ws[..|ws| - 1], tasks, carried) && NextWave(ws[..|ws| - 1], ws[|ws| - 1], tasks, carried)
  {
    var before := ws[..|ws| - 1];
    forall n | 0 <= n < |before|
      ensures NextWave(before[..n], before[n], tasks, carried)
    {
      assert before[..n] == ws[..n];
    }
  }

  lemma RunKeepsOneMore(data: Payload, carried: seq<Carried>, ws: seq<seq<Task>>, wave: seq<Task>, tasks: seq<Task>,
                        provider: Provider)
    requires DistinctReadings(tasks, carried) && DependenciesProduced(tasks, KeysOf(carried))
    requires NextWave(ws, wave, tasks, KeysOf(carried))
    requires Accounted(data, AfterWaves(data, carried, ws, provider), ws, carried, provider)
    ensures Accounted(data, AfterWaves(data, carried, ws + [wave], provider), ws + [wave], carried, provider)
  {
    WaveKeeps(data, AfterWaves(data, carried, ws, provider), ws, wave, tasks, carried, provider);
    AfterOneMore(data, carried, ws, wave, provider);
  }

  /** A scheduled run, over any tasks, carried readings, provider answers and initial capture. */
  ghost predicate Finished(s: RunState, data: Payload, tasks: seq<Task>, carried: seq<Carried>, ws: seq<seq<Task>>,
                           provider: Provider) {
    && DistinctReadings(tasks, carried) && DependenciesProduced(tasks, KeysOf(carried))
    && IsSchedule(ws, tasks, KeysOf(carried))
    && s == AfterWaves(data, carried, ws, provider)
  }

  lemma FinishedIsAccounted(s: RunState, data: Payload, tasks: seq<Task>, carried: seq<Carried>, ws: seq<seq<Task>>,
                            provider: Provider)
    requires Finished(s, data, tasks, carried, ws, provider)
    ensures Accounted(data, s, ws, carried, provider)
  {
    forall n | 0 <= n < |ws|
      ensures NextWave(ws[..n], ws[n], tasks, KeysOf(carried))
    {
      ScheduleOffersNext(ws, tasks, KeysOf(carried), n);
    }
    RunKeeps(data, carried, ws, tasks, provider);
  }

  /** One result per task and per carried key, no two of one name, and nothing else. */
  lemma EveryReadingIsRecordedOnce(s: RunState, data: Payload, tasks: seq<Task>, carried: seq<Carried>,
                                   ws: seq<seq<Task>>, provider: Provider)
    requires Finished(s, data, tasks, carried, ws, provider)
    ensures |s.results| == |carried| + |tasks| && DistinctNames(s.results)
    ensures forall t :: t in tasks ==> exists r :: r in s.results && Of(r, t)
    ensures CarriedFirst(s, carried)
    ensures forall r :: r in s.results ==> OfCarried(r, carried) || exists t :: t in tasks && Of(r, t)
  {
    FinishedIsAccounted(s, data, tasks, carried, ws, provider);
    forall t | t in tasks
      ensures exists r :: r in s.results && Of(r, t)
    {
      assert Judged(data, s, ws, |carried|, provider, t);
    }
  }

  lemma OneResultEach(results: seq<TaskResult>, t: Task, r: TaskResult, other: TaskResult)
    requires DistinctNames(results) && r in results && other in results && Of(r, t) && Of(other, t)
    ensures r == other
  {
    var i :| 0 <= i < |results| && results[i] == r;
    var j :| 0 <= j < |results| && results[j] == other;
    assert NameOf(results[i]) == NameOf(results[j]);
  }

  /** In the finished report a task is SKIPPED exactly when a key it depends on is not trustworthy there, and it names
      the first of those it declared and has nothing recorded; any other task ran on the capture as it stood before its
      wave, which already held every reading of the keys it depends on, and what it returned is what was recorded. */
  lemma SkippedExactlyWhenBlocked(s: RunState, data: Payload, tasks: seq<Task>, carried: seq<Carried>,
                                  ws: seq<seq<Task>>, provider: Provider, t: Task, r: TaskResult)
    requires Finished(s, data, tasks, carried, ws, provider)
    requires t in tasks && r in s.results && Of(r, t)
    ensures r.outcome == SKIPPED <==> exists d :: d in t.dependsOn && !KeyIsTrustworthy(s.results, d)
    ensures r.outcome == SKIPPED ==> NamesBlocker(t, s.results, r) && LeftNothing(s, r)
    ensures r.outcome != SKIPPED ==>
              exists m: nat :: BeforeItsWave(ws, |carried|, t, m) && RanOn(data, s, provider, t, r, m)
  {
    FinishedIsAccounted(s, data, tasks, carried, ws, provider);
    assert Judged(data, s, ws, |carried|, provider, t);
    var other :| other in s.results && Of(other, t) && JudgedAs(data, s, ws, |carried|, provider, t, other);
    OneResultEach(s.results, t, r, other);
    assert Untrusted(t, s.results) <==> exists d :: d in t.dependsOn && !KeyIsTrustworthy(s.results, d);
  }

  /** Before the first wave a data key holds what the last reading carrying it says, and otherwise what it held. */
  lemma FirstWaveSeesCarried(s: RunState, data: Payload, carried: seq<Carried>, k: string)
    requires CarriedFirst(s, carried)
    ensures
      var before := Rebuild(data, s.log[..|carried|]);
      (forall i :: 0 <= i < |carried| && LastCarrying(carried, k, i) ==> Get(before, k) == Some(carried[i].payload[k]))
      && ((forall i :: 0 <= i < |carried| ==> k !in carried[i].payload) ==> Get(before, k) == Get(data, k))
  {
    RebuildAt(data, s.log[..|carried|], k);
    CarriedAreWhole(s.log[..|carried|], carried, k);
  }

  ghost predicate LastCarrying(carried: seq<Carried>, k: string, i: int)
    requires 0 <= i < |carried|
  {
    k in carried[i].payload && forall j :: i < j < |carried| ==> k !in carried[j].payload
  }

  lemma {:induction false} CarriedAreWhole(log: seq<Entry<string>>, carried: seq<Carried>, k: string)
    requires |log| == |carried|
    requires forall i :: 0 <= i < |log| ==> log[i] == Entry(carried[i].key, None, carried[i].payload)
    ensures Blocks(log, k) == []
    ensures LastWhole(log, k) >= 0 ==> LastCarrying(carried, k, LastWhole(log, k))
    ensures LastWhole(log, k) < 0 ==> forall i :: 0 <= i < |carried| ==> k !in carried[i].payload
  {
    if log != [] {
      CarriedAreWhole(log[..|log| - 1], carried[..|log| - 1], k);
      assert k !in log[|log| - 1].payload ==> LastWhole(log, k) == LastWhole(log[..|log| - 1], k);
    }
  }

  // ---------------------------------------------------------------- problems spread to dependents

  /** A key that cannot be relied on takes every key that depends on it along, however indirectly. */
  lemma {:induction false} ProblemsSpread(s: RunState, data: Payload, tasks: seq<Task>, carried: seq<Carried>,
                                          ws: seq<seq<Task>>, provider: Provider, ks: seq<Key>)
    requires Finished(s, data, tasks, carried, ws, provider)
    requires ks != [] && Walk(ks, tasks, KeysOf(carried))
    requires IsProblem(s.results, ks[|ks| - 1])
    ensures IsProblem(s.results, ks[0])
  {
    if |ks| > 1 {
      var rest := ks[1..];
      forall i, j | 0 <= i < j < |rest| && j == i + 1
        ensures Edge(tasks, KeysOf(carried), rest[i], rest[j])
      {
        assert Edge(tasks, KeysOf(carried), ks[i + 1], ks[j + 1]);
      }
      ProblemsSpread(s, data, tasks, carried, ws, provider, rest);
      assert Edge(tasks, KeysOf(carried), ks[0], ks[1]);
      ProblemReaches(s, data, tasks, carried, ws, provider, ks[0], ks[1]);
    }
  }

  lemma ProblemReaches(s: RunState, data: Payload, tasks: seq<Task>, carried: seq<Carried>, ws: seq<seq<Task>>,
                       provider: Provider, a: Key, b: Key)
    requires Finished(s, data, tasks, carried, ws, provider)
    requires Edge(tasks, KeysOf(carried), a, b) && IsProblem(s.results, b)
    ensures IsProblem(s.results, a)
  {
    var t :| t in tasks && t.key == a && b in t.dependsOn;
    FinishedIsAccounted(s, data, tasks, carried, ws, provider);
    assert Placed(ws, t);
    ProblemSkips(data, s, ws, |carried|, provider, t, b);
  }

  lemma ProblemSkips(data: Payload, s: RunState, ws: seq<seq<Task>>, first: nat, provider: Provider, t: Task, b: Key)
    requires Judged(data, s, ws, first, provider, t) && b in t.dependsOn && IsProblem(s.results, b)
    ensures IsProblem(s.results, t.key)
  {
    var r :| r in s.results && Of(r, t) && JudgedAs(data, s, ws, first, provider, t, r);
    assert Untrusted(t, s.results);
    assert r.outcome == SKIPPED;
  }

  // ---------------------------------------------------------------- the merged capture

  /** Folding `_merge` over the recorded payloads, in the order the results were recorded. */
  function Replayed(data: Payload, results: seq<TaskResult>, payloads: map<string, Payload>): Payload {
    if results == [] then data
    else
      var r := results[|results| - 1];
      var before := Replayed(data, results[..|results| - 1], payloads);
      if NameOf(r) in payloads then Merge(before, Entry(NameOf(r), r.region, payloads[NameOf(r)])) else before
  }

  lemma {:induction false} ReplayIsRebuild(data: Payload, s: RunState, payloads: map<string, Payload>)
    requires Aligned(s)
    ensures Replayed(data, s.results, payloads) == Rebuild(data, Refiled(s.log, payloads))
    decreases |s.results|
  {
    var n := |s.results|;
    if n > 0 {
      var before := RunState(s.results[..n - 1], s.log[..n - 1]);
      ReplayIsRebuild(data, before, payloads);
      RefiledOneMore(data, s.log, payloads);
      MergeNothing(Rebuild(data, Refiled(before.log, payloads)), Refiled(s.log, payloads)[n - 1]);
    }
  }

  lemma RefiledOneMore(data: Payload, log: seq<Entry<string>>, payloads: map<string, Payload>)
    requires log != []
    ensures
      var n := |log| - 1;
      Rebuild(data, Refiled(log, payloads)) ==
      Merge(Rebuild(data, Refiled(log[..n], payloads)), Refiled(log, payloads)[n])
  {
    assert Refiled(log, payloads)[..|log| - 1] == Refiled(log[..|log| - 1], payloads);
  }

  lemma MergeNothing(data: Payload, e: Entry<string>)
    ensures e.payload == map[] ==> Merge(data, e) == data
  {
    if e.payload == map[] {
      forall k
        ensures Get(Merge(data, e), k) == Get(data, k)
      {
        MergeAt(data, e, k);
      }
      SameAtEveryKey(Merge(data, e), data);
    }
  }

  /** The capture a run leaves is the initial data with the recorded payloads merged into it in order, exactly when no
      list one task returned whole was appended to by a later regional task. */
  lemma CaptureIsRebuilt(s: RunState, data: Payload, tasks: seq<Task>, carried: seq<Carried>, ws: seq<seq<Task>>,
                         provider: Provider)
    requires Finished(s, data, tasks, carried, ws, provider)
    ensures
      var l := PostAll(data, s.log);
      Replayed(data, s.results, l.payloads) == l.data <==> !Tangled(s.log)
  {
    FinishedIsAccounted(s, data, tasks, carried, ws, provider);
    forall i, j | 0 <= i < j < |s.log|
      ensures s.log[i].scope != s.log[j].scope
    {
      assert NameOf(s.results[i]) != NameOf(s.results[j]);
    }
    RebuildsUnlessTangled(data, s.log);
    ReplayIsRebuild(data, s, PostAll(data, s.log).payloads);
  }
}
