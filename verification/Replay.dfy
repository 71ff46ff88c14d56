/** `RawSnapshot.to_json` and `from_json`: a stored capture replays with the gaps it was taken with. */
module Replay {
  import opened Wrappers
  import opened Text
  import opened Lists
  import opened Tasks
  import opened Capture
  import opened Coverage

  // ---------------------------------------------------------------- coverage, as it is stored

  function ValueOf(o: Outcome): string {
    match o
    case COMPLETE => "COMPLETE"
    case PARTIAL => "PARTIAL"
    case FAILED => "FAILED"
    case SKIPPED => "SKIPPED"
    case UNAVAILABLE => "UNAVAILABLE"
  }

  /** The fields of a stored coverage entry that replay reads, either of which may be absent. */
  datatype StoredEntry = StoredEntry(outcome: Option<string>, detail: Option<string>)

  type StoredCoverage = map<string, StoredEntry>

  function StoredResult(r: TaskResult): StoredEntry {
    StoredEntry(Some(ValueOf(r.outcome)), Some(r.detail))
  }

  /** `CoverageReport.to_json`: each result under its own name. */
  function StoredReport(results: seq<TaskResult>): StoredCoverage {
    if results == [] then map[]
    else
      var r := results[|results| - 1];
      StoredReport(results[..|results| - 1])[NameOf(r) := StoredResult(r)]
  }

  predicate IsGap(e: StoredEntry) {
    e.outcome.Some? && e.outcome.value != "" && e.outcome.value != "COMPLETE"
  }

  function GapReason(e: StoredEntry): string
    requires IsGap(e)
  {
    if e.detail.Some? && e.detail.value != "" then e.detail.value else Lower(e.outcome.value)
  }

  function Gaps(coverage: StoredCoverage): map<string, string> {
    map k | k in coverage && IsGap(coverage[k]) :: GapReason(coverage[k])
  }

  /** `_gaps_from_coverage`, over the entries in any order. */
  method GapsFromCoverage(coverage: StoredCoverage) returns (gaps: map<string, string>)
    ensures gaps == Gaps(coverage)
    ensures forall k :: k in gaps <==>
              k in coverage && coverage[k].outcome !in {None, Some(""), Some("COMPLETE")}
    ensures forall k :: k in gaps ==>
              gaps[k] == if coverage[k].detail in {None, Some("")} then Lower(coverage[k].outcome.value)
                         else coverage[k].detail.value
  {
    gaps := map[];
    var left := coverage.Keys;
    while left != {}
      invariant left <= coverage.Keys
      invariant gaps == map k | k in coverage && k !in left && IsGap(coverage[k]) :: GapReason(coverage[k])
    {
      var k :| k in left;
      if IsGap(coverage[k]) {
        gaps := gaps[k := GapReason(coverage[k])];
      }
      left := left - {k};
    }
  }

  // ---------------------------------------------------------------- gaps and problems agree

  ghost predicate Regional(r: TaskResult) {
    r.region.Some? && r.region.value != ""
  }

  ghost predicate DistinctlyNamed(results: seq<TaskResult>) {
    forall r, other :: r in results && other in results && NameOf(r) == NameOf(other) ==> r == other
  }

  lemma {:induction false} StoredUnder(results: seq<TaskResult>, name: string)
    ensures name in StoredReport(results) ==>
              exists r :: r in results && NameOf(r) == name && StoredReport(results)[name] == StoredResult(r)
    ensures (exists r :: r in results && NameOf(r) == name) ==> name in StoredReport(results)
  {
    if results != [] {
      var rest, r := results[..|results| - 1], results[|results| - 1];
      StoredUnder(rest, name);
      assert forall x :: x in results <==> x in rest || x == r;
    }
  }

  lemma LoweredValue(o: Outcome)
    ensures Lower(ValueOf(o)) == Lowered(o)
  {
  }

  lemma GapOfResult(results: seq<TaskResult>, r: TaskResult)
    requires DistinctlyNamed(results) && r in results
    ensures NameOf(r) in StoredReport(results) && StoredReport(results)[NameOf(r)] == StoredResult(r)
    ensures NameOf(r) in Gaps(StoredReport(results)) <==> !IsTrustworthy(r)
    ensures !IsTrustworthy(r) ==> Gaps(StoredReport(results))[NameOf(r)] == Reason(r)
  {
    StoredUnder(results, NameOf(r));
    LoweredValue(r.outcome);
    assert forall o :: ValueOf(o) != "" && (ValueOf(o) == "COMPLETE" <==> o == COMPLETE);
  }

  /** Of several untrustworthy regional readings, one has a key at least as long as any. */
  lemma {:induction false} LongestRegional(results: seq<TaskResult>) returns (r: TaskResult)
    requires exists x :: x in results && !IsTrustworthy(x) && Regional(x)
    ensures r in results && !IsTrustworthy(r) && Regional(r)
    ensures forall x :: x in results && !IsTrustworthy(x) && Regional(x) ==> |x.key| <= |r.key|
  {
    var rest, last := results[..|results| - 1], results[|results| - 1];
    assert forall x :: x in results <==> x in rest || x == last;
    if exists x :: x in rest && !IsTrustworthy(x) && Regional(x) {
      r := LongestRegional(rest);
      if !IsTrustworthy(last) && Regional(last) && |last.key| > |r.key| {
        r := last;
      }
    } else {
      r := last;
    }
  }

  /** A regional reading that failed is filed under its scoped name, which no problem key is. */
  lemma RegionalGapIsNoProblem(results: seq<TaskResult>)
    requires DistinctlyNamed(results)
    requires exists x :: x in results && !IsTrustworthy(x) && Regional(x)
    ensures Gaps(StoredReport(results)) != Problems(results)
  {
    var r := LongestRegional(results);
    GapOfResult(results, r);
    ScopedNameIsNoProblem(results, r);
  }

  lemma ScopedNameIsNoProblem(results: seq<TaskResult>, r: TaskResult)
    requires DistinctlyNamed(results) && r in results && Regional(r)
    requires forall x :: x in results && !IsTrustworthy(x) && Regional(x) ==> |x.key| <= |r.key|
    ensures !IsProblem(results, NameOf(r))
  {
    ProblemWitness(results, NameOf(r));
    forall x | x in results && x.key == NameOf(r)
      ensures IsTrustworthy(x)
    {
      assert |x.key| > |r.key|;
      assert !Regional(x) ==> NameOf(x) == NameOf(r);
    }
  }

  lemma {:induction false} OnlyReason(results: seq<TaskResult>, r: TaskResult)
    requires r in results && !IsTrustworthy(r)
    requires forall i, j :: 0 <= i < j < |results| ==> results[i] != results[j]
    requires forall x :: x in results && x.key == r.key && !IsTrustworthy(x) ==> x == r
    ensures Reasons(results, r.key) == [Said(r)]
  {
    var rest, last := results[..|results| - 1], results[|results| - 1];
    assert forall x :: x in results <==> x in rest || x == last;
    if r in rest {
      OnlyReason(rest, r);
    } else {
      NoReason(rest, r.key);
    }
  }

  lemma {:induction false} NoReason(results: seq<TaskResult>, key: Key)
    requires forall x :: x in results && x.key == key ==> IsTrustworthy(x)
    ensures Reasons(results, key) == []
  {
    if results != [] {
      var rest := results[..|results| - 1];
      assert forall x :: x in rest ==> x in results;
      NoReason(rest, key);
    }
  }

  lemma GlobalGapsAreProblems(results: seq<TaskResult>)
    requires DistinctNames(results)
    requires forall x :: x in results && !IsTrustworthy(x) ==> !Regional(x)
    ensures Gaps(StoredReport(results)) == Problems(results)
  {
    NamesDistinguish(results);
    var gaps, problems := Gaps(StoredReport(results)), Problems(results);
    forall k
      ensures k in gaps <==> k in problems
      ensures k in gaps ==> gaps[k] == problems[k]
    {
      ProblemWitness(results, k);
      if k in gaps {
        StoredUnder(results, k);
        var r :| r in results && NameOf(r) == k && StoredReport(results)[k] == StoredResult(r);
        GapOfResult(results, r);
        assert r.key == k;
        GlobalReason(results, r);
      }
      if k in problems {
        var r :| r in results && r.key == k && !IsTrustworthy(r);
        GapOfResult(results, r);
      }
    }
  }

  lemma GlobalReason(results: seq<TaskResult>, r: TaskResult)
    requires DistinctNames(results) && r in results && !IsTrustworthy(r)
    requires forall x :: x in results && !IsTrustworthy(x) ==> !Regional(x)
    ensures Joined(Reasons(results, r.key)) == Reason(r)
  {
    NamesDistinguish(results);
    forall i, j | 0 <= i < j < |results|
      ensures results[i] != results[j]
    {
      assert NameOf(results[i]) != NameOf(results[j]);
    }
    OnlyReason(results, r);
  }

  lemma NamesDistinguish(results: seq<TaskResult>)
    requires DistinctNames(results)
    ensures DistinctlyNamed(results)
  {
    forall r, other | r in results && other in results && NameOf(r) == NameOf(other)
      ensures r == other
    {
      var i :| 0 <= i < |results| && results[i] == r;
      var j :| 0 <= j < |results| && results[j] == other;
      assert NameOf(results[i]) == NameOf(results[j]);
    }
  }

  /** Gaps rebuilt from a report's stored coverage are its problems, reasons included, exactly when every reading that
      cannot be relied on is global. */
  lemma GapsAreProblemsExactlyWhenGlobal(results: seq<TaskResult>)
    requires DistinctNames(results)
    ensures Gaps(StoredReport(results)) == Problems(results) <==>
            forall r :: r in results && !IsTrustworthy(r) ==> !Regional(r)
  {
    if forall r :: r in results && !IsTrustworthy(r) ==> !Regional(r) {
      GlobalGapsAreProblems(results);
    } else {
      NamesDistinguish(results);
      RegionalGapIsNoProblem(results);
    }
  }

  // ---------------------------------------------------------------- the snapshot

  /** An instant, and the zone offset it was written with; none for a naive datetime. */
  datatype Moment = Moment(instant: int, offset: Option<int>)

  datatype Provider = AZURE | AWS | GCP

  datatype CollectionScope = ACCOUNT | DIRECTORY

  datatype Snapshot = Snapshot(provider: Provider, tenantId: string, subscriptionId: Option<string>,
                               scope: CollectionScope, collectedAt: Moment, version: string, data: Payload,
                               errors: map<string, string>, gaps: map<string, string>, coverage: StoredCoverage,
                               payloads: map<string, Payload>)

  /** The stored form. A field is absent from captures older than it. */
  datatype Stored = Stored(provider: string, tenantId: string, subscriptionId: Option<string>, scope: Option<string>,
                           collectedAt: Option<string>, version: Option<string>, data: Option<Payload>,
                           errors: Option<map<string, string>>, gaps: Option<map<string, string>>,
                           coverage: Option<StoredCoverage>)

  /** `isoformat` and `fromisoformat`, which the standard library provides. */
  datatype Clock = Clock(iso: Moment -> string, parse: string -> Option<Moment>)

  function ProviderValue(p: Provider): string {
    match p
    case AZURE => "azure"
    case AWS => "aws"
    case GCP => "gcp"
  }

  function ProviderOf(value: string): Option<Provider> {
    if value == "azure" then Some(AZURE)
    else if value == "aws" then Some(AWS)
    else if value == "gcp" then Some(GCP) else None
  }

  function ScopeValue(s: CollectionScope): string {
    match s
    case ACCOUNT => "account"
    case DIRECTORY => "directory"
  }

  function ScopeOfValue(value: string): Option<CollectionScope> {
    if value == "account" then Some(ACCOUNT) else if value == "directory" then Some(DIRECTORY) else None
  }

  function ToJson(s: Snapshot, clock: Clock): Stored {
    Stored(ProviderValue(s.provider), s.tenantId, s.subscriptionId, Some(ScopeValue(s.scope)),
           Some(clock.iso(s.collectedAt)), Some(s.version), Some(s.data), Some(s.errors), Some(s.gaps),
           Some(s.coverage))
  }

  function OrEmpty<K, V>(m: Option<map<K, V>>): map<K, V> {
    if m.Some? then m.value else map[]
  }

  function CollectedAt(raw: Option<string>, clock: Clock, now: Moment): Moment {
    if raw.None? || raw.value == "" then now
    else match clock.parse(raw.value)
      case None => now
      case Some(m) => if m.offset.Some? then m else m.(offset := Some(0))
  }

  /** Refuses a provider or scope it does not know. */
  function FromJson(stored: Stored, clock: Clock, now: Moment): Option<Snapshot> {
    var provider := ProviderOf(stored.provider);
    var scope := if stored.scope.Some? then ScopeOfValue(stored.scope.value) else Some(ACCOUNT);
    if provider.None? || scope.None? then None
    else
      Some(Snapshot(provider.value, stored.tenantId, stored.subscriptionId, scope.value,
                    CollectedAt(stored.collectedAt, clock, now),
                    if stored.version.Some? then stored.version.value else "1.0",
                    OrEmpty(stored.data), OrEmpty(stored.errors),
                    if OrEmpty(stored.gaps) != map[] then OrEmpty(stored.gaps) else Gaps(OrEmpty(stored.coverage)),
                    OrEmpty(stored.coverage), map[]))
  }

  /** A stored form is refused exactly when it names a provider or a scope there is none of. */
  lemma RefusedWhenUnknown(stored: Stored, clock: Clock, now: Moment)
    ensures FromJson(stored, clock, now) == None <==>
            || stored.provider !in {"azure", "aws", "gcp"}
            || stored.scope !in {None, Some("account"), Some("directory")}
  {
  }

  /** A capture that lacks a field replays as one that has it: of an account, at version 1.0, with nothing in it. */
  lemma AbsentFieldsReadAs(s: Snapshot, clock: Clock, now: Moment)
    ensures
      var whole := ToJson(s, clock);
      && FromJson(whole.(scope := None), clock, now) == FromJson(ToJson(s.(scope := ACCOUNT), clock), clock, now)
      && FromJson(whole.(version := None), clock, now) == FromJson(ToJson(s.(version := "1.0"), clock), clock, now)
      && FromJson(whole.(data := None), clock, now) == FromJson(ToJson(s.(data := map[]), clock), clock, now)
      && FromJson(whole.(errors := None), clock, now) == FromJson(ToJson(s.(errors := map[]), clock), clock, now)
      && FromJson(whole.(gaps := None), clock, now) == FromJson(ToJson(s.(gaps := map[]), clock), clock, now)
      && FromJson(whole.(coverage := None), clock, now) == FromJson(ToJson(s.(coverage := map[]), clock), clock, now)
  {
    ReadsBack(s, clock);
  }

  lemma ReadsBack(s: Snapshot, clock: Clock)
    ensures ProviderOf(ToJson(s, clock).provider) == Some(s.provider)
    ensures ScopeOfValue(ScopeValue(s.scope)) == Some(s.scope) && ScopeOfValue(ScopeValue(ACCOUNT)) == Some(ACCOUNT)
  {
  }

  /** The moment of a capture is the one recorded, read as UTC where it names no zone; and now, where none was recorded
      or none can be read. */
  lemma MomentReadAs(stored: Stored, clock: Clock, now: Moment)
    requires FromJson(stored, clock, now).Some?
    ensures
      var at := FromJson(stored, clock, now).value.collectedAt;
      if stored.collectedAt in {None, Some("")} || clock.parse(stored.collectedAt.value) == None then at == now
      else at == clock.parse(stored.collectedAt.value).value || (
             clock.parse(stored.collectedAt.value).value.offset == None
             && at == clock.parse(stored.collectedAt.value).value.(offset := Some(0)))
    ensures stored.collectedAt.Some? && stored.collectedAt.value != ""
            && clock.parse(stored.collectedAt.value).Some? ==>
              FromJson(stored, clock, now).value.collectedAt.offset.Some?
  {
  }

  /** A snapshot comes back from its stored form whole, but for the payloads that are never stored, exactly when it
      names its zone and either lists a gap or has none in its coverage to list. */
  lemma RoundTripsExactly(s: Snapshot, clock: Clock, now: Moment)
    requires clock.parse(clock.iso(s.collectedAt)) == Some(s.collectedAt) && clock.iso(s.collectedAt) != ""
    ensures FromJson(ToJson(s, clock), clock, now) == Some(s.(payloads := map[])) <==>
            s.collectedAt.offset.Some? && (s.gaps != map[] || forall k :: k in s.coverage ==> !IsGap(s.coverage[k]))
  {
    var back := FromJson(ToJson(s, clock), clock, now);
    assert ProviderOf(ProviderValue(s.provider)) == Some(s.provider);
    assert ScopeOfValue(ScopeValue(s.scope)) == Some(s.scope);
    assert back.Some?;
    assert s.gaps == map[] ==> back.value.gaps == Gaps(s.coverage);
    if k :| k in s.coverage && IsGap(s.coverage[k]) {
      assert k in Gaps(s.coverage);
    } else {
      assert Gaps(s.coverage) == map[];
    }
  }

  /** A capture stored before gaps were recorded replays with the problems of the report it came from, when every
      reading that cannot be relied on was global. */
  lemma OldCapturesDegradeTheSameRules(stored: Stored, results: seq<TaskResult>, clock: Clock, now: Moment)
    requires DistinctNames(results) && stored.coverage == Some(StoredReport(results)) && OrEmpty(stored.gaps) == map[]
    requires FromJson(stored, clock, now).Some?
    ensures FromJson(stored, clock, now).value.gaps == Problems(results) <==>
            forall r :: r in results && !IsTrustworthy(r) ==> !Regional(r)
  {
    GapsAreProblemsExactlyWhenGlobal(results);
  }
}
