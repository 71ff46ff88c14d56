/** `TaskResult` and `CoverageReport`: what a run saw, and which of it can be relied on. */
module Coverage {
  import opened Wrappers
  import opened Tasks

  datatype Outcome = COMPLETE | PARTIAL | FAILED | SKIPPED | UNAVAILABLE

  function Lowered(o: Outcome): string {
    match o
    case COMPLETE => "complete"
    case PARTIAL => "partial"
    case FAILED => "failed"
    case SKIPPED => "skipped"
    case UNAVAILABLE => "unavailable"
  }

  datatype TaskResult = TaskResult(key: Key, region: Option<string>, outcome: Outcome, detail: string,
                                   itemCount: nat, carriedFrom: Option<int>)

  predicate IsTrustworthy(r: TaskResult) {
    r.outcome == COMPLETE
  }

  function NameOf(r: TaskResult): string {
    Scope(r.key, r.region)
  }

  ghost predicate DistinctNames(results: seq<TaskResult>) {
    forall i, j :: 0 <= i < j < |results| ==> NameOf(results[i]) != NameOf(results[j])
  }

  /** Whether the run produced any reading of a key. */
  predicate Saw(results: seq<TaskResult>, key: Key) {
    exists r :: r in results && r.key == key
  }

  /** Whether every reading of a key can be relied on, and there is one. */
  predicate KeyIsTrustworthy(results: seq<TaskResult>, key: Key) {
    Saw(results, key) && forall r :: r in results && r.key == key ==> IsTrustworthy(r)
  }

  /** The results dictionary after one more result: an entry of the same name is replaced in place. */
  function Put(results: seq<TaskResult>, r: TaskResult): (all: seq<TaskResult>)
    ensures (forall i :: 0 <= i < |results| ==> NameOf(results[i]) != NameOf(r)) ==> all == results + [r]
  {
    if results == [] then [r]
    else if NameOf(results[0]) == NameOf(r) then [r] + results[1..]
    else [results[0]] + Put(results[1..], r)
  }

  /** A second result of one name takes the place of the first, and no other result moves. */
  lemma {:induction false} PutReplaces(results: seq<TaskResult>, r: TaskResult, i: nat)
    requires i < |results| && NameOf(results[i]) == NameOf(r)
    requires forall j :: 0 <= j < i ==> NameOf(results[j]) != NameOf(r)
    ensures Put(results, r) == results[i := r]
  {
    if i > 0 {
      var rest := results[1..];
      forall j | 0 <= j < i - 1
        ensures NameOf(rest[j]) != NameOf(r)
      {
        assert rest[j] == results[j + 1];
      }
      assert rest[i - 1] == results[i] && NameOf(results[0]) != NameOf(r);
      PutReplaces(rest, r, i - 1);
      UpdatedLater(results, i, r);
    }
  }

  lemma UpdatedLater<T>(s: seq<T>, i: nat, x: T)
    requires 0 < i < |s|
    ensures s[i := x] == [s[0]] + s[1..][i - 1 := x]
  {
  }

  // ---------------------------------------------------------------- key_problems

  function Reason(r: TaskResult): string {
    if r.detail != "" then r.detail else Lowered(r.outcome)
  }

  /** A region names itself inside the reason; the problem is filed under the bare key. */
  function Said(r: TaskResult): string {
    if r.region.Some? && r.region.value != "" then r.region.value + ": " + Reason(r) else Reason(r)
  }

  function Reasons(results: seq<TaskResult>, key: Key): seq<string> {
    if results == [] then []
    else
      var r := results[|results| - 1];
      Reasons(results[..|results| - 1], key) + if !IsTrustworthy(r) && r.key == key then [Said(r)] else []
  }

  function Joined(parts: seq<string>): string {
    if parts == [] then ""
    else if |parts| == 1 then parts[0]
    else parts[0] + "; " + Joined(parts[1..])
  }

  ghost predicate IsProblem(results: seq<TaskResult>, key: Key) {
    Saw(results, key) && !KeyIsTrustworthy(results, key)
  }

  /** Why each problem key cannot be relied on. */
  ghost function Problems(results: seq<TaskResult>): map<Key, string> {
    map k | k in (set r | r in results :: r.key) && IsProblem(results, k) :: Joined(Reasons(results, k))
  }

  ghost predicate Tallied(found: map<Key, seq<string>>, results: seq<TaskResult>) {
    forall k :: TalliedAt(found, results, k)
  }

  ghost predicate TalliedAt(found: map<Key, seq<string>>, results: seq<TaskResult>, k: Key) {
    if k in found then found[k] == Reasons(results, k) != [] else Reasons(results, k) == []
  }

  /** `key_problems` names exactly the keys seen and not trustworthy, each with all its reasons in order. */
  method KeyProblems(results: seq<TaskResult>) returns (problems: map<Key, string>)
    ensures forall k :: k in problems <==> IsProblem(results, k)
    ensures problems == Problems(results)
  {
    var found: map<Key, seq<string>> := map[];
    for i := 0 to |results|
      invariant Tallied(found, results[..i])
    {
      var r := results[i];
      assert results[..i + 1] == results[..i] + [r];
      TallyOne(found, results[..i], r);
      if IsTrustworthy(r) {
        continue;
      }
      found := found[r.key := (if r.key in found then found[r.key] else []) + [Said(r)]];
    }
    assert results[..|results|] == results;
    problems := map k | k in found :: Joined(found[k]);
    ProblemsAreTallied(found, results);
  }

  lemma TallyOne(found: map<Key, seq<string>>, results: seq<TaskResult>, r: TaskResult)
    requires Tallied(found, results)
    ensures IsTrustworthy(r) ==> Tallied(found, results + [r])
    ensures !IsTrustworthy(r) ==>
              Tallied(found[r.key := (if r.key in found then found[r.key] else []) + [Said(r)]], results + [r])
  {
    assert (results + [r])[..|results|] == results;
    var more := if IsTrustworthy(r) then found
                else found[r.key := (if r.key in found then found[r.key] else []) + [Said(r)]];
    forall k
      ensures TalliedAt(more, results + [r], k)
    {
      assert TalliedAt(found, results, k);
    }
  }

  lemma ProblemsAreTallied(found: map<Key, seq<string>>, results: seq<TaskResult>)
    requires Tallied(found, results)
    ensures forall k :: k in found <==> IsProblem(results, k)
    ensures (map k | k in found :: Joined(found[k])) == Problems(results)
  {
    forall k
      ensures k in found <==> IsProblem(results, k)
      ensures k in found ==> found[k] == Reasons(results, k)
      ensures k in Problems(results) <==> IsProblem(results, k)
    {
      assert TalliedAt(found, results, k);
      ReasonsOfProblem(results, k);
    }
  }

  lemma {:induction false} JoinedInTwo(parts: seq<string>, part: string)
    requires parts != []
    ensures Joined(parts + [part]) == Joined(parts) + "; " + part
  {
    var all := parts + [part];
    if |parts| == 1 {
      assert all[1..] == [part];
    } else {
      JoinedInTwo(parts[1..], part);
      assert all[1..] == parts[1..] + [part] && all[0] == parts[0];
      Regrouped(parts[0] + "; ", Joined(parts[1..]), "; " + part);
    }
  }

  lemma Regrouped(a: string, b: string, c: string)
    ensures a + (b + c) == (a + b) + c
  {
  }

  ghost function WithRegion(region: Option<string>, reason: string): string {
    if region == None || region == Some("") then reason else region.value + ": " + reason
  }

  /** What is said of a key, if it is a problem. */
  ghost function ToldOf(results: seq<TaskResult>, key: Key): Option<string> {
    if key in Problems(results) then Some(Problems(results)[key]) else None
  }

  /** One more result adds its own reason to what is said of its key, after the others: its detail, or its outcome where
      it has none, the region first where it is of one. A trustworthy result says nothing, and no other key hears of
      it. */
  lemma ProblemsOneMore(results: seq<TaskResult>, r: TaskResult, key: Key)
    ensures
      var said := WithRegion(r.region, if r.detail != "" then r.detail else Lowered(r.outcome));
      ToldOf(results + [r], key) ==
      if r.outcome == COMPLETE || r.key != key then ToldOf(results, key)
      else Some(if ToldOf(results, key).Some? then ToldOf(results, key).value + "; " + said else said)
  {
    var said := WithRegion(r.region, if r.detail != "" then r.detail else Lowered(r.outcome));
    ReasonsOneMore(results, r, key);
    ToldIs(results, key);
    ToldIs(results + [r], key);
    TextOneMore(Reasons(results, key), said, r.outcome != COMPLETE && r.key == key);
  }

  ghost function TextOf(parts: seq<string>): Option<string> {
    if parts == [] then None else Some(Joined(parts))
  }

  lemma TextOneMore(parts: seq<string>, said: string, adds: bool)
    ensures TextOf(parts + if adds then [said] else []) ==
            if !adds then TextOf(parts)
            else Some(if TextOf(parts).Some? then TextOf(parts).value + "; " + said else said)
  {
    assert parts + [] == parts;
    if parts != [] { JoinedInTwo(parts, said); }
  }

  lemma ReasonsOneMore(results: seq<TaskResult>, r: TaskResult, key: Key)
    ensures
      var said := WithRegion(r.region, if r.detail != "" then r.detail else Lowered(r.outcome));
      Reasons(results + [r], key) ==
      Reasons(results, key) + if r.outcome != COMPLETE && r.key == key then [said] else []
  {
    assert (results + [r])[..|results|] == results;
  }

  lemma ToldIs(results: seq<TaskResult>, key: Key)
    ensures ToldOf(results, key) == TextOf(Reasons(results, key))
  {
    ReasonsOfProblem(results, key);
  }

  lemma {:induction false} ReasonsOfProblem(results: seq<TaskResult>, key: Key)
    ensures IsProblem(results, key) <==> Reasons(results, key) != []
  {
    ProblemWitness(results, key);
    if results != [] {
      var rest, r := results[..|results| - 1], results[|results| - 1];
      ReasonsOfProblem(rest, key);
      ProblemWitness(rest, key);
      assert forall x :: x in results <==> x in rest || x == r;
    }
  }

  lemma ProblemWitness(results: seq<TaskResult>, key: Key)
    ensures IsProblem(results, key) <==> exists r :: r in results && r.key == key && !IsTrustworthy(r)
  {
  }
}
