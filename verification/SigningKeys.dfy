/** The published signing keys: one fetch at a time, rarely, and the last set kept when one fails. */
module SigningKeys {
  import opened Wrappers

  const LIFESPAN := 300.0
  const MIN_REFRESH := 30.0

  datatype Use = Signing | Encryption | Unstated

  /** A key as published; its id is empty where none was given. */
  datatype Jwk = Jwk(keyId: string, use: Use, material: string)

  /** What the object holds; `locked` while a call awaits a fetch. */
  datatype Cache = Cache(keys: map<string, Jwk>, fetchedAt: Option<real>, attemptedAt: Option<real>, locked: bool)

  predicate Stale(fetchedAt: Option<real>, now: real) {
    fetchedAt.None? || now - fetchedAt.value >= LIFESPAN
  }

  predicate MayFetch(attemptedAt: Option<real>, now: real) {
    attemptedAt.None? || now - attemptedAt.value >= MIN_REFRESH
  }

  /** The usable keys of a published set, the last of each id. */
  function Usable(jwks: seq<Jwk>): (r: map<string, Jwk>)
    ensures forall id :: id in r ==> r[id] in jwks && r[id].keyId == id && id != "" && r[id].use != Encryption
    ensures forall k :: k in jwks && k.keyId != "" && k.use != Encryption ==> k.keyId in r
  {
    if jwks == [] then map[]
    else
      var rest, last := Usable(jwks[..|jwks| - 1]), jwks[|jwks| - 1];
      assert jwks == jwks[..|jwks| - 1] + [last];
      if last.keyId != "" && last.use != Encryption then rest[last.keyId := last] else rest
  }

  predicate IsUsable(k: Jwk) {
    k.keyId != "" && k.use != Encryption
  }

  /** Of several usable keys with one id the last is kept. */
  lemma {:induction false} LastOfEachId(jwks: seq<Jwk>, i: nat)
    requires i < |jwks| && IsUsable(jwks[i])
    requires forall j :: i < j < |jwks| && IsUsable(jwks[j]) ==> jwks[j].keyId != jwks[i].keyId
    ensures Held(Usable(jwks), jwks[i].keyId) == Some(jwks[i])
  {
    if i < |jwks| - 1 {
      assert jwks[..|jwks| - 1][i] == jwks[i];
      LastOfEachId(jwks[..|jwks| - 1], i);
    }
  }

  function Held(keys: map<string, Jwk>, kid: string): Option<Jwk> {
    if kid in keys then Some(keys[kid]) else None
  }

  /** A key answered at once: fresh, or being read again by another call. */
  predicate AnswersAtOnce(c: Cache, kid: string, now: real) {
    kid in c.keys && (!Stale(c.fetchedAt, now) || c.locked)
  }

  predicate NeedsFetch(c: Cache, kid: string, now: real) {
    (kid !in c.keys || Stale(c.fetchedAt, now)) && MayFetch(c.attemptedAt, now)
  }

  /** The lock held, an attempt recorded. */
  function Attempting(c: Cache, now: real): Cache {
    c.(attemptedAt := Some(now), locked := true)
  }

  /** The set replaced, dated from when its fetch began, and the lock let go. */
  function Refreshed(c: Cache, since: real, jwks: seq<Jwk>): Cache {
    c.(keys := Usable(jwks), fetchedAt := Some(since), locked := false)
  }

  function LetGo(c: Cache): Cache {
    c.(locked := false)
  }

  /** The object, its methods the stretches of `get` between one await and the next. */
  class Keys {
    var keys: map<string, Jwk>
    var fetchedAt: Option<real>
    var attemptedAt: Option<real>
    var locked: bool

    ghost function State(): Cache
      reads this
    {
      Cache(keys, fetchedAt, attemptedAt, locked)
    }

    constructor ()
      ensures State() == Cache(map[], None, None, false)
    {
      keys, fetchedAt, attemptedAt, locked := map[], None, None, false;
    }

    /** From the start of `get` to the lock. */
    method Look(kid: string, now: real) returns (key: Option<Jwk>)
      ensures key == if AnswersAtOnce(State(), kid, now) then Some(keys[kid]) else None
    {
      key := Held(keys, kid);
      if key.Some? && (!Stale(fetchedAt, now) || locked) {
        return;
      }
      key := None;
    }

    /** The lock taken: either a fetch begins, or the call answers and lets go. */
    method Enter(kid: string, now: real) returns (fetching: bool, key: Option<Jwk>)
      requires !locked
      modifies this
      ensures fetching == NeedsFetch(old(State()), kid, now)
      ensures State() == if fetching then Attempting(old(State()), now) else old(State())
      ensures !fetching ==> key == Held(old(keys), kid)
    {
      key := Held(keys, kid);
      fetching := (key.None? || Stale(fetchedAt, now)) && MayFetch(attemptedAt, now);
      if fetching {
        attemptedAt, locked := Some(now), true;
      }
    }

    /** A fetch that answered: the set is replaced, and dated from when the fetch began. */
    method Succeed(kid: string, since: real, jwks: seq<Jwk>) returns (key: Option<Jwk>)
      requires locked
      modifies this
      ensures State() == Refreshed(old(State()), since, jwks)
      ensures key == Held(Usable(jwks), kid)
    {
      keys, fetchedAt := Usable(jwks), Some(since);
      key := Held(keys, kid);
      locked := false;
    }

    /** A fetch that failed, or was cancelled: the last set is kept. */
    method Fail(kid: string) returns (key: Option<Jwk>)
      requires locked
      modifies this
      ensures State() == LetGo(old(State()))
      ensures key == Held(old(keys), kid)
    {
      key := Held(keys, kid);
      locked := false;
    }
  }

  // ---------------------------------------------------------------- every interleaving of calls

  datatype Phase = Waiting(kid: string) | Fetching(kid: string, since: real)

  datatype Fetch = Fetch(at: real, keys: map<string, Jwk>)

  /** An answer, and what was so when it was given. */
  datatype Answer = Answer(kid: string, key: Option<Jwk>, at: real, fetchedAt: Option<real>, sets: nat, inFlight: bool,
                           failedAt: Option<real>, ownSince: Option<real>, attemptedAt: Option<real>)

  /** The cache, the calls in progress, the clock, and what happened so far. */
  datatype Run = Run(cache: Cache, calls: map<nat, Phase>, clock: real, attempts: seq<real>, fetches: seq<Fetch>,
                     failedAt: Option<real>, answers: seq<Answer>)

  datatype Event = Tick(now: real) | Ask(call: nat, kid: string) | Enter(call: nat) | Succeed(call: nat, jwks: seq<Jwk>)
                 | Fail(call: nat) | Cancel(call: nat)

  const START := Run(Cache(map[], None, None, false), map[], 0.0, [], [], None, [])

  function Answered(s: Run, kid: string, own: Option<real>): Run {
    s.(answers := s.answers + [Answer(kid, Held(s.cache.keys, kid), s.clock, s.cache.fetchedAt, |s.fetches|,
                                      exists c :: c in s.calls && s.calls[c].Fetching?, s.failedAt, own,
                                      s.cache.attemptedAt)])
  }

  predicate Enabled(s: Run, e: Event) {
    match e
    case Tick(now) => now >= s.clock
    case Ask(call, _) => call !in s.calls
    case Enter(call) => call in s.calls && s.calls[call].Waiting? && !s.cache.locked
    case Succeed(call, _) => call in s.calls && s.calls[call].Fetching?
    case Fail(call) => call in s.calls && s.calls[call].Fetching?
    case Cancel(call) => call in s.calls
  }

  function Next(s: Run, e: Event): Run
    requires Enabled(s, e)
  {
    match e
    case Tick(now) => s.(clock := now)
    case Ask(call, kid) =>
      if AnswersAtOnce(s.cache, kid, s.clock) then Answered(s, kid, None)
      else s.(calls := s.calls[call := Waiting(kid)])
    case Enter(call) =>
      var kid := s.calls[call].kid;
      if NeedsFetch(s.cache, kid, s.clock) then
        s.(cache := Attempting(s.cache, s.clock),
           calls := s.calls[call := Fetching(kid, s.clock)], attempts := s.attempts + [s.clock])
      else Answered(s.(calls := s.calls - {call}), kid, None)
    case Succeed(call, jwks) =>
      var kid, since := s.calls[call].kid, s.calls[call].since;
      Answered(s.(cache := Refreshed(s.cache, since, jwks),
                  calls := s.calls - {call}, fetches := s.fetches + [Fetch(since, Usable(jwks))]), kid, Some(since))
    case Fail(call) =>
      var kid := s.calls[call].kid;
      Answered(s.(cache := LetGo(s.cache), calls := s.calls - {call}, failedAt := Some(s.clock)), kid, None)
    case Cancel(call) =>
      if s.calls[call].Waiting? then s.(calls := s.calls - {call})
      else s.(cache := LetGo(s.cache), calls := s.calls - {call}, failedAt := Some(s.clock))
  }

  ghost predicate Happens(s: Run, events: seq<Event>, t: Run)
    decreases |events|
  {
    if events == [] then t == s
    else
      var before, last := events[..|events| - 1], events[|events| - 1];
      exists mid :: Happens(s, before, mid) && Follows(mid, last, t)
  }

  ghost predicate Follows(s: Run, e: Event, t: Run) {
    Enabled(s, e) && t == Next(s, e)
  }

  // ---------------------------------------------------------------- what every interleaving keeps

  /** One fetch at most is in flight, by the call that holds the lock. */
  ghost predicate OneInFlight(s: Run) {
    && (s.cache.locked <==> exists c :: c in s.calls && s.calls[c].Fetching?)
    && (forall c, d :: c in s.calls && d in s.calls && s.calls[c].Fetching? && s.calls[d].Fetching? ==> c == d)
    && (forall c :: c in s.calls && s.calls[c].Fetching? ==> s.cache.attemptedAt == Some(s.calls[c].since))
  }

  ghost predicate Apart(attempts: seq<real>) {
    forall i, j :: 0 <= i < j < |attempts| ==> attempts[j] - attempts[i] >= MIN_REFRESH * (j - i) as real
  }

  /** Attempts are at least 30 seconds apart, the last of them the one recorded. */
  ghost predicate Spaced(s: Run) {
    && Apart(s.attempts)
    && (forall i :: 0 <= i < |s.attempts| ==> s.attempts[i] <= s.clock)
    && s.cache.attemptedAt == if s.attempts == [] then None else Some(s.attempts[|s.attempts| - 1])
  }

  /** The keys held, and their date, are those of the last fetch that succeeded. */
  ghost predicate LastSet(s: Run) {
    && s.cache.keys == KeysAfter(s.fetches)
    && s.cache.fetchedAt == DateAfter(s.fetches)
  }

  /** When the last fetch that succeeded began. */
  function DateAfter(fetches: seq<Fetch>): Option<real> {
    if fetches == [] then None else Some(fetches[|fetches| - 1].at)
  }

  function KeysAfter(fetches: seq<Fetch>): map<string, Jwk> {
    if fetches == [] then map[] else fetches[|fetches| - 1].keys
  }

  /** An attempt either still runs, or succeeded, or failed since it began. */
  ghost predicate AttemptsEnd(s: Run) {
    && (s.failedAt.Some? ==> s.failedAt.value <= s.clock)
    && (s.cache.attemptedAt.Some? && !s.cache.locked ==>
          s.cache.fetchedAt == s.cache.attemptedAt
          || (s.failedAt.Some? && s.failedAt.value >= s.cache.attemptedAt.value))
  }

  /** A key of a set older than 300 seconds, given only as the design allows. */
  ghost predicate Allowed(a: Answer) {
    a.key.Some? && Stale(a.fetchedAt, a.at) ==>
      || a.inFlight
      || (a.failedAt.Some? && a.at - a.failedAt.value < MIN_REFRESH)
      || (a.ownSince.Some? && a.at - a.ownSince.value >= LIFESPAN)
  }

  /** No key is given for an id only once the published set was just read, or could not be, or was asked for within 30
      seconds. */
  ghost predicate Looked(a: Answer) {
    a.key.None? ==>
      || a.ownSince.Some? || a.failedAt == Some(a.at)
      || (a.attemptedAt.Some? && a.at - a.attemptedAt.value < MIN_REFRESH)
  }

  ghost predicate AnswersAreGood(s: Run) {
    forall i :: 0 <= i < |s.answers| ==> GoodAnswer(s, s.answers[i])
  }

  ghost predicate GoodAnswer(s: Run, a: Answer) {
    && Allowed(a) && Looked(a) && a.sets <= |s.fetches|
    && a.key == Held(KeysAfter(s.fetches[..a.sets]), a.kid) && a.fetchedAt == DateAfter(s.fetches[..a.sets])
    && (a.ownSince.Some? ==> a.fetchedAt == a.ownSince)
  }

  ghost predicate Inv(s: Run) {
    OneInFlight(s) && Spaced(s) && LastSet(s) && AttemptsEnd(s) && AnswersAreGood(s)
  }

  lemma KeepsOneInFlight(s: Run, e: Event)
    requires OneInFlight(s) && Enabled(s, e)
    ensures OneInFlight(Next(s, e))
  {
    var t := Next(s, e);
    if e.Enter? && t.cache.locked {
      assert t.calls[e.call].Fetching?;
    }
    if s.cache.locked && !e.Succeed? && !e.Fail? && t.cache.locked {
      var c :| c in s.calls && s.calls[c].Fetching?;
      assert c in t.calls && t.calls[c].Fetching?;
    }
  }

  lemma OneMoreAttempt(attempts: seq<real>, now: real)
    requires Apart(attempts) && (attempts == [] || now - attempts[|attempts| - 1] >= MIN_REFRESH)
    ensures Apart(attempts + [now])
  {
    var n := |attempts|;
    forall i | 0 <= i < n
      ensures now - attempts[i] >= MIN_REFRESH * (n - i) as real
    {
      if i < n - 1 {
        assert attempts[n - 1] - attempts[i] >= MIN_REFRESH * (n - 1 - i) as real;
      }
    }
  }

  lemma KeepsSpaced(s: Run, e: Event)
    requires Spaced(s) && Enabled(s, e)
    ensures Spaced(Next(s, e))
  {
    if Next(s, e).attempts != s.attempts {
      OneMoreAttempt(s.attempts, s.clock);
    }
  }

  lemma KeepsLastSet(s: Run, e: Event)
    requires LastSet(s) && Enabled(s, e)
    ensures LastSet(Next(s, e))
  {
  }

  lemma KeepsAttemptsEnd(s: Run, e: Event)
    requires OneInFlight(s) && Spaced(s) && AttemptsEnd(s) && Enabled(s, e)
    ensures AttemptsEnd(Next(s, e))
  {
    if s.cache.attemptedAt.Some? {
      assert s.attempts[|s.attempts| - 1] == s.cache.attemptedAt.value;
    }
  }

  lemma NewAnswer(s: Run, e: Event)
    requires Inv(s) && Enabled(s, e)
    ensures Next(s, e).answers == s.answers
            || (|Next(s, e).answers| == |s.answers| + 1 && Next(s, e).answers[..|s.answers|] == s.answers
                && GoodAnswer(Next(s, e), Next(s, e).answers[|s.answers|]))
  {
    var t := Next(s, e);
    if t.answers != s.answers {
      assert t.fetches[..|t.fetches|] == t.fetches;
      if s.cache.attemptedAt.Some? {
        assert s.attempts[|s.attempts| - 1] == s.cache.attemptedAt.value;
      }
    }
  }

  lemma KeepsAnswers(s: Run, e: Event)
    requires Inv(s) && Enabled(s, e)
    ensures AnswersAreGood(Next(s, e))
  {
    var t := Next(s, e);
    NewAnswer(s, e);
    forall i | 0 <= i < |t.answers|
      ensures GoodAnswer(t, t.answers[i])
    {
      if i < |s.answers| {
        assert t.answers[i] == s.answers[i] && GoodAnswer(s, s.answers[i]);
        assert t.fetches[..s.answers[i].sets] == s.fetches[..s.answers[i].sets];
      }
    }
  }

  lemma {:induction false} AlwaysHolds(events: seq<Event>, t: Run)
    requires Happens(START, events, t)
    ensures Inv(t)
    decreases |events|
  {
    if events != [] {
      var before, e := events[..|events| - 1], events[|events| - 1];
      var mid :| Happens(START, before, mid) && Follows(mid, e, t);
      AlwaysHolds(before, mid);
      KeepsOneInFlight(mid, e);
      KeepsSpaced(mid, e);
      KeepsLastSet(mid, e);
      KeepsAttemptsEnd(mid, e);
      KeepsAnswers(mid, e);
    }
  }

  // ---------------------------------------------------------------- what that means

  /** However calls interleave, two fetches are never in flight together. */
  lemma FetchesNeverOverlap(events: seq<Event>, t: Run, c: nat, d: nat)
    requires Happens(START, events, t)
    requires c in t.calls && d in t.calls && t.calls[c].Fetching? && t.calls[d].Fetching?
    ensures c == d
  {
    AlwaysHolds(events, t);
  }

  /** So many attempts take at least 30 seconds each but the first: over a span T there are at most T/30 + 1. */
  lemma AttemptsAreRare(events: seq<Event>, t: Run, i: nat, j: nat, span: real)
    requires Happens(START, events, t) && i <= j < |t.attempts|
    requires t.attempts[j] - t.attempts[i] <= span
    ensures (j - i + 1) as real <= span / 30.0 + 1.0
  {
    AlwaysHolds(events, t);
    if i < j {
      assert t.attempts[j] - t.attempts[i] >= MIN_REFRESH * (j - i) as real;
    }
  }

  /** Another call is reading the set again, or a read failed within 30 seconds. */
  predicate Excused(a: Answer) {
    a.inFlight || (a.failedAt.Some? && a.at - a.failedAt.value < MIN_REFRESH)
  }

  /** Every answer is the key of the last set read when it was given; and, but while a fetch is in flight or within 30
      seconds of one that failed, that set is 300 seconds old or more exactly when the call fetched it itself and took
      that long. */
  lemma AnswersAreCurrent(events: seq<Event>, t: Run, i: nat)
    requires Happens(START, events, t) && i < |t.answers|
    ensures
      var a := t.answers[i];
      && a.sets <= |t.fetches|
      && a.key == Held(KeysAfter(t.fetches[..a.sets]), a.kid) && a.fetchedAt == DateAfter(t.fetches[..a.sets])
      && (a.ownSince.Some? ==> a.fetchedAt == a.ownSince)
      && (a.key.Some? && !Excused(a) ==>
            (Stale(a.fetchedAt, a.at) <==> a.ownSince.Some? && a.at - a.ownSince.value >= LIFESPAN))
  {
    AlwaysHolds(events, t);
    assert GoodAnswer(t, t.answers[i]);
  }

  /** A call that is cancelled gives no answer and is gone; the set read stays as it was, and the lock it held is let
      go. */
  lemma CancelledCallsAreGone(events: seq<Event>, s: Run, call: nat)
    requires Happens(START, events, s) && call in s.calls
    ensures
      var t := Next(s, Event.Cancel(call));
      && call !in t.calls && t.answers == s.answers && t.fetches == s.fetches && t.attempts == s.attempts
      && t.cache.keys == s.cache.keys && t.cache.fetchedAt == s.cache.fetchedAt
      && (t.cache.locked <==> s.cache.locked && !s.calls[call].Fetching?)
      && forall other :: other in t.calls <==> other in s.calls && other != call
  {
    AlwaysHolds(events, s);
  }

  /** A key missing from the answer is missing from the last set read, and that set was read by the call itself, or
      could not be read again just now, or was last asked for less than 30 seconds ago: no key published longer is
      missed. */
  lemma MissesAreRecent(events: seq<Event>, t: Run, i: nat)
    requires Happens(START, events, t) && i < |t.answers| && t.answers[i].key.None?
    ensures
      var a := t.answers[i];
      && a.sets <= |t.fetches| && a.kid !in KeysAfter(t.fetches[..a.sets])
      && (a.ownSince.Some? || a.failedAt == Some(a.at)
          || (a.attemptedAt.Some? && a.at - a.attemptedAt.value < 30.0))
  {
    AlwaysHolds(events, t);
    assert GoodAnswer(t, t.answers[i]);
  }

  /** The last set read lacks the key, or is 300 seconds old. */
  ghost predicate Lacks(s: Run, kid: string) {
    kid !in KeysAfter(s.fetches) || s.fetches == [] || s.clock - s.fetches[|s.fetches| - 1].at >= 300.0
  }

  ghost predicate NoneAskedLately(s: Run) {
    s.attempts == [] || s.clock - s.attempts[|s.attempts| - 1] >= 30.0
  }

  ghost predicate Begins(s: Run, t: Run, call: nat, kid: string) {
    && call in t.calls && t.calls[call] == Fetching(kid, s.clock) && t.attempts == s.attempts + [s.clock]
    && t.answers == s.answers
  }

  ghost predicate AnswersOnly(s: Run, t: Run, call: nat, kid: string) {
    && call !in t.calls && t.attempts == s.attempts && |t.answers| == |s.answers| + 1
    && t.answers[|s.answers|].kid == kid && t.cache == s.cache
  }

  lemma NeededIs(s: Run, kid: string)
    requires LastSet(s) && Spaced(s)
    ensures NeedsFetch(s.cache, kid, s.clock) <==> Lacks(s, kid) && NoneAskedLately(s)
  {
  }

  /** A call that gets the lock reads the published set exactly when the last set read lacks its key or is 300 seconds
      old, and none was asked for in the last 30 seconds; otherwise it answers and leaves the set as it was. */
  lemma FetchesWhenNeeded(events: seq<Event>, s: Run, call: nat)
    requires Happens(START, events, s) && Enabled(s, Event.Enter(call))
    ensures
      var t, kid := Next(s, Event.Enter(call)), s.calls[call].kid;
      if Lacks(s, kid) && NoneAskedLately(s) then Begins(s, t, call, kid) else AnswersOnly(s, t, call, kid)
  {
    AlwaysHolds(events, s);
    NeededIs(s, s.calls[call].kid);
  }

  lemma HappensNext(events: seq<Event>, s: Run, e: Event)
    requires Happens(START, events, s) && Enabled(s, e)
    ensures Happens(START, events + [e], Next(s, e))
  {
    assert (events + [e])[..|events|] == events;
    assert Follows(s, e, Next(s, e));
  }

  /** A fetch that takes 300 seconds answers with a set already that old, though nothing is in flight and nothing
      failed. */
  lemma SlowFetchAnswersStale(key: Jwk) returns (events: seq<Event>, t: Run)
    requires key.keyId != "" && key.use == Signing
    ensures Happens(START, events, t) && |t.answers| == 1
    ensures t.answers[0].key == Some(key) && !Excused(t.answers[0]) && Stale(t.answers[0].fetchedAt, t.answers[0].at)
  {
    var kid := key.keyId;
    assert [key][..0] == [];
    assert Usable([key]) == map[kid := key];
    var asked, entered, ticked, answered := Ask(0, kid), Enter(0), Tick(300.0), Succeed(0, [key]);
    var s1 := Next(START, asked);
    HappensNext([], START, asked);
    var s2 := Next(s1, entered);
    HappensNext([asked], s1, entered);
    var s3 := Next(s2, ticked);
    HappensNext([asked] + [entered], s2, ticked);
    t := Next(s3, answered);
    events := [asked] + [entered] + [ticked] + [answered];
    assert [] + [asked] == [asked];
    HappensNext([asked] + [entered] + [ticked], s3, answered);
  }
}
