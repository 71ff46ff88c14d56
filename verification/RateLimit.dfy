/** The fixed-window rate limiter: a counter per caller and window, in a store that drops it when its time runs out. */
module RateLimit {

  /** One caller in one window; times are milliseconds, windows so many seconds wide. */
  datatype Key<C> = Key(caller: C, window: nat)

  datatype Counter = Counter(count: nat, expiresAt: nat)

  function WindowOf(at: nat, width: nat): nat
    requires width > 0
  {
    at / 1000 / width
  }

  /** When a window ends, in milliseconds. */
  function EndOf(window: nat, width: nat): nat {
    1000 * ((window + 1) * width)
  }

  lemma WindowHolds(at: nat, width: nat)
    requires width > 0
    ensures EndOf(WindowOf(at, width), width) - 1000 * width <= at < EndOf(WindowOf(at, width), width)
  {
    var s := at / 1000;
    var w := s / width;
    assert w * width <= s < w * width + width;
    assert (w + 1) * width == w * width + width;
  }

  /** The hits counted at a key, as far as the store still holds it. */
  function LiveCount<C(==)>(counters: map<Key<C>, Counter>, key: Key<C>, now: nat): nat {
    if key in counters && now < counters[key].expiresAt then counters[key].count else 0
  }

  function AfterHit<C(==)>(counters: map<Key<C>, Counter>, key: Key<C>, now: nat, width: nat): map<Key<C>, Counter> {
    counters[key := Counter(LiveCount(counters, key, now) + 1, now + 1000 * width)]
  }

  /** A hit is counted with those the store still holds, and all of them are held a full window from it; once that has
      passed none is. No other counter changes. */
  lemma HitsAreHeld<C>(counters: map<Key<C>, Counter>, key: Key<C>, now: nat, width: nat, other: Key<C>, later: nat)
    requires now <= later
    ensures
      var after := AfterHit(counters, key, now, width);
      LiveCount(after, other, later) ==
      if other != key then LiveCount(counters, other, later)
      else if later - now < 1000 * width then LiveCount(counters, key, now) + 1 else 0
  {
  }

  /** How a request to the store went: answered; or failed, with the hit counted before it did or not. */
  datatype Reply = Answered | Lost(counted: bool)

  class Store<C(==)> {
    var counters: map<Key<C>, Counter>

    constructor ()
      ensures counters == map[]
    {
      counters := map[];
    }

    /** `over_limit`: one hit counted and its expiry set again; not over when the store does not answer. */
    method OverLimit(key: Key<C>, limit: nat, width: nat, now: nat, reply: Reply) returns (over: bool)
      modifies this
      ensures counters == if reply == Lost(false) then old(counters) else AfterHit(old(counters), key, now, width)
      ensures over <==> reply.Answered? && LiveCount(old(counters), key, now) + 1 > limit
    {
      if reply == Lost(false) {
        return false;
      }
      var count := LiveCount(counters, key, now) + 1;
      counters := counters[key := Counter(count, now)];
      counters := counters[key := counters[key].(expiresAt := now + 1000 * width)];
      over := reply.Answered? && count > limit;
    }
  }

  // ---------------------------------------------------------------- every run of requests

  /** A request: who it is by, when its window was read off the clock, when the store counted it, and how that went. */
  datatype Arrival<C> = Arrival(caller: C, asked: nat, counted: nat, reply: Reply)

  datatype State<C(==)> = State(counters: map<Key<C>, Counter>, admitted: seq<Arrival<C>>)

  function KeyOf<C>(a: Arrival<C>, width: nat): Key<C>
    requires width > 0
  {
    Key(a.caller, WindowOf(a.asked, width))
  }

  function Served<C(==)>(s: State<C>, a: Arrival<C>, limit: C -> nat, width: nat): State<C>
    requires width > 0
  {
    var key := KeyOf(a, width);
    var over := a.reply.Answered? && LiveCount(s.counters, key, a.counted) + 1 > limit(a.caller);
    State(if a.reply == Lost(false) then s.counters else AfterHit(s.counters, key, a.counted, width),
          if over then s.admitted else s.admitted + [a])
  }

  /** The requests in the order the store sees them. */
  function After<C(==)>(arrivals: seq<Arrival<C>>, limit: C -> nat, width: nat): State<C>
    requires width > 0
  {
    if arrivals == [] then State(map[], [])
    else Served(After(arrivals[..|arrivals| - 1], limit, width), arrivals[|arrivals| - 1], limit, width)
  }

  /** No request is counted before it read the clock. */
  ghost predicate Causal<C>(arrivals: seq<Arrival<C>>) {
    forall i :: 0 <= i < |arrivals| ==> arrivals[i].asked <= arrivals[i].counted
  }

  // ---------------------------------------------------------------- counters outlive their windows

  ghost predicate OutlivesWindow<C(!new)>(counters: map<Key<C>, Counter>, width: nat) {
    forall key :: key in counters ==> counters[key].expiresAt >= EndOf(key.window, width)
  }

  /** The expiry set again on every hit never drops a counter before its own window ends. */
  lemma {:induction false} CountersOutliveTheirWindows<C(!new)>(arrivals: seq<Arrival<C>>, width: nat)
    requires width > 0 && Causal(arrivals)
    ensures OutlivesWindow(CountersAfter(arrivals, width), width)
  {
    if arrivals != [] {
      var rest, a := arrivals[..|arrivals| - 1], arrivals[|arrivals| - 1];
      CountersOutliveTheirWindows(rest, width);
      WindowHolds(a.asked, width);
    }
  }

  // ---------------------------------------------------------------- the bound per window

  /** The requests for a key that were counted. */
  ghost function Hits<C>(arrivals: seq<Arrival<C>>, key: Key<C>, width: nat): nat
    requires width > 0
  {
    if arrivals == [] then 0
    else
      var a := arrivals[|arrivals| - 1];
      Hits(arrivals[..|arrivals| - 1], key, width) + if KeyOf(a, width) == key && a.reply != Lost(false) then 1 else 0
  }

  /** The requests for a key that the store answered. */
  ghost function AnsweredFor<C>(arrivals: seq<Arrival<C>>, key: Key<C>, width: nat): nat
    requires width > 0
  {
    if arrivals == [] then 0
    else
      var a := arrivals[|arrivals| - 1];
      AnsweredFor(arrivals[..|arrivals| - 1], key, width) + if KeyOf(a, width) == key && a.reply.Answered? then 1 else 0
  }

  lemma AnsweredOneMore<C>(admitted: seq<Arrival<C>>, a: Arrival<C>, key: Key<C>, width: nat)
    requires width > 0
    ensures AnsweredFor(admitted + [a], key, width) ==
            AnsweredFor(admitted, key, width) + if KeyOf(a, width) == key && a.reply.Answered? then 1 else 0
  {
    assert (admitted + [a])[..|admitted|] == admitted;
  }

  /** The counters are the same whatever is admitted. */
  function CountersAfter<C(==)>(arrivals: seq<Arrival<C>>, width: nat): map<Key<C>, Counter>
    requires width > 0
  {
    if arrivals == [] then map[]
    else
      var before, a := CountersAfter(arrivals[..|arrivals| - 1], width), arrivals[|arrivals| - 1];
      if a.reply == Lost(false) then before else AfterHit(before, KeyOf(a, width), a.counted, width)
  }

  lemma {:induction false} CountersIgnoreLimits<C>(arrivals: seq<Arrival<C>>, limit: C -> nat, width: nat)
    requires width > 0
    ensures After(arrivals, limit, width).counters == CountersAfter(arrivals, width)
  {
    if arrivals != [] { CountersIgnoreLimits(arrivals[..|arrivals| - 1], limit, width); }
  }

  /** Some hit for a key came when the key's counter had run out. */
  ghost predicate CameLate<C>(arrivals: seq<Arrival<C>>, key: Key<C>, width: nat)
    requires width > 0
  {
    arrivals != [] &&
    var before, a := CountersAfter(arrivals[..|arrivals| - 1], width), arrivals[|arrivals| - 1];
    || CameLate(arrivals[..|arrivals| - 1], key, width)
    || (KeyOf(a, width) == key && a.reply != Lost(false) && key in before && a.counted >= before[key].expiresAt)
  }

  function KeptCount<C(==)>(counters: map<Key<C>, Counter>, key: Key<C>): nat {
    if key in counters then counters[key].count else 0
  }

  /** A key's counter holds the number of its hits exactly when none came late. */
  lemma {:induction false} CountsHitsUnlessLate<C>(arrivals: seq<Arrival<C>>, key: Key<C>, width: nat)
    requires width > 0
    ensures KeptCount(CountersAfter(arrivals, width), key) <= Hits(arrivals, key, width)
    ensures KeptCount(CountersAfter(arrivals, width), key) == Hits(arrivals, key, width) <==>
              !CameLate(arrivals, key, width)
    ensures key in CountersAfter(arrivals, width) ==> KeptCount(CountersAfter(arrivals, width), key) > 0
  {
    if arrivals != [] { CountsHitsUnlessLate(arrivals[..|arrivals| - 1], key, width); }
  }

  /** How many hits for a key came when the key's counter had run out. */
  ghost function LateHits<C>(arrivals: seq<Arrival<C>>, key: Key<C>, width: nat): nat
    requires width > 0
  {
    if arrivals == [] then 0
    else
      var before, a := CountersAfter(arrivals[..|arrivals| - 1], width), arrivals[|arrivals| - 1];
      LateHits(arrivals[..|arrivals| - 1], key, width)
      + if KeyOf(a, width) == key && a.reply != Lost(false) && key in before && a.counted >= before[key].expiresAt
        then 1 else 0
  }

  lemma {:induction false} LateIsSomeLate<C>(arrivals: seq<Arrival<C>>, key: Key<C>, width: nat)
    requires width > 0
    ensures CameLate(arrivals, key, width) <==> LateHits(arrivals, key, width) > 0
  {
    if arrivals != [] { LateIsSomeLate(arrivals[..|arrivals| - 1], key, width); }
  }

  /** A full limit for every time the counter ran out, and what has been counted since. */
  function LimitsAnd(limit: nat, late: nat, kept: nat): nat {
    limit * late + if kept < limit then kept else limit
  }

  /** What may be admitted of a key. */
  ghost function Allowed<C>(arrivals: seq<Arrival<C>>, limit: nat, width: nat, key: Key<C>): nat
    requires width > 0
  {
    LimitsAnd(limit, LateHits(arrivals, key, width), KeptCount(CountersAfter(arrivals, width), key))
  }

  lemma OneLimitMore(limit: nat, late: nat, kept: nat)
    ensures LimitsAnd(limit, late, kept) <= limit * (late + 1)
    ensures LimitsAnd(limit, late, kept + 1) == LimitsAnd(limit, late, kept) + if kept < limit then 1 else 0
    ensures LimitsAnd(limit, late + 1, 1) >= LimitsAnd(limit, late, kept) + if 0 < limit then 1 else 0
  {
    assert limit * (late + 1) == limit * late + limit;
  }

  /** How one more request changes a key's counter: it counts on, or starts again at one. */
  lemma CountedOneMore<C>(rest: seq<Arrival<C>>, a: Arrival<C>, width: nat, key: Key<C>)
    requires width > 0
    ensures
      var kept, late := KeptCount(CountersAfter(rest, width), key), LateHits(rest, key, width);
      var live, all := LiveCount(CountersAfter(rest, width), key, a.counted), rest + [a];
      var next := KeptCount(CountersAfter(all, width), key);
      if KeyOf(a, width) != key || a.reply == Lost(false) then next == kept && LateHits(all, key, width) == late
      else if live == kept then next == kept + 1 && LateHits(all, key, width) == late
      else live == 0 && next == 1 && LateHits(all, key, width) == late + 1
  {
    assert (rest + [a])[..|rest|] == rest;
    CountsHitsUnlessLate(rest, key, width);
  }

  /** One more request raises what is allowed by at least as much as it is admitted. */
  lemma AllowedOneMore<C>(rest: seq<Arrival<C>>, a: Arrival<C>, limit: nat, width: nat, key: Key<C>)
    requires width > 0
    ensures Allowed(rest, limit, width, key) <= Allowed(rest + [a], limit, width, key)
    ensures KeyOf(a, width) == key && a.reply.Answered?
            && LiveCount(CountersAfter(rest, width), key, a.counted) + 1 <= limit ==>
              Allowed(rest, limit, width, key) + 1 <= Allowed(rest + [a], limit, width, key)
  {
    CountedOneMore(rest, a, width, key);
    var hit := KeyOf(a, width) == key && a.reply != Lost(false);
    var live := LiveCount(CountersAfter(rest, width), key, a.counted);
    CountingAllows(limit, LateHits(rest, key, width), KeptCount(CountersAfter(rest, width), key), live, hit,
                   LateHits(rest + [a], key, width), KeptCount(CountersAfter(rest + [a], width), key));
  }

  lemma CountingAllows(limit: nat, late: nat, kept: nat, live: nat, hit: bool, nextLate: nat, nextKept: nat)
    requires !hit ==> nextKept == kept && nextLate == late
    requires hit && live == kept ==> nextKept == kept + 1 && nextLate == late
    requires hit && live != kept ==> live == 0 && nextKept == 1 && nextLate == late + 1
    ensures LimitsAnd(limit, nextLate, nextKept) >=
            LimitsAnd(limit, late, kept) + if hit && live + 1 <= limit then 1 else 0
  {
    OneLimitMore(limit, late, kept);
  }

  lemma {:induction false} AdmittedAreAllowed<C>(arrivals: seq<Arrival<C>>, limit: C -> nat, width: nat, key: Key<C>)
    requires width > 0
    ensures AnsweredFor(After(arrivals, limit, width).admitted, key, width) <=
            Allowed(arrivals, limit(key.caller), width, key)
  {
    if arrivals != [] {
      var rest, a := arrivals[..|arrivals| - 1], arrivals[|arrivals| - 1];
      assert arrivals == rest + [a];
      AdmittedAreAllowed(rest, limit, width, key);
      AdmittedOneMore(rest, a, limit, width, key);
    }
  }

  lemma AdmittedOneMore<C>(rest: seq<Arrival<C>>, a: Arrival<C>, limit: C -> nat, width: nat, key: Key<C>)
    requires width > 0
    requires AnsweredFor(After(rest, limit, width).admitted, key, width) <= Allowed(rest, limit(key.caller), width, key)
    ensures AnsweredFor(After(rest + [a], limit, width).admitted, key, width) <=
            Allowed(rest + [a], limit(key.caller), width, key)
  {
    assert (rest + [a])[..|rest|] == rest;
    AnsweredOneMore(After(rest, limit, width).admitted, a, key, width);
    CountersIgnoreLimits(rest, limit, width);
    AllowedOneMore(rest, a, limit(key.caller), width, key);
  }

  /** In every run, late hits or none, no more of a key's answered requests are admitted than the limit allows once and
      once more for every hit that came late. */
  lemma WindowIsBoundedByLateHits<C>(arrivals: seq<Arrival<C>>, limit: C -> nat, width: nat, key: Key<C>)
    requires width > 0
    ensures AnsweredFor(After(arrivals, limit, width).admitted, key, width) <=
            Allowed(arrivals, limit(key.caller), width, key) <=
            limit(key.caller) * (LateHits(arrivals, key, width) + 1)
  {
    AdmittedAreAllowed(arrivals, limit, width, key);
    var kept := KeptCount(CountersAfter(arrivals, width), key);
    OneLimitMore(limit(key.caller), LateHits(arrivals, key, width), kept);
  }

  /** So where none came late no more than the limit are, nor more than there were hits. */
  lemma WindowIsBounded<C>(arrivals: seq<Arrival<C>>, limit: C -> nat, width: nat, key: Key<C>)
    requires width > 0 && !CameLate(arrivals, key, width)
    ensures AnsweredFor(After(arrivals, limit, width).admitted, key, width) <= limit(key.caller)
    ensures AnsweredFor(After(arrivals, limit, width).admitted, key, width) <= Hits(arrivals, key, width)
  {
    AdmittedAreAllowed(arrivals, limit, width, key);
    LateIsSomeLate(arrivals, key, width);
    CountsHitsUnlessLate(arrivals, key, width);
    NoneLate(limit(key.caller), KeptCount(CountersAfter(arrivals, width), key));
  }

  lemma NoneLate(limit: nat, kept: nat)
    ensures LimitsAnd(limit, 0, kept) == if kept < limit then kept else limit
  {
  }

  ghost predicate AllAnswered<C>(arrivals: seq<Arrival<C>>, key: Key<C>, width: nat)
    requires width > 0
  {
    forall i :: 0 <= i < |arrivals| && KeyOf(arrivals[i], width) == key ==> arrivals[i].reply.Answered?
  }

  lemma {:induction false} HitsGrow<C>(arrivals: seq<Arrival<C>>, key: Key<C>, width: nat, n: nat)
    requires width > 0 && n <= |arrivals|
    ensures Hits(arrivals[..n], key, width) <= Hits(arrivals, key, width)
    ensures Hits(arrivals[..n], key, width) == Hits(arrivals, key, width) ==>
              (CameLate(arrivals[..n], key, width) <==> CameLate(arrivals, key, width))
    decreases |arrivals|
  {
    if n == |arrivals| {
      assert arrivals[..n] == arrivals;
    } else {
      var rest := arrivals[..|arrivals| - 1];
      HitsGrow(rest, key, width, n);
      assert rest[..n] == arrivals[..n];
    }
  }

  /** Had one hit come late, a limit one short of the hits would have let every one of them through. */
  lemma {:induction false} LateHitsAreAdmitted<C>(all: seq<Arrival<C>>, n: nat, limit: C -> nat, width: nat,
                                                  key: Key<C>)
    requires width > 0 && n <= |all| && CameLate(all, key, width) && AllAnswered(all, key, width)
    requires limit(key.caller) + 1 == Hits(all, key, width)
    ensures AnsweredFor(After(all[..n], limit, width).admitted, key, width) == Hits(all[..n], key, width)
    decreases n
  {
    if n > 0 {
      var rest, a := all[..n - 1], all[n - 1];
      assert all[..n][..n - 1] == rest;
      LateHitsAreAdmitted(all, n - 1, limit, width, key);
      AnsweredOneMore(After(rest, limit, width).admitted, a, key, width);
      CountersIgnoreLimits(rest, limit, width);
      CountsHitsUnlessLate(rest, key, width);
      HitsGrow(all, key, width, n);
    }
  }

  /** Where the store answers every request for a key, the key's limit holds whatever it is exactly when no hit comes
      after its counter ran out. */
  lemma BoundedUnlessLate<C(!new)>(arrivals: seq<Arrival<C>>, width: nat, key: Key<C>)
    requires width > 0 && AllAnswered(arrivals, key, width)
    ensures (forall limit: C -> nat ::
             AnsweredFor(After(arrivals, limit, width).admitted, key, width) <= limit(key.caller))
            <==> !CameLate(arrivals, key, width)
  {
    if CameLate(arrivals, key, width) {
      CountsHitsUnlessLate(arrivals, key, width);
      var most := Hits(arrivals, key, width) - 1;
      var limit: C -> nat := _ => most;
      LateHitsAreAdmitted(arrivals, |arrivals|, limit, width, key);
      assert arrivals[..|arrivals|] == arrivals;
      assert AnsweredFor(After(arrivals, limit, width).admitted, key, width) > limit(key.caller);
    } else {
      forall limit: C -> nat
        ensures AnsweredFor(After(arrivals, limit, width).admitted, key, width) <= limit(key.caller)
      {
        WindowIsBounded(arrivals, limit, width, key);
      }
    }
  }

  /** Every request for a key is counted before the key's window ends. */
  ghost predicate Prompt<C>(arrivals: seq<Arrival<C>>, key: Key<C>, width: nat)
    requires width > 0
  {
    forall i :: 0 <= i < |arrivals| && KeyOf(arrivals[i], width) == key ==>
        arrivals[i].counted < EndOf(key.window, width)
  }

  /** A counter outlives its window, so no hit counted before the window ends comes late. */
  lemma {:induction false} PromptIsNotLate<C(!new)>(arrivals: seq<Arrival<C>>, width: nat, key: Key<C>)
    requires width > 0 && Causal(arrivals) && Prompt(arrivals, key, width)
    ensures !CameLate(arrivals, key, width)
  {
    if arrivals != [] {
      var rest := arrivals[..|arrivals| - 1];
      PromptIsNotLate(rest, width, key);
      CountersOutliveTheirWindows(rest, width);
    }
  }

  // ---------------------------------------------------------------- the bound per span

  /** The requests of a caller in a span that the store answered. */
  ghost function AnsweredIn<C>(admitted: seq<Arrival<C>>, caller: C, from: nat, to: nat): nat {
    if admitted == [] then 0
    else
      var a := admitted[|admitted| - 1];
      AnsweredIn(admitted[..|admitted| - 1], caller, from, to)
      + if a.caller == caller && from <= a.asked < to && a.reply.Answered? then 1 else 0
  }

  lemma EndOfNext(w: nat, width: nat)
    ensures EndOf(w + 1, width) == EndOf(w, width) + 1000 * width
  {
    assert (w + 2) * width == (w + 1) * width + width;
  }

  lemma {:induction false} EndsApart(a: nat, b: nat, width: nat)
    requires a < b
    ensures EndOf(a, width) + 1000 * width <= EndOf(b, width)
    decreases b
  {
    EndOfNext(b - 1, width);
    if a < b - 1 { EndsApart(a, b - 1, width); }
  }

  lemma SpanTouchesTwoWindows(from: nat, at: nat, width: nat)
    requires width > 0 && from <= at < from + 1000 * width
    ensures WindowOf(at, width) == WindowOf(from, width) || WindowOf(at, width) == WindowOf(from, width) + 1
  {
    WindowHolds(from, width);
    WindowHolds(at, width);
    OneOrTwo(WindowOf(from, width), WindowOf(at, width), from, at, width);
  }

  lemma OneOrTwo(w: nat, v: nat, from: int, at: int, width: nat)
    requires EndOf(w, width) - 1000 * width <= from < EndOf(w, width)
    requires EndOf(v, width) - 1000 * width <= at < EndOf(v, width)
    requires from <= at < from + 1000 * width
    ensures v == w || v == w + 1
  {
    if v < w {
      EndsApart(v, w, width);
    } else if v > w + 1 {
      EndsApart(w, w + 1, width);
      EndsApart(w + 1, v, width);
    }
  }

  lemma {:induction false} SpanCounts<C>(admitted: seq<Arrival<C>>, caller: C, from: nat, width: nat)
    requires width > 0
    ensures AnsweredIn(admitted, caller, from, from + 1000 * width) <=
            AnsweredFor(admitted, Key(caller, WindowOf(from, width)), width)
            + AnsweredFor(admitted, Key(caller, WindowOf(from, width) + 1), width)
  {
    if admitted != [] {
      var a := admitted[|admitted| - 1];
      SpanCounts(admitted[..|admitted| - 1], caller, from, width);
      if from <= a.asked < from + 1000 * width {
        SpanTouchesTwoWindows(from, a.asked, width);
      }
    }
  }

  /** In any span as long as a window, no more of one caller's answered requests are admitted than twice the limit, and
      the limit once more for every late hit in the two windows the span meets. */
  lemma SpanIsBoundedByLateHits<C>(arrivals: seq<Arrival<C>>, limit: C -> nat, width: nat, caller: C, from: nat)
    requires width > 0
    ensures
      var first, second := Key(caller, WindowOf(from, width)), Key(caller, WindowOf(from, width) + 1);
      AnsweredIn(After(arrivals, limit, width).admitted, caller, from, from + 1000 * width) <=
      limit(caller) * (2 + LateHits(arrivals, first, width) + LateHits(arrivals, second, width))
  {
    var first, second := Key(caller, WindowOf(from, width)), Key(caller, WindowOf(from, width) + 1);
    SpanCounts(After(arrivals, limit, width).admitted, caller, from, width);
    WindowIsBoundedByLateHits(arrivals, limit, width, first);
    WindowIsBoundedByLateHits(arrivals, limit, width, second);
    BothLimits(limit(caller), LateHits(arrivals, first, width), LateHits(arrivals, second, width));
  }

  lemma BothLimits(limit: nat, a: nat, b: nat)
    ensures limit * (a + 1) + limit * (b + 1) == limit * (2 + a + b)
  {
  }

  /** So no more than twice the limit are, where in neither window a hit comes after the counter ran out. */
  lemma SpanIsBounded<C>(arrivals: seq<Arrival<C>>, limit: C -> nat, width: nat, caller: C, from: nat)
    requires width > 0
    requires !CameLate(arrivals, Key(caller, WindowOf(from, width)), width)
    requires !CameLate(arrivals, Key(caller, WindowOf(from, width) + 1), width)
    ensures AnsweredIn(After(arrivals, limit, width).admitted, caller, from, from + 1000 * width) <= 2 * limit(caller)
  {
    SpanCounts(After(arrivals, limit, width).admitted, caller, from, width);
    WindowIsBounded(arrivals, limit, width, Key(caller, WindowOf(from, width)));
    WindowIsBounded(arrivals, limit, width, Key(caller, WindowOf(from, width) + 1));
  }

  /** So it is where the store counts every request before the window it was made in ends. */
  lemma PromptSpanIsBounded<C(!new)>(arrivals: seq<Arrival<C>>, limit: C -> nat, width: nat, caller: C, from: nat)
    requires width > 0 && Causal(arrivals)
    requires Prompt(arrivals, Key(caller, WindowOf(from, width)), width)
    requires Prompt(arrivals, Key(caller, WindowOf(from, width) + 1), width)
    ensures AnsweredIn(After(arrivals, limit, width).admitted, caller, from, from + 1000 * width) <= 2 * limit(caller)
  {
    PromptIsNotLate(arrivals, width, Key(caller, WindowOf(from, width)));
    PromptIsNotLate(arrivals, width, Key(caller, WindowOf(from, width) + 1));
    SpanIsBounded(arrivals, limit, width, caller, from);
  }

  lemma AnsweredInOneMore<C>(admitted: seq<Arrival<C>>, a: Arrival<C>, caller: C, from: nat, to: nat)
    ensures AnsweredIn(admitted + [a], caller, from, to) ==
            AnsweredIn(admitted, caller, from, to)
            + if a.caller == caller && from <= a.asked < to && a.reply.Answered? then 1 else 0
  {
    assert (admitted + [a])[..|admitted|] == admitted;
  }

  lemma ServedNext<C>(rest: seq<Arrival<C>>, a: Arrival<C>, limit: C -> nat, width: nat)
    requires width > 0
    ensures After(rest + [a], limit, width) == Served(After(rest, limit, width), a, limit, width)
    ensures a.reply.Answered? ==>
              CountersAfter(rest + [a], width) ==
              AfterHit(CountersAfter(rest, width), KeyOf(a, width), a.counted, width)
  {
    assert (rest + [a])[..|rest|] == rest;
  }

  /** Two requests of one window a second wide, the second counted when the first's counter has just run out: a limit of
      one admits both. */
  lemma LateHitIsAdmitted(limit: bool -> nat)
    requires limit(true) == 1
    ensures
      var arrivals := [Arrival(true, 0, 0, Answered), Arrival(true, 999, 1000, Answered)];
      && Causal(arrivals) && CameLate(arrivals, Key(true, 0), 1)
      && AnsweredFor(After(arrivals, limit, 1).admitted, Key(true, 0), 1) == 2
  {
    var a, b, key := Arrival(true, 0, 0, Answered), Arrival(true, 999, 1000, Answered), Key(true, 0);
    assert [] + [a] == [a] && [a] + [b] == [a, b];
    AfterOne(a, limit);
    ServedNext([a], b, limit, 1);
    assert After([a, b], limit, 1).admitted == [a, b];
    AnsweredOneMore([], a, key, 1);
    AnsweredOneMore([a], b, key, 1);
    assert [a, b][..1] == [a];
  }

  lemma AfterOne(a: Arrival<bool>, limit: bool -> nat)
    requires limit(true) == 1 && a == Arrival(true, 0, 0, Answered)
    ensures After([a], limit, 1) == State(map[Key(true, 0) := Counter(1, 1000)], [a])
    ensures CountersAfter([a], 1) == map[Key(true, 0) := Counter(1, 1000)]
  {
    assert [] + [a] == [a];
    ServedNext([], a, limit, 1);
  }

  /** Three requests of one window, two of them counted when the counter has just run out: a limit of one admits all
      three in one span. */
  lemma LateHitsPassTheSpan(limit: bool -> nat)
    requires limit(true) == 1
    ensures
      var first, second := Arrival(true, 0, 0, Answered), Arrival(true, 999, 1000, Answered);
      var arrivals := [first, second, Arrival(true, 999, 2000, Answered)];
      && Causal(arrivals) && AnsweredIn(After(arrivals, limit, 1).admitted, true, 0, 1000) == 3
  {
    var a, b := Arrival(true, 0, 0, Answered), Arrival(true, 999, 1000, Answered);
    var c, key := Arrival(true, 999, 2000, Answered), Key(true, 0);
    assert [] + [a] == [a] && [a] + [b] == [a, b] && [a, b] + [c] == [a, b, c];
    AfterOne(a, limit);
    ServedNext([a], b, limit, 1);
    assert After([a, b], limit, 1) == State(map[key := Counter(1, 2000)], [a, b]);
    ServedNext([a, b], c, limit, 1);
    assert After([a, b, c], limit, 1).admitted == [a, b, c];
    AnsweredInOneMore([], a, true, 0, 1000);
    AnsweredInOneMore([a], b, true, 0, 1000);
    AnsweredInOneMore([a, b], c, true, 0, 1000);
  }

  /** Where the store loses an answer, a hit may come late and no limit be passed: it need not have been counted on. */
  lemma LateHitMayBeHarmless(limit: bool -> nat)
    ensures
      var arrivals := [Arrival(true, 0, 0, Lost(true)), Arrival(true, 999, 1000, Answered)];
      && CameLate(arrivals, Key(true, 0), 1)
      && AnsweredFor(After(arrivals, limit, 1).admitted, Key(true, 0), 1) <= limit(true)
  {
    var a, b, key := Arrival(true, 0, 0, Lost(true)), Arrival(true, 999, 1000, Answered), Key(true, 0);
    assert [] + [a] == [a] && [a] + [b] == [a, b] && [a, b][..1] == [a] && [a][..0] == [];
    LostIsAdmitted(a, limit);
    ServedNext([a], b, limit, 1);
    assert After([a, b], limit, 1).admitted == if limit(true) < 1 then [a] else [a, b];
    AnsweredOneMore([], a, key, 1);
    AnsweredOneMore([a], b, key, 1);
  }

  lemma LostIsAdmitted(a: Arrival<bool>, limit: bool -> nat)
    requires a == Arrival(true, 0, 0, Lost(true))
    ensures After([a], limit, 1) == State(map[Key(true, 0) := Counter(1, 1000)], [a])
    ensures CountersAfter([a], 1) == map[Key(true, 0) := Counter(1, 1000)]
  {
    assert [a][..0] == [];
  }
}
