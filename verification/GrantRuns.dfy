/** What every run of admins, auditors and the clock keeps of the grants. */
module GrantRuns {
  import opened Wrappers
  import opened Text
  import opened AuditGrants

  /** The tables, the clock, and when each revoking statement was run. */
  datatype Run = Run(db: Db, clock: int, revokedOn: map<nat, int>)

  datatype Step = Tick(now: int)
                | Insert(caller: Caller, g: Grant)
                | Revoke(caller: Caller, id: nat, at: int, revoker: Option<nat>)
                | Open(caller: Caller, token: nat)
                | Download(caller: Caller, id: nat)
                | Read(caller: Caller, id: nat, hashes: set<nat>)
                | Change(packages: map<nat, Package>, items: set<Item>, blobs: set<Blob>, admins: set<(nat, nat)>)

  /** One step; a read or a refused one changes nothing, and the clock never goes back. */
  function Next(r: Run, step: Step): Run {
    match step
    case Tick(now) => if now > r.clock then r.(clock := now) else r
    case Insert(caller, g) =>
      if MayInsert(r.db, caller, g, r.clock) then r.(db := r.db.(grants := r.db.grants + [g])) else r
    case Revoke(caller, id, at, revoker) =>
      var i := ById(r.db.grants, id);
      if i.Some? && MayRevoke(r.db, caller, i.value, revoker) then
        r.(db := Revoked(r.db, i.value, at, revoker.value), revokedOn := r.revokedOn[id := r.clock])
      else r
    case Open(caller, token) =>
      if OpenRefusal(r.db, caller, token, r.clock).Some? then r
      else r.(db := OpenedBy(r.db, ByToken(r.db.grants, token).value, caller.user.value, r.clock))
    case Download(caller, id) =>
      if LiveRefusal(r.db, caller, id, r.clock).Some? then r
      else
        var i := ById(r.db.grants, id).value;
        r.(db := DownloadedBy(r.db, i, caller.user.value, ManifestOf(r.db, r.db.grants[i].package), r.clock))
    case Read(_, _, _) => r
    case Change(packages, items, blobs, admins) =>
      r.(db := r.db.(packages := packages, items := items, blobs := blobs, admins := admins))
  }

  function After(r: Run, steps: seq<Step>): Run {
    if steps == [] then r else Next(After(r, steps[..|steps| - 1]), steps[|steps| - 1])
  }

  // ---------------------------------------------------------------- what every step keeps

  ghost predicate DistinctGrants(grants: seq<Grant>) {
    && (forall i, j :: 0 <= i < j < |grants| ==>
          grants[i].id != grants[j].id && grants[i].tokenHash != grants[j].tokenHash)
    && (forall i, j :: 0 <= i < j < |grants| && SameReader(grants[i], grants[j]) ==>
          grants[i].revokedAt.Some? || grants[j].revokedAt.Some?)
  }

  predicate HasGrant(grants: seq<Grant>, id: nat) {
    ById(grants, id).Some?
  }

  ghost predicate EventsHaveGrants(db: Db) {
    forall k :: 0 <= k < |db.events| ==> HasGrant(db.grants, db.events[k].grant)
  }

  /** Every event of a grant is by the user who opened it, before it expired, and no later than it was revoked. */
  ghost predicate EventFits(r: Run, g: Grant, e: Event) {
    && g.openedBy == Some(e.user) && e.organization == g.organization && e.at < g.expiresAt && e.at <= r.clock
    && (g.id in r.revokedOn ==> e.at <= r.revokedOn[g.id])
  }

  ghost predicate EventsFit(r: Run, g: Grant) {
    forall k :: 0 <= k < |r.db.events| && r.db.events[k].grant == g.id ==> EventFits(r, g, r.db.events[k])
  }

  /** The opening of a grant that is marked first. */
  predicate IsFirst(e: Event, g: Grant) {
    e.Opened? && e.grant == g.id && e.first
  }

  ghost predicate OneFirst(events: seq<Event>, g: Grant, k: nat) {
    && k < |events| && IsFirst(events[k], g) && g.openedAt == Some(events[k].at)
    && (forall j :: 0 <= j < |events| && IsFirst(events[j], g) ==> j == k)
    && (forall j :: 0 <= j < |events| && events[j].grant == g.id ==> k <= j)
  }

  ghost predicate OpenedOnce(events: seq<Event>, g: Grant) {
    if g.openedBy.Some? then exists k: nat :: OneFirst(events, g, k)
    else g.openedAt.None? && forall j :: 0 <= j < |events| ==> events[j].grant != g.id
  }

  ghost predicate GrantKept(r: Run, g: Grant) {
    && EventsFit(r, g) && OpenedOnce(r.db.events, g)
    && (g.revokedAt.Some? <==> g.id in r.revokedOn) && (g.id in r.revokedOn ==> r.revokedOn[g.id] <= r.clock)
  }

  ghost predicate Inv(r: Run) {
    && DistinctGrants(r.db.grants) && EventsHaveGrants(r.db)
    && (forall id :: id in r.revokedOn ==> HasGrant(r.db.grants, id))
    && forall i :: 0 <= i < |r.db.grants| ==> GrantKept(r, r.db.grants[i])
  }

  /** Nothing written yet. */
  ghost predicate Fresh(r: Run) {
    r.db.grants == [] && r.db.events == [] && r.revokedOn == map[]
  }

  lemma {:induction false} HasGrantAt(grants: seq<Grant>, i: nat)
    requires i < |grants|
    ensures HasGrant(grants, grants[i].id)
  {
  }

  lemma SameIds(grants: seq<Grant>, next: seq<Grant>)
    requires |grants| <= |next| && forall i :: 0 <= i < |grants| ==> next[i].id == grants[i].id
    ensures forall id :: HasGrant(grants, id) ==> HasGrant(next, id)
  {
    forall id | HasGrant(grants, id)
      ensures HasGrant(next, id)
    {
      var i := ById(grants, id).value;
      assert next[i].id == id;
    }
  }

  /** Grants are only ever added; of one written, the package, address, token and expiry never change, what opened it
      stays once set, and so does its revocation. */
  ghost predicate Follows(before: Grant, after: Grant) {
    && after == before.(openedBy := after.openedBy, openedAt := after.openedAt, revokedAt := after.revokedAt,
                        revokedBy := after.revokedBy)
    && (before.openedBy.Some? ==>
        after.openedBy == before.openedBy && (before.openedAt.Some? ==> after.openedAt == before.openedAt))
    && (before.revokedAt.Some? ==> after.revokedAt == before.revokedAt && after.revokedBy == before.revokedBy)
  }

  ghost predicate AllFollow(before: seq<Grant>, after: seq<Grant>) {
    |before| <= |after| && forall i :: 0 <= i < |before| ==> Follows(before[i], after[i])
  }

  lemma StepFollows(r: Run, step: Step)
    ensures AllFollow(r.db.grants, Next(r, step).db.grants)
    ensures r.db.events <= Next(r, step).db.events
    ensures r.clock <= Next(r, step).clock
  {
    if Touched(r, step).Some? {
      WriteFollows(r, step);
    }
  }

  lemma WriteFollows(r: Run, step: Step)
    requires Touched(r, step).Some?
    ensures
      var i, t := Touched(r, step).value, Next(r, step);
      && i < |r.db.grants| && |t.db.grants| == |r.db.grants| && Follows(r.db.grants[i], t.db.grants[i])
      && (forall k :: 0 <= k < |r.db.grants| && k != i ==> t.db.grants[k] == r.db.grants[k])
      && r.db.events <= t.db.events && r.clock == t.clock
  {
  }

  lemma AddedKeepsDistinct(grants: seq<Grant>, g: Grant)
    requires DistinctGrants(grants) && ById(grants, g.id).None? && ByToken(grants, g.tokenHash).None?
    requires forall i :: 0 <= i < |grants| && SameReader(grants[i], g) ==> grants[i].revokedAt.Some?
    ensures DistinctGrants(grants + [g])
  {
  }

  lemma WrittenKeepsDistinct(grants: seq<Grant>, i: nat, h: Grant)
    requires DistinctGrants(grants) && i < |grants| && Follows(grants[i], h)
    ensures DistinctGrants(grants[i := h])
  {
  }

  lemma KeepsDistinct(r: Run, step: Step)
    requires DistinctGrants(r.db.grants)
    ensures DistinctGrants(Next(r, step).db.grants)
  {
    var next := Next(r, step).db.grants;
    if step.Insert? && next != r.db.grants {
      AddedKeepsDistinct(r.db.grants, step.g);
    } else if Touched(r, step).Some? {
      var i := Touched(r, step).value;
      WrittenKeepsDistinct(r.db.grants, i, next[i]);
    }
  }

  lemma KeepsKnown(r: Run, step: Step)
    requires Inv(r)
    ensures EventsHaveGrants(Next(r, step).db)
    ensures forall id :: id in Next(r, step).revokedOn ==> HasGrant(Next(r, step).db.grants, id)
  {
    StepFollows(r, step);
    SameIds(r.db.grants, Next(r, step).db.grants);
    NewEventsKnown(r, step);
  }

  /** What a step writes, it writes of a grant there is. */
  lemma NewEventsKnown(r: Run, step: Step)
    ensures forall k :: |r.db.events| <= k < |Next(r, step).db.events| ==>
              HasGrant(Next(r, step).db.grants, Next(r, step).db.events[k].grant)
    ensures forall id :: id in Next(r, step).revokedOn && id !in r.revokedOn ==> HasGrant(Next(r, step).db.grants, id)
  {
    if Touched(r, step).Some? {
      WriteFollows(r, step);
      HasGrantAt(Next(r, step).db.grants, Touched(r, step).value);
    }
  }

  lemma NoEventsYet(r: Run, g: Grant)
    requires Inv(r) && ById(r.db.grants, g.id).None?
    ensures forall k :: 0 <= k < |r.db.events| ==> r.db.events[k].grant != g.id
    ensures g.id !in r.revokedOn
  {
    forall k | 0 <= k < |r.db.events|
      ensures r.db.events[k].grant != g.id
    {
      assert HasGrant(r.db.grants, r.db.events[k].grant);
    }
  }

  lemma InsertKeeps(r: Run, caller: Caller, g: Grant)
    requires Inv(r) && MayInsert(r.db, caller, g, r.clock)
    ensures GrantKept(Next(r, Insert(caller, g)), g)
  {
    NoEventsYet(r, g);
  }

  lemma RevokeKeeps(r: Run, step: Step)
    requires Inv(r) && step.Revoke? && Next(r, step) != r
    ensures GrantKept(Next(r, step), Next(r, step).db.grants[ById(r.db.grants, step.id).value])
  {
    var t, i := Next(r, step), ById(r.db.grants, step.id).value;
    var g, h := r.db.grants[i], t.db.grants[i];
    assert GrantKept(r, g);
    assert EventsFit(t, h);
    if g.openedBy.Some? {
      var k :| OneFirst(r.db.events, g, k);
      assert OneFirst(t.db.events, h, k);
    }
  }

  lemma OneFirstLater(events: seq<Event>, e: Event, g: Grant, h: Grant, k: nat)
    requires OneFirst(events, g, k) && h.id == g.id && h.openedAt == g.openedAt && !IsFirst(e, h)
    ensures OneFirst(events + [e], h, k)
  {
  }

  lemma OpenKeeps(r: Run, step: Step)
    requires Inv(r) && step.Open? && OpenRefusal(r.db, step.caller, step.token, r.clock).None?
    ensures GrantKept(Next(r, step), Next(r, step).db.grants[ByToken(r.db.grants, step.token).value])
  {
    var t, i := Next(r, step), ByToken(r.db.grants, step.token).value;
    var g, h := r.db.grants[i], t.db.grants[i];
    assert GrantKept(r, g);
    var e := Opened(g.id, g.organization, step.caller.user.value, g.openedBy.None?, r.clock);
    assert t.db.events == r.db.events + [e];
    assert EventsFit(t, h);
    if g.openedBy.Some? {
      var k :| OneFirst(r.db.events, g, k);
      OneFirstLater(r.db.events, e, g, h, k);
    } else {
      assert OneFirst(t.db.events, h, |r.db.events|);
    }
  }

  lemma DownloadKeeps(r: Run, step: Step)
    requires Inv(r) && step.Download? && LiveRefusal(r.db, step.caller, step.id, r.clock).None?
    ensures GrantKept(Next(r, step), r.db.grants[ById(r.db.grants, step.id).value])
  {
    var t, g := Next(r, step), r.db.grants[ById(r.db.grants, step.id).value];
    assert GrantKept(r, g);
    var k :| OneFirst(r.db.events, g, k);
    OneFirstLater(r.db.events, t.db.events[|r.db.events|], g, g, k);
  }

  /** A grant a step does not touch is kept, whatever happens to another. */
  lemma UntouchedKept(r: Run, t: Run, g: Grant)
    requires GrantKept(r, g) && r.clock <= t.clock && r.db.events <= t.db.events
    requires forall k :: |r.db.events| <= k < |t.db.events| ==> t.db.events[k].grant != g.id
    requires g.id in r.revokedOn <==> g.id in t.revokedOn
    requires g.id in r.revokedOn ==> t.revokedOn[g.id] == r.revokedOn[g.id]
    ensures GrantKept(t, g)
  {
    assert forall k :: 0 <= k < |r.db.events| ==> t.db.events[k] == r.db.events[k];
    assert EventsFit(t, g);
    if g.openedBy.Some? {
      var k :| OneFirst(r.db.events, g, k);
      assert OneFirst(t.db.events, g, k);
    }
  }

  /** The grant a step writes to, if it writes to one. */
  function Touched(r: Run, step: Step): Option<nat> {
    match step
    case Revoke(caller, id, at, revoker) => if Next(r, step) != r then ById(r.db.grants, id) else None
    case Open(caller, token) =>
      if OpenRefusal(r.db, caller, token, r.clock).None? then ByToken(r.db.grants, token) else None
    case Download(caller, id) => if LiveRefusal(r.db, caller, id, r.clock).None? then ById(r.db.grants, id) else None
    case _ => None
  }

  lemma KeepsGrant(r: Run, step: Step, i: nat)
    requires Inv(r) && i < |Next(r, step).db.grants|
    ensures GrantKept(Next(r, step), Next(r, step).db.grants[i])
  {
    var t := Next(r, step);
    if i >= |r.db.grants| {
      InsertKeeps(r, step.caller, step.g);
    } else if Touched(r, step) == Some(i) {
      if step.Revoke? {
        RevokeKeeps(r, step);
      } else if step.Open? {
        OpenKeeps(r, step);
      } else {
        DownloadKeeps(r, step);
      }
    } else {
      OthersUntouched(r, step, i);
      UntouchedKept(r, t, r.db.grants[i]);
    }
  }

  lemma OthersUntouched(r: Run, step: Step, i: nat)
    requires Inv(r) && i < |r.db.grants| && Touched(r, step) != Some(i)
    ensures
      var t, g := Next(r, step), r.db.grants[i];
      && t.db.grants[i] == g && r.db.events <= t.db.events && r.clock <= t.clock
      && (forall k :: |r.db.events| <= k < |t.db.events| ==> t.db.events[k].grant != g.id)
      && (g.id in r.revokedOn <==> g.id in t.revokedOn)
      && (g.id in r.revokedOn ==> t.revokedOn[g.id] == r.revokedOn[g.id])
  {
  }

  lemma KeepsInv(r: Run, step: Step)
    requires Inv(r)
    ensures Inv(Next(r, step))
  {
    KeepsDistinct(r, step);
    KeepsKnown(r, step);
    forall i | 0 <= i < |Next(r, step).db.grants|
      ensures GrantKept(Next(r, step), Next(r, step).db.grants[i])
    {
      KeepsGrant(r, step, i);
    }
  }

  lemma {:induction false} InvLater(r: Run, more: seq<Step>)
    requires Inv(r)
    ensures Inv(After(r, more))
  {
    if more != [] {
      InvLater(r, more[..|more| - 1]);
      KeepsInv(After(r, more[..|more| - 1]), more[|more| - 1]);
    }
  }

  lemma InvAlways(r: Run, steps: seq<Step>)
    requires Fresh(r)
    ensures Inv(After(r, steps))
  {
    InvLater(r, steps);
  }

  // ---------------------------------------------------------------- what that means

  lemma {:induction false} AfterTwice(r: Run, steps: seq<Step>, more: seq<Step>)
    ensures After(r, steps + more) == After(After(r, steps), more)
    decreases |more|
  {
    if more == [] {
      assert steps + more == steps;
    } else {
      AfterTwice(r, steps, more[..|more| - 1]);
      assert (steps + more)[..|steps + more| - 1] == steps + more[..|more| - 1];
    }
  }

  lemma FollowTwice(a: seq<Grant>, b: seq<Grant>, c: seq<Grant>)
    requires AllFollow(a, b) && AllFollow(b, c)
    ensures AllFollow(a, c)
  {
    forall i | 0 <= i < |a|
      ensures Follows(a[i], c[i])
    {
      assert Follows(a[i], b[i]) && Follows(b[i], c[i]);
    }
  }

  /** Whatever happens next, a grant stays the grant it was: opened by the same user, revoked for good. */
  lemma {:induction false} NothingIsUndone(r: Run, more: seq<Step>)
    ensures AllFollow(r.db.grants, After(r, more).db.grants)
    ensures r.db.events <= After(r, more).db.events
  {
    if more != [] {
      var s := After(r, more[..|more| - 1]);
      NothingIsUndone(r, more[..|more| - 1]);
      StepFollows(s, more[|more| - 1]);
      FollowTwice(r.db.grants, s.db.grants, After(r, more).db.grants);
    }
  }

  /** A grant that was opened has one opening marked first, before all its other events, at the time it was opened; one
      that was not has no event at all. */
  lemma OpenedExactlyOnce(r: Run, steps: seq<Step>, i: nat)
    requires Fresh(r) && i < |After(r, steps).db.grants|
    ensures
      var t := After(r, steps);
      var g := t.db.grants[i];
      if g.openedBy.Some? then exists k: nat :: OneFirst(t.db.events, g, k)
      else forall k :: 0 <= k < |t.db.events| ==> t.db.events[k].grant != g.id
  {
    InvAlways(r, steps);
    assert GrantKept(After(r, steps), After(r, steps).db.grants[i]);
  }

  /** Every event is of a grant that was opened, by the user who opened it, before it expired, and no later than the
      statement that revoked it. */
  lemma EventsAreTheOpeners(r: Run, steps: seq<Step>, k: nat)
    requires Fresh(r) && k < |After(r, steps).db.events|
    ensures
      var t := After(r, steps);
      var e := t.db.events[k];
      exists i :: 0 <= i < |t.db.grants| && t.db.grants[i].id == e.grant && EventFits(t, t.db.grants[i], e)
  {
    InvAlways(r, steps);
    var t := After(r, steps);
    assert HasGrant(t.db.grants, t.db.events[k].grant);
    var i := ById(t.db.grants, t.db.events[k].grant).value;
    assert GrantKept(t, t.db.grants[i]) && EventFits(t, t.db.grants[i], t.db.events[k]);
  }

  /** Two grants of one package to one address are never both live. */
  lemma OneLiveGrant(r: Run, steps: seq<Step>, i: nat, j: nat)
    requires Fresh(r)
    requires
      var grants := After(r, steps).db.grants;
      && i < |grants| && j < |grants| && grants[i].package == grants[j].package && grants[i].email == grants[j].email
      && grants[i].revokedAt.None? && grants[j].revokedAt.None?
    ensures i == j
  {
    InvAlways(r, steps);
  }

  // ---------------------------------------------------------------- what is written

  ghost predicate StandsInTheWay(grants: seq<Grant>, g: Grant) {
    exists i :: 0 <= i < |grants| &&
                (grants[i].id == g.id || grants[i].tokenHash == g.tokenHash
                 || (grants[i].package == g.package && grants[i].email == g.email && grants[i].revokedAt == None))
  }

  /** A grant may be written exactly by an admin of its organization in their own name, of a package of that organization,
      unopened and not revoked, from now for at most ninety days, to an address in lower case; while no other has its id
      or its token, or is of the same package to the same address and not revoked. */
  lemma WrittenExactlyWhen(db: Db, caller: Caller, g: Grant, now: int)
    ensures MayInsert(db, caller, g, now) <==>
            && caller.user == Some(g.createdBy) && (g.createdBy, g.organization) in db.admins
            && g.package in db.packages && db.packages[g.package].organization == g.organization
            && g == g.(openedBy := None, openedAt := None, revokedAt := None, revokedBy := None, createdAt := now)
            && now < g.expiresAt <= now + 7776000 && g.email == Lower(g.email) && !StandsInTheWay(db.grants, g)
  {
  }

  /** Written for at most ninety days, to an address with no capital in it. */
  ghost predicate Bounded(g: Grant) {
    && g.createdAt < g.expiresAt <= g.createdAt + 7776000
    && forall k :: 0 <= k < |g.email| ==> !('A' <= g.email[k] <= 'Z')
  }

  /** Every grant of every run is. */
  lemma {:induction false} GrantsAreBounded(r: Run, steps: seq<Step>, i: nat)
    requires Fresh(r) && i < |After(r, steps).db.grants|
    ensures Bounded(After(r, steps).db.grants[i])
  {
    if steps != [] {
      var s, step := After(r, steps[..|steps| - 1]), steps[|steps| - 1];
      StepFollows(s, step);
      if i < |s.db.grants| {
        GrantsAreBounded(r, steps[..|steps| - 1], i);
        assert Follows(s.db.grants[i], Next(s, step).db.grants[i]);
      }
    }
  }

  /** The step took the event down: a download, of what the granted package's manifest was at that moment. */
  ghost predicate TookDown(s: Run, step: Step, e: Event) {
    && step.Download? && e.Downloaded? && e.at == s.clock && step.caller.user == Some(e.user)
    && exists i :: 0 <= i < |s.db.grants| && s.db.grants[i].id == e.grant == step.id
                   && Downloads(s.db, s.db.grants[i], e)
  }

  ghost predicate Downloads(db: Db, g: Grant, e: Event)
    requires e.Downloaded?
  {
    e.organization == g.organization && (g.package in db.packages ==> e.manifest == db.packages[g.package].manifest)
  }

  ghost predicate TakenDown(r: Run, steps: seq<Step>, k: nat, e: Event) {
    exists n :: 0 <= n < |steps| && |After(r, steps[..n]).db.events| == k && TookDown(After(r, steps[..n]), steps[n], e)
  }

  lemma DownloadWrites(s: Run, step: Step, k: nat)
    requires |s.db.events| <= k < |Next(s, step).db.events| && Next(s, step).db.events[k].Downloaded?
    ensures k == |s.db.events| && TookDown(s, step, Next(s, step).db.events[k])
  {
    var i := ById(s.db.grants, step.id).value;
    var e := Next(s, step).db.events[k];
    assert Downloads(s.db, s.db.grants[i], e);
  }

  /** Every download on record was taken down when it was made, with the manifest its package had then. */
  lemma {:induction false} DownloadsRecordTheManifest(r: Run, steps: seq<Step>, k: nat)
    requires Fresh(r) && k < |After(r, steps).db.events| && After(r, steps).db.events[k].Downloaded?
    ensures TakenDown(r, steps, k, After(r, steps).db.events[k])
  {
    if steps != [] {
      var rest, step := steps[..|steps| - 1], steps[|steps| - 1];
      var s := After(r, rest);
      StepFollows(s, step);
      if k < |s.db.events| {
        DownloadsRecordTheManifest(r, rest, k);
        var n :| 0 <= n < |rest| && |After(r, rest[..n]).db.events| == k
                 && TookDown(After(r, rest[..n]), rest[n], s.db.events[k]);
        assert steps[..n] == rest[..n] && steps[n] == rest[n];
      } else {
        DownloadWrites(s, step, k);
      }
    }
  }

  lemma ByTokenIs(grants: seq<Grant>, i: nat)
    requires DistinctGrants(grants) && i < |grants|
    ensures ByToken(grants, grants[i].tokenHash) == Some(i)
    ensures ById(grants, grants[i].id) == Some(i)
  {
  }

  predicate IsLive(g: Grant, caller: Caller, now: int) {
    caller.user.Some? && caller.email == Some(g.email) && g.revokedAt.None? && now < g.expiresAt
  }

  ghost predicate MayOpen(grants: seq<Grant>, caller: Caller, token: nat, now: int) {
    exists i :: 0 <= i < |grants| && grants[i].tokenHash == token && IsLive(grants[i], caller, now)
                && (grants[i].openedBy.None? || grants[i].openedBy == caller.user)
  }

  ghost predicate MayRead(grants: seq<Grant>, caller: Caller, id: nat, now: int) {
    exists i :: 0 <= i < |grants| && grants[i].id == id && IsLive(grants[i], caller, now)
        && grants[i].openedBy == caller.user
  }

  /** A link opens exactly for somebody verified at the grant's address, while it is neither revoked nor expired, who is
      the first to open it or did before; a grant is read exactly by the one who opened it, under the same
      conditions. */
  lemma WhoGetsIn(db: Db, caller: Caller, token: nat, id: nat, now: int)
    requires DistinctGrants(db.grants)
    ensures OpenRefusal(db, caller, token, now).None? <==> MayOpen(db.grants, caller, token, now)
    ensures LiveRefusal(db, caller, id, now).None? <==> MayRead(db.grants, caller, id, now)
  {
    if i :| 0 <= i < |db.grants| && db.grants[i].tokenHash == token {
      ByTokenIs(db.grants, i);
    }
    if i :| 0 <= i < |db.grants| && db.grants[i].id == id {
      ByTokenIs(db.grants, i);
    }
  }

  /** Why a link is refused: only somebody signed in hears that it was revoked, then that it expired; only then whether
      it is theirs; and only at its own address that another opened it. */
  lemma OpeningIsRefusedFor(db: Db, caller: Caller, i: nat, now: int)
    requires DistinctGrants(db.grants) && i < |db.grants|
    ensures
      var g, refusal := db.grants[i], OpenRefusal(db, caller, db.grants[i].tokenHash, now);
      && (refusal == Some(NotAuthenticated) <==> caller.user == None)
      && (refusal == Some(NotOpen) <==> caller.user.Some? && g.revokedAt.Some?)
      && (refusal == Some(Expired) <==> caller.user.Some? && g.revokedAt == None && g.expiresAt <= now)
      && (refusal == Some(AnotherAddress) <==>
            caller.user.Some? && g.revokedAt == None && now < g.expiresAt && caller.email != Some(g.email))
      && (refusal == Some(AlreadyOpened) <==>
            IsLive(g, caller, now) && g.openedBy != None && g.openedBy != caller.user)
      && refusal !in {Some(NotFound), Some(Denied)}
  {
    ByTokenIs(db.grants, i);
  }

  /** Why a read or a download is: to anybody but its opener a grant is not there at all. */
  lemma ReadingIsRefusedFor(db: Db, caller: Caller, i: nat, now: int)
    requires DistinctGrants(db.grants) && i < |db.grants|
    ensures
      var g, refusal := db.grants[i], LiveRefusal(db, caller, db.grants[i].id, now);
      && (refusal == Some(NotAuthenticated) <==> caller.user == None)
      && (refusal == Some(NotFound) <==> caller.user.Some? && g.openedBy != caller.user)
      && (refusal == Some(NotOpen) <==> caller.user.Some? && g.openedBy == caller.user && g.revokedAt.Some?)
      && (refusal == Some(Expired) <==>
            caller.user.Some? && g.openedBy == caller.user && g.revokedAt == None && g.expiresAt <= now)
      && (refusal == Some(AnotherAddress) <==>
            && caller.user.Some? && g.openedBy == caller.user && g.revokedAt == None && now < g.expiresAt
            && caller.email != Some(g.email))
  {
    ByTokenIs(db.grants, i);
  }

  /** Once somebody opened it, a link is refused to everybody else, ever after. */
  lemma LinkIsSpent(r: Run, steps: seq<Step>, more: seq<Step>, i: nat, caller: Caller, now: int)
    requires Fresh(r) && i < |After(r, steps).db.grants| && After(r, steps).db.grants[i].openedBy.Some?
    requires caller.user != After(r, steps).db.grants[i].openedBy
    ensures OpenRefusal(After(r, steps + more).db, caller, After(r, steps).db.grants[i].tokenHash, now).Some?
    ensures LiveRefusal(After(r, steps + more).db, caller, After(r, steps).db.grants[i].id, now).Some?
  {
    InvAlways(r, steps + more);
    AfterTwice(r, steps, more);
    NothingIsUndone(After(r, steps), more);
    ByTokenIs(After(r, steps + more).db.grants, i);
  }

  // ---------------------------------------------------------------- revocation

  lemma RevokedIsSilent(r: Run, step: Step, i: nat)
    requires Inv(r) && i < |r.db.grants| && r.db.grants[i].revokedAt.Some?
    ensures forall k :: |r.db.events| <= k < |Next(r, step).db.events| ==>
              Next(r, step).db.events[k].grant != r.db.grants[i].id
  {
    ByTokenIs(r.db.grants, i);
    if Touched(r, step) != Some(i) {
      OthersUntouched(r, step, i);
    }
  }

  ghost predicate SilentSince(before: seq<Event>, after: seq<Event>, id: nat) {
    before <= after && forall k :: |before| <= k < |after| ==> after[k].grant != id
  }

  /** Nothing happens through a grant after it is revoked. */
  lemma {:induction false} NothingAfterRevocation(r: Run, more: seq<Step>, i: nat)
    requires Inv(r) && i < |r.db.grants| && r.db.grants[i].revokedAt.Some?
    ensures SilentSince(r.db.events, After(r, more).db.events, r.db.grants[i].id)
  {
    if more != [] {
      var s := After(r, more[..|more| - 1]);
      NothingAfterRevocation(r, more[..|more| - 1], i);
      InvLater(r, more[..|more| - 1]);
      NothingIsUndone(r, more[..|more| - 1]);
      assert Follows(r.db.grants[i], s.db.grants[i]);
      RevokedIsSilent(s, more[|more| - 1], i);
      StepFollows(s, more[|more| - 1]);
    }
  }

  ghost predicate EventsBy(db: Db, id: nat, time: int) {
    forall k :: 0 <= k < |db.events| && db.events[k].grant == id ==> db.events[k].at <= time
  }

  /** The time recorded for a revocation is the caller's to give. Every event of the grant, then and ever after, falls
      no later than it exactly when every event so far does: as with any time from the clock on. */
  lemma RecordedTimeHolds(r: Run, step: Step, more: seq<Step>)
    requires Inv(r) && step.Revoke? && Next(r, step) != r
    ensures EventsBy(After(Next(r, step), more).db, step.id, step.at) <==> EventsBy(r.db, step.id, step.at)
    ensures step.at >= r.clock ==> EventsBy(r.db, step.id, step.at)
  {
    var t, i := Next(r, step), ById(r.db.grants, step.id).value;
    KeepsInv(r, step);
    NothingAfterRevocation(t, more, i);
    assert GrantKept(r, r.db.grants[i]);
    if step.at >= r.clock {
      forall k | 0 <= k < |r.db.events| && r.db.events[k].grant == step.id
        ensures r.db.events[k].at <= step.at
      {
        assert EventFits(r, r.db.grants[i], r.db.events[k]);
      }
    }
  }

  /** An owner who dates a revocation before an opening leaves an event later than the time recorded. */
  lemma RevocationCanBeBackdated() returns (r: Run, steps: seq<Step>)
    ensures Fresh(r)
    ensures
      var t := After(r, steps);
      && |t.db.grants| == 1 && |t.db.events| == 1 && t.db.events[0].grant == t.db.grants[0].id
      && t.db.grants[0].revokedAt == Some(1) && t.db.events[0].at == 2
  {
    var owner, auditor := Caller(Some(1), Some("o")), Caller(Some(2), Some("a"));
    var g := Grant(7, 5, 3, "a", 9, 1, 0, 10, None, None, None, None);
    r := Run(Db([], [], map[3 := Package(5, 4)], {}, {}, {(1, 5)}), 0, map[]);
    var s1 := Next(r, Insert(owner, g));
    assert Lower("a") == "a";
    assert s1.db.grants == [g];
    var s2 := Next(s1, Tick(2));
    var s3 := Next(s2, Open(auditor, 9));
    assert ByToken(s2.db.grants, 9) == Some(0);
    assert s3.db.grants == [g.(openedBy := Some(2), openedAt := Some(2))];
    var s4 := Next(s3, Revoke(owner, 7, 1, Some(1)));
    assert ById(s3.db.grants, 7) == Some(0);
    steps := [Insert(owner, g), Tick(2), Open(auditor, 9), Revoke(owner, 7, 1, Some(1))];
    assert steps[..3][..2][..1][..0] == [];
    assert steps[..3][..2][..1] == [Insert(owner, g)];
    assert steps[..3][..2] == [Insert(owner, g), Tick(2)];
    assert steps[..3] == [Insert(owner, g), Tick(2), Open(auditor, 9)];
    assert After(r, [Insert(owner, g)]) == s1;
    assert After(r, [Insert(owner, g), Tick(2)]) == s2;
    assert After(r, steps[..3]) == s3;
  }
}
