/** Where every grant, opening, revocation and payload given out of a run came from. */
module GrantReads {
  import opened Wrappers
  import opened AuditGrants
  import opened GrantRuns

  /** The tables as the step numbered `k` finds them. */
  function Before(r: Run, steps: seq<Step>, k: nat): Run
    requires k <= |steps|
  {
    After(r, steps[..k])
  }

  /** The payloads a read gives its caller: none, where the grant refuses it. */
  function Given(r: Run, step: Step): set<Blob> {
    if !step.Read? || LiveRefusal(r.db, step.caller, step.id, r.clock).Some? then {}
    else BlobsOf(r.db, r.db.grants[ById(r.db.grants, step.id).value], step.hashes)
  }

  /** The step wrote this grant: its creator administered its organization, and the package was that organization's. */
  ghost predicate InsertedBy(s: Run, step: Step, g: Grant) {
    && step.Insert? && Follows(step.g, g) && step.caller.user == Some(g.createdBy)
    && Administers(s.db, step.caller, g.organization)
    && g.package in s.db.packages && s.db.packages[g.package].organization == g.organization
    && g.createdAt == s.clock < g.expiresAt <= s.clock + NINETY_DAYS
  }

  /** The step first opened this grant: with its token, by a caller verified at its address, while it was live. */
  ghost predicate OpenedWith(s: Run, step: Step, g: Grant) {
    && step.Open? && step.token == g.tokenHash && step.caller.email == Some(g.email)
    && g.openedBy == step.caller.user && g.openedAt == Some(s.clock) && s.clock < g.expiresAt
    && exists i :: 0 <= i < |s.db.grants| && s.db.grants[i].id == g.id
                   && s.db.grants[i].openedBy == None && s.db.grants[i].revokedAt == None
  }

  /** The step revoked this grant: by one who then administered its organization, under their own name. */
  ghost predicate RevokedWith(s: Run, step: Step, g: Grant) {
    && step.Revoke? && step.id == g.id && g.revokedBy == step.caller.user && g.revokedAt == Some(step.at)
    && Administers(s.db, step.caller, g.organization)
  }

  ghost predicate WasInserted(r: Run, steps: seq<Step>, g: Grant) {
    exists j: nat :: j < |steps| && InsertedBy(Before(r, steps, j), steps[j], g)
  }

  ghost predicate WasOpened(r: Run, steps: seq<Step>, g: Grant) {
    exists j: nat :: j < |steps| && OpenedWith(Before(r, steps, j), steps[j], g)
  }

  ghost predicate WasRevoked(r: Run, steps: seq<Step>, g: Grant) {
    exists j: nat :: j < |steps| && RevokedWith(Before(r, steps, j), steps[j], g)
  }

  /** How a grant got to be what it is. */
  ghost predicate Accounted(r: Run, steps: seq<Step>, g: Grant) {
    && WasInserted(r, steps, g) && (g.openedBy.Some? ==> WasOpened(r, steps, g))
    && (g.revokedAt.Some? ==> WasRevoked(r, steps, g))
  }

  /** What was accounted for stays so, as steps follow that leave the grant's opening and revocation alone. */
  lemma StillInserted(r: Run, steps: seq<Step>, step: Step, g: Grant, h: Grant)
    requires WasInserted(r, steps, g) && Follows(g, h)
    ensures WasInserted(r, steps + [step], h)
  {
    var j: nat :| j < |steps| && InsertedBy(Before(r, steps, j), steps[j], g);
    assert (steps + [step])[..j] == steps[..j];
    assert InsertedBy(Before(r, steps + [step], j), (steps + [step])[j], h);
  }

  lemma StillOpened(r: Run, steps: seq<Step>, step: Step, g: Grant, h: Grant)
    requires WasOpened(r, steps, g) && Follows(g, h) && g.openedBy == h.openedBy && g.openedAt == h.openedAt
    ensures WasOpened(r, steps + [step], h)
  {
    var j: nat :| j < |steps| && OpenedWith(Before(r, steps, j), steps[j], g);
    assert (steps + [step])[..j] == steps[..j];
    assert OpenedWith(Before(r, steps + [step], j), (steps + [step])[j], h);
  }

  lemma StillRevoked(r: Run, steps: seq<Step>, step: Step, g: Grant, h: Grant)
    requires WasRevoked(r, steps, g) && Follows(g, h) && g.revokedAt == h.revokedAt && g.revokedBy == h.revokedBy
    ensures WasRevoked(r, steps + [step], h)
  {
    var j: nat :| j < |steps| && RevokedWith(Before(r, steps, j), steps[j], g);
    assert (steps + [step])[..j] == steps[..j];
    assert RevokedWith(Before(r, steps + [step], j), (steps + [step])[j], h);
  }

  lemma NowInserted(r: Run, rest: seq<Step>, step: Step, g: Grant)
    requires InsertedBy(After(r, rest), step, g)
    ensures WasInserted(r, rest + [step], g)
  {
    assert (rest + [step])[..|rest|] == rest;
    assert InsertedBy(Before(r, rest + [step], |rest|), (rest + [step])[|rest|], g);
  }

  lemma NowOpened(r: Run, rest: seq<Step>, step: Step, g: Grant)
    requires OpenedWith(After(r, rest), step, g)
    ensures WasOpened(r, rest + [step], g)
  {
    assert (rest + [step])[..|rest|] == rest;
    assert OpenedWith(Before(r, rest + [step], |rest|), (rest + [step])[|rest|], g);
  }

  lemma NowRevoked(r: Run, rest: seq<Step>, step: Step, g: Grant)
    requires RevokedWith(After(r, rest), step, g)
    ensures WasRevoked(r, rest + [step], g)
  {
    assert (rest + [step])[..|rest|] == rest;
    assert RevokedWith(Before(r, rest + [step], |rest|), (rest + [step])[|rest|], g);
  }

  lemma OnlyOpenOpens(s: Run, step: Step, i: nat)
    requires Inv(s) && i < |s.db.grants| && s.db.grants[i].openedBy.None?
    requires i < |Next(s, step).db.grants| && Next(s, step).db.grants[i].openedBy.Some?
    ensures OpenedWith(s, step, Next(s, step).db.grants[i])
  {
    assert GrantKept(s, s.db.grants[i]);
    assert Touched(s, step) == Some(i);
  }

  lemma OnlyRevokeRevokes(s: Run, step: Step, i: nat)
    requires i < |s.db.grants| && s.db.grants[i].revokedAt.None?
    requires i < |Next(s, step).db.grants| && Next(s, step).db.grants[i].revokedAt.Some?
    ensures RevokedWith(s, step, Next(s, step).db.grants[i])
  {
    assert Touched(s, step) == Some(i);
  }

  lemma FollowsAt(s: Run, step: Step, i: nat)
    requires i < |s.db.grants|
    ensures i < |Next(s, step).db.grants| && Follows(s.db.grants[i], Next(s, step).db.grants[i])
  {
    StepFollows(s, step);
  }

  lemma OpeningIsAccounted(r: Run, rest: seq<Step>, step: Step, i: nat)
    requires Inv(After(r, rest)) && i < |After(r, rest).db.grants| && i < |Next(After(r, rest), step).db.grants|
    requires After(r, rest).db.grants[i].openedBy.Some? ==> WasOpened(r, rest, After(r, rest).db.grants[i])
    requires Next(After(r, rest), step).db.grants[i].openedBy.Some?
    ensures WasOpened(r, rest + [step], Next(After(r, rest), step).db.grants[i])
  {
    var s := After(r, rest);
    var g, h := s.db.grants[i], Next(s, step).db.grants[i];
    if g.openedBy.Some? {
      FollowsAt(s, step, i);
      StillOpened(r, rest, step, g, h);
    } else {
      OnlyOpenOpens(s, step, i);
      NowOpened(r, rest, step, h);
    }
  }

  lemma RevocationIsAccounted(r: Run, rest: seq<Step>, step: Step, i: nat)
    requires i < |After(r, rest).db.grants| && i < |Next(After(r, rest), step).db.grants|
    requires After(r, rest).db.grants[i].revokedAt.Some? ==> WasRevoked(r, rest, After(r, rest).db.grants[i])
    requires Next(After(r, rest), step).db.grants[i].revokedAt.Some?
    ensures WasRevoked(r, rest + [step], Next(After(r, rest), step).db.grants[i])
  {
    var s := After(r, rest);
    var g, h := s.db.grants[i], Next(s, step).db.grants[i];
    if g.revokedAt.Some? {
      FollowsAt(s, step, i);
      StillRevoked(r, rest, step, g, h);
    } else {
      OnlyRevokeRevokes(s, step, i);
      NowRevoked(r, rest, step, h);
    }
  }

  lemma InsertionIsAccounted(r: Run, rest: seq<Step>, step: Step, i: nat)
    requires |After(r, rest).db.grants| <= i < |Next(After(r, rest), step).db.grants|
    ensures Accounted(r, rest + [step], Next(After(r, rest), step).db.grants[i])
  {
    OnlyInsertAdds(After(r, rest), step, i);
    NowInserted(r, rest, step, step.g);
  }

  lemma OnlyInsertAdds(s: Run, step: Step, i: nat)
    requires |s.db.grants| <= i < |Next(s, step).db.grants|
    ensures step.Insert? && Next(s, step).db.grants[i] == step.g && InsertedBy(s, step, step.g)
    ensures step.g.openedBy.None? && step.g.revokedAt.None?
  {
  }

  lemma StepIsAccounted(r: Run, rest: seq<Step>, step: Step, i: nat)
    requires Inv(After(r, rest)) && i < |After(r, rest).db.grants| && Accounted(r, rest, After(r, rest).db.grants[i])
    ensures i < |Next(After(r, rest), step).db.grants|
    ensures Accounted(r, rest + [step], Next(After(r, rest), step).db.grants[i])
  {
    var s := After(r, rest);
    StepFollows(s, step);
    var g, h := s.db.grants[i], Next(s, step).db.grants[i];
    StillInserted(r, rest, step, g, h);
    if h.openedBy.Some? {
      OpeningIsAccounted(r, rest, step, i);
    }
    if h.revokedAt.Some? {
      RevocationIsAccounted(r, rest, step, i);
    }
  }

  lemma AccountedOneMore(r: Run, rest: seq<Step>, step: Step, i: nat)
    requires Inv(After(r, rest)) && i < |Next(After(r, rest), step).db.grants|
    requires i < |After(r, rest).db.grants| ==> Accounted(r, rest, After(r, rest).db.grants[i])
    ensures Accounted(r, rest + [step], Next(After(r, rest), step).db.grants[i])
  {
    if i < |After(r, rest).db.grants| {
      StepIsAccounted(r, rest, step, i);
    } else {
      InsertionIsAccounted(r, rest, step, i);
    }
  }

  /** Every grant of every run was inserted by an admin of its organization; and, if it is opened, opened by somebody
      verified at its address, and if revoked, revoked by an admin. */
  lemma {:induction false} EveryGrantIsAccounted(r: Run, steps: seq<Step>, i: nat)
    requires Fresh(r) && i < |After(r, steps).db.grants|
    ensures Accounted(r, steps, After(r, steps).db.grants[i])
  {
    if steps != [] {
      var rest, step := steps[..|steps| - 1], steps[|steps| - 1];
      assert steps == rest + [step];
      InvAlways(r, rest);
      if i < |After(r, rest).db.grants| {
        EveryGrantIsAccounted(r, rest, i);
      }
      AccountedOneMore(r, rest, step, i);
    }
  }

  // ---------------------------------------------------------------- what is read

  /** What the read numbered `k` may take through the grant `g`: a payload of the grant's organization that its package
      names, for whoever opened the grant, verified at its address, neither revoked nor expired at that moment; and how
      the grant came to be. */
  ghost predicate MayTake(r: Run, steps: seq<Step>, k: nat, g: Grant, b: Blob)
    requires k < |steps| && steps[k].Read?
  {
    var s, caller := Before(r, steps, k), steps[k].caller;
    && g in s.db.grants && g.id == steps[k].id && b in s.db.blobs && b.hash in steps[k].hashes
    && b.organization == g.organization && Named(s.db, g, b.hash)
    && IsLive(g, caller, s.clock) && g.openedBy == caller.user
    && WasInserted(r, steps[..k], g) && WasOpened(r, steps[..k], g)
  }

  lemma GivenMayBeTaken(r: Run, steps: seq<Step>, k: nat, b: Blob)
    requires Fresh(r) && k < |steps| && steps[k].Read? && b in Given(Before(r, steps, k), steps[k])
    ensures exists g :: MayTake(r, steps, k, g, b)
  {
    var s := Before(r, steps, k);
    var i := ById(s.db.grants, steps[k].id).value;
    EveryGrantIsAccounted(r, steps[..k], i);
    assert MayTake(r, steps, k, s.db.grants[i], b);
  }

  lemma TakenIsGiven(s: Run, step: Step, g: Grant, b: Blob)
    requires Inv(s) && step.Read? && g in s.db.grants && g.id == step.id
    requires b in BlobsOf(s.db, g, step.hashes) && IsLive(g, step.caller, s.clock) && g.openedBy == step.caller.user
    ensures b in Given(s, step)
  {
    var i :| 0 <= i < |s.db.grants| && s.db.grants[i] == g;
    ByTokenIs(s.db.grants, i);
  }

  /** Over every run, a read gives a payload exactly when its caller may take it through some grant. */
  lemma PayloadsAreGranted(r: Run, steps: seq<Step>, k: nat, b: Blob)
    requires Fresh(r) && k < |steps| && steps[k].Read?
    ensures b in Given(Before(r, steps, k), steps[k]) <==> exists g :: MayTake(r, steps, k, g, b)
  {
    if b in Given(Before(r, steps, k), steps[k]) {
      GivenMayBeTaken(r, steps, k, b);
    }
    if g :| MayTake(r, steps, k, g, b) {
      InvAlways(r, steps[..k]);
      TakenIsGiven(Before(r, steps, k), steps[k], g, b);
    }
  }

  lemma RevokedGivesNothing(s: Run, i: nat, step: Step)
    requires DistinctGrants(s.db.grants) && i < |s.db.grants| && s.db.grants[i].revokedAt.Some?
    requires step.Read? && step.id == s.db.grants[i].id
    ensures Given(s, step) == {}
  {
    ByTokenIs(s.db.grants, i);
  }

  /** From its revocation on, nothing is read through a grant, by anybody. */
  lemma NothingReadAfterRevocation(r: Run, more: seq<Step>, i: nat, step: Step)
    requires Inv(r) && i < |r.db.grants| && r.db.grants[i].revokedAt.Some?
    requires step.Read? && step.id == r.db.grants[i].id
    ensures Given(After(r, more), step) == {}
  {
    InvLater(r, more);
    NothingIsUndone(r, more);
    assert Follows(r.db.grants[i], After(r, more).db.grants[i]);
    RevokedGivesNothing(After(r, more), i, step);
  }
}
