/** Grants: an auditor reads one sealed package, as the person the owner named. Ids, users and hashes are numbers
    here. */
module AuditGrants {
  import opened Wrappers
  import opened Text

  const NINETY_DAYS := 90 * 24 * 3600

  datatype Grant = Grant(id: nat, organization: nat, package: nat, email: string, tokenHash: nat, createdBy: nat,
                         createdAt: int, expiresAt: int, openedBy: Option<nat>, openedAt: Option<int>,
                         revokedAt: Option<int>, revokedBy: Option<nat>)

  /** What a grant's functions did. `detail` is whether an opening was the first, or the manifest a download was of. */
  datatype Event = Opened(grant: nat, organization: nat, user: nat, first: bool, at: int)
                 | Downloaded(grant: nat, organization: nat, user: nat, manifest: nat, at: int)

  datatype Package = Package(organization: nat, manifest: nat)
  datatype Item = Item(package: nat, organization: nat, hash: Option<nat>)
  datatype Blob = Blob(organization: nat, hash: nat, payload: string)

  /** The tables: grants and their events in the order written, sealed packages, stored payloads, and who administers
      what. */
  datatype Db = Db(grants: seq<Grant>, events: seq<Event>, packages: map<nat, Package>, items: set<Item>,
                   blobs: set<Blob>, admins: set<(nat, nat)>)

  /** Who the request is by, and the address that was verified. */
  datatype Caller = Caller(user: Option<nat>, email: Option<string>)

  datatype Refusal = NotAuthenticated | NotFound | NotOpen | Expired | AnotherAddress | AlreadyOpened | Denied

  function ById(grants: seq<Grant>, id: nat): (r: Option<nat>)
    ensures r.Some? ==> r.value < |grants| && grants[r.value].id == id
    ensures r.None? ==> forall i :: 0 <= i < |grants| ==> grants[i].id != id
  {
    if grants == [] then None
    else if grants[|grants| - 1].id == id then Some(|grants| - 1)
    else ById(grants[..|grants| - 1], id)
  }

  function ByToken(grants: seq<Grant>, hash: nat): (r: Option<nat>)
    ensures r.Some? ==> r.value < |grants| && grants[r.value].tokenHash == hash
    ensures r.None? ==> forall i :: 0 <= i < |grants| ==> grants[i].tokenHash != hash
  {
    if grants == [] then None
    else if grants[|grants| - 1].tokenHash == hash then Some(|grants| - 1)
    else ByToken(grants[..|grants| - 1], hash)
  }

  /** Grants of one package to one address. */
  predicate SameReader(g: Grant, h: Grant) {
    g.package == h.package && g.email == h.email
  }

  predicate Administers(db: Db, caller: Caller, organization: nat) {
    caller.user.Some? && (caller.user.value, organization) in db.admins
  }

  // ---------------------------------------------------------------- what an admin may write

  /** The insert policy, and the constraints on the table. */
  predicate MayInsert(db: Db, caller: Caller, g: Grant, now: int) {
    && Administers(db, caller, g.organization) && Some(g.createdBy) == caller.user && g.createdAt == now
    && g.openedBy.None? && g.openedAt.None? && g.revokedBy.None? && g.revokedAt.None?
    && ById(db.grants, g.id).None? && ByToken(db.grants, g.tokenHash).None?
    && g.package in db.packages && db.packages[g.package].organization == g.organization
    && g.email == Lower(g.email) && now < g.expiresAt <= now + NINETY_DAYS
    && (forall i :: 0 <= i < |db.grants| && SameReader(db.grants[i], g) ==> db.grants[i].revokedAt.Some?)
  }

  /** Whether a grant already written keeps another from being: by its id, its token, or being live for the same package
      and address. */
  predicate Clashes(g: Grant, next: Grant) {
    g.id == next.id || g.tokenHash == next.tokenHash || (SameReader(g, next) && g.revokedAt.None?)
  }

  /** The update policy: a live grant is marked revoked, by the one who revokes it. The time is the caller's to give. */
  predicate MayRevoke(db: Db, caller: Caller, i: nat, revoker: Option<nat>)
    requires i < |db.grants|
  {
    Administers(db, caller, db.grants[i].organization) && db.grants[i].revokedAt.None? && revoker == caller.user
  }

  function Revoked(db: Db, i: nat, at: int, revoker: nat): Db
    requires i < |db.grants|
  {
    db.(grants := db.grants[i := db.grants[i].(revokedAt := Some(at), revokedBy := Some(revoker))])
  }

  // ---------------------------------------------------------------- what an auditor may do

  /** `live_audit_grant`. */
  function LiveRefusal(db: Db, caller: Caller, id: nat, now: int): Option<Refusal> {
    var i := ById(db.grants, id);
    if caller.user.None? then Some(NotAuthenticated)
    else if i.None? || db.grants[i.value].openedBy != caller.user then Some(NotFound)
    else if db.grants[i.value].revokedAt.Some? then Some(NotOpen)
    else if db.grants[i.value].expiresAt <= now then Some(Expired)
    else if caller.email != Some(db.grants[i.value].email) then Some(AnotherAddress)
    else None
  }

  function OpenRefusal(db: Db, caller: Caller, token: nat, now: int): Option<Refusal> {
    var i := ByToken(db.grants, token);
    if caller.user.None? then Some(NotAuthenticated)
    else if i.None? then Some(NotFound)
    else if db.grants[i.value].revokedAt.Some? then Some(NotOpen)
    else if db.grants[i.value].expiresAt <= now then Some(Expired)
    else if caller.email != Some(db.grants[i.value].email) then Some(AnotherAddress)
    else if db.grants[i.value].openedBy.Some? && db.grants[i.value].openedBy != caller.user then Some(AlreadyOpened)
    else None
  }

  function OpenedBy(db: Db, i: nat, user: nat, now: int): Db
    requires i < |db.grants|
  {
    var g := db.grants[i];
    db.(grants := db.grants[i := g.(openedBy := Some(user),
                                    openedAt := Some(if g.openedAt.Some? then g.openedAt.value else now))],
        events := db.events + [Opened(g.id, g.organization, user, g.openedBy.None?, now)])
  }

  function DownloadedBy(db: Db, i: nat, user: nat, manifest: nat, now: int): Db
    requires i < |db.grants|
  {
    db.(events := db.events + [Downloaded(db.grants[i].id, db.grants[i].organization, user, manifest, now)])
  }

  /** The payloads a package's own items name. */
  predicate Named(db: Db, g: Grant, hash: nat) {
    Item(g.package, g.organization, Some(hash)) in db.items
  }

  /** The stored payloads asked for that the granted package names. */
  function BlobsOf(db: Db, g: Grant, hashes: set<nat>): set<Blob> {
    set b | b in db.blobs && b.organization == g.organization && b.hash in hashes && Named(db, g, b.hash)
  }

  function ManifestOf(db: Db, package: nat): nat {
    if package in db.packages then db.packages[package].manifest else 0
  }

  /** The grants as they are kept, each method one statement or function call of a request. */
  class Store {
    var db: Db

    constructor (db: Db)
      ensures this.db == db
    {
      this.db := db;
    }

    /** A row is taken if the policy passes it and then each constraint of the table does. */
    method Insert(caller: Caller, g: Grant, now: int) returns (done: bool)
      modifies this
      ensures done <==> MayInsert(old(db), caller, g, now)
      ensures db == if done then old(db).(grants := old(db).grants + [g]) else old(db)
    {
      if !Administers(db, caller, g.organization) || caller.user != Some(g.createdBy) {
        return false;
      }
      if g.openedBy.Some? || g.openedAt.Some? || g.revokedBy.Some? || g.revokedAt.Some? {
        return false;
      }
      if g.package !in db.packages || db.packages[g.package].organization != g.organization {
        return false;
      }
      if g.createdAt != now || g.email != Lower(g.email) || g.expiresAt <= now || g.expiresAt > now + NINETY_DAYS {
        return false;
      }
      var i := 0;
      while i < |db.grants|
        invariant 0 <= i <= |db.grants|
        invariant forall k :: 0 <= k < i ==> !Clashes(db.grants[k], g)
      {
        if Clashes(db.grants[i], g) {
          return false;
        }
        i := i + 1;
      }
      db := db.(grants := db.grants + [g]);
      done := true;
    }

    /** Only the two columns granted are written, and only where the policy holds before and after. */
    method Revoke(caller: Caller, id: nat, at: int, revoker: Option<nat>) returns (done: bool)
      modifies this
      ensures var i := ById(old(db).grants, id); done <==> i.Some? && MayRevoke(old(db), caller, i.value, revoker)
      ensures done ==> revoker.Some? && ById(old(db).grants, id).Some?
      ensures db == if done then Revoked(old(db), ById(old(db).grants, id).value, at, revoker.value) else old(db)
    {
      var i := ById(db.grants, id);
      if i.None? {
        return false;
      }
      var g := db.grants[i.value];
      if !Administers(db, caller, g.organization) || g.revokedAt.Some? {
        return false;
      }
      if revoker != caller.user {
        return false;
      }
      db := db.(grants := db.grants[i.value := g.(revokedAt := Some(at), revokedBy := revoker)]);
      done := true;
    }

    /** `open_audit_grant`: spends the link. */
    method Open(caller: Caller, token: nat, now: int) returns (r: Result<nat, Refusal>)
      modifies this
      ensures match OpenRefusal(old(db), caller, token, now)
        case Some(refusal) => r == Err(refusal) && db == old(db)
        case None =>
          && r == Ok(old(db).grants[ByToken(old(db).grants, token).value].id)
          && db == OpenedBy(old(db), ByToken(old(db).grants, token).value, caller.user.value, now)
    {
      if caller.user.None? {
        return Err(NotAuthenticated);
      }
      var i := ByToken(db.grants, token);
      if i.None? {
        return Err(NotFound);
      }
      var g := db.grants[i.value];
      if g.revokedAt.Some? {
        return Err(NotOpen);
      }
      if g.expiresAt <= now {
        return Err(Expired);
      }
      if caller.email.None? || caller.email.value != g.email {
        return Err(AnotherAddress);
      }
      if g.openedBy.Some? && g.openedBy.value != caller.user.value {
        return Err(AlreadyOpened);
      }
      var marked := g.(openedBy := caller.user, openedAt := if g.openedAt.None? then Some(now) else g.openedAt);
      db := db.(grants := db.grants[i.value := marked]);
      db := db.(events := db.events + [Opened(g.id, g.organization, caller.user.value, g.openedBy.None?, now)]);
      r := Ok(g.id);
    }

    /** `record_audit_grant_download`. */
    method Download(caller: Caller, id: nat, now: int) returns (r: Result<(), Refusal>)
      modifies this
      ensures match LiveRefusal(old(db), caller, id, now)
        case Some(refusal) => r == Err(refusal) && db == old(db)
        case None =>
          var i := ById(old(db).grants, id).value;
          r == Ok(())
          && db == DownloadedBy(old(db), i, caller.user.value, ManifestOf(old(db), old(db).grants[i].package), now)
    {
      var refusal := LiveRefusal(db, caller, id, now);
      if refusal.Some? {
        return Err(refusal.value);
      }
      var g := db.grants[ById(db.grants, id).value];
      db := db.(events := db.events
                + [Downloaded(g.id, g.organization, g.openedBy.value, ManifestOf(db, g.package), now)]);
      r := Ok(());
    }

    /** `audit_grant_blobs`: the hashes the granted package's items name, and the payloads under those asked for. */
    method Blobs(caller: Caller, id: nat, hashes: set<nat>, now: int) returns (r: Result<set<Blob>, Refusal>)
      ensures match LiveRefusal(db, caller, id, now)
        case Some(refusal) => r == Err(refusal)
        case None => r == Ok(BlobsOf(db, db.grants[ById(db.grants, id).value], hashes))
    {
      var refusal := LiveRefusal(db, caller, id, now);
      if refusal.Some? {
        return Err(refusal.value);
      }
      var g := db.grants[ById(db.grants, id).value];
      var items := set i | i in db.items && i.package == g.package && i.organization == g.organization && i.hash.Some?;
      var named := set i | i in items :: i.hash.value;
      var stored := set b | b in db.blobs && b.organization == g.organization && b.hash in hashes;
      forall h
        ensures h in named <==> Named(db, g, h)
      {
        if h in named {
          var i :| i in items && i.hash.value == h;
          assert i == Item(g.package, g.organization, Some(h));
        }
        if Named(db, g, h) {
          assert Item(g.package, g.organization, Some(h)) in items;
        }
      }
      var found := set b | b in stored && b.hash in named;
      assert found == BlobsOf(db, g, hashes);
      r := Ok(found);
    }
  }
}
