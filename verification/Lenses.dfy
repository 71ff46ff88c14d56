/** What a role lets its holder do to an asset below the scope it is held at. */
module Lenses {
  import opened Text
  import opened Resources

  const SCOPES: set<ResourceType> := {SUBSCRIPTION, RESOURCE_GROUP}
  const CONTROLLING: set<AccessKind> := {READ_DATA, EXECUTE, EDIT_POLICY}

  /** The (type, kind) pairs a walk holds below an edge, or everything. */
  datatype Lens = Lens(everything: bool, grants: set<Pair>)

  const EVERYTHING := Lens(true, {})

  predicate OwnPolicy(r: Resource) {
    MetaAt(r.metadata, GOVERNED_BY_OWN_POLICY) == Flag(true)
  }

  predicate Controls(lens: Lens, r: Resource) {
    || lens.everything
    || Pair(r.kind, READ_DATA) in lens.grants || Pair(r.kind, EXECUTE) in lens.grants
    || (Pair(r.kind, EDIT_POLICY) in lens.grants && OwnPolicy(r))
  }

  function PairsOf(access: RoleAccess): seq<Pair> {
    if access.Stated? then access.pairs else []
  }

  function ControlPairs(access: RoleAccess): set<Pair> {
    set p | p in PairsOf(access) && p.access in CONTROLLING
  }

  /** Where a role entry applies: its target, or its scope where no target was recorded. */
  function AppliesAt(entry: Item): string {
    if entry.Mapping? then
      if Field(entry.fields, "target") != "" then Field(entry.fields, "target") else Field(entry.fields, "scope")
    else ""
  }

  predicate IsAt(entry: Item, target: string) {
    entry.Mapping? && Lower(AppliesAt(entry)) == Lower(target)
  }

  function EntriesAt(held: seq<Item>, target: string): (r: seq<Item>)
    ensures forall e :: e in r <==> e in held && IsAt(e, target)
  {
    if held == [] then []
    else EntriesAt(held[..|held| - 1], target) + if IsAt(held[|held| - 1], target) then [held[|held| - 1]] else []
  }

  /** `role_entries`. */
  function RoleEntries(principal: Resource, target: string): seq<Item> {
    EntriesAt(ItemsAt(principal.metadata, ROLES), target)
  }

  predicate Escalates(relationship: Relationship) {
    relationship == CAN_GRANT_ROLES || relationship == CAN_TAKE_OVER
  }

  /** One role's own reach over an asset, whatever it lets its holder grant. */
  predicate EntryControls(entry: Item, x: Resource) {
    entry.Mapping? && Controls(Lens(false, ControlPairs(entry.access)), x)
  }

  ghost predicate Unevaluated(entries: seq<Item>) {
    exists e :: e in entries && e.Mapping? && e.access.Absent?
  }

  ghost predicate SomeControls(entries: seq<Item>, x: Resource) {
    exists e :: e in entries && EntryControls(e, x)
  }

  ghost predicate EdgeControls(relationship: Relationship, entries: seq<Item>, x: Resource) {
    Escalates(relationship) || entries == [] || Unevaluated(entries) || SomeControls(entries, x)
  }

  lemma MorePairs(grants: set<Pair>, access: RoleAccess, x: Resource)
    ensures Controls(Lens(false, grants + ControlPairs(access)), x) <==>
            Controls(Lens(false, grants), x) || Controls(Lens(false, ControlPairs(access)), x)
  {
  }

  lemma OneMoreRole(entries: seq<Item>, entry: Item, x: Resource)
    ensures SomeControls(entries + [entry], x) <==> SomeControls(entries, x) || EntryControls(entry, x)
    ensures Unevaluated(entries + [entry]) <==> Unevaluated(entries) || (entry.Mapping? && entry.access.Absent?)
  {
    assert forall e :: e in entries + [entry] <==> e in entries || e == entry;
  }

  /** The pairs all roles together control by. */
  function PairsOfAll(entries: seq<Item>): set<Pair> {
    set e, p | e in entries && e.Mapping? && p in ControlPairs(e.access) :: p
  }

  /** The lens of a role edge, as a value. */
  function LensOf(principal: Resource, relationship: Relationship, target: string): Lens {
    var entries := RoleEntries(principal, target);
    if Escalates(relationship) || entries == [] || (exists e :: e in entries && e.Mapping? && e.access.Absent?)
    then EVERYTHING
    else Lens(false, PairsOfAll(entries))
  }

  lemma OneMorePairs(entries: seq<Item>, entry: Item)
    requires entry.Mapping?
    ensures PairsOfAll(entries + [entry]) == PairsOfAll(entries) + ControlPairs(entry.access)
  {
    assert forall e :: e in entries + [entry] <==> e in entries || e == entry;
  }

  /** A role edge controls an asset when some role behind it does, or nothing says what the roles do. */
  method LensFor(principal: Resource, relationship: Relationship, target: string) returns (lens: Lens)
    ensures lens == LensOf(principal, relationship, target)
    ensures forall x :: Controls(lens, x) <==> EdgeControls(relationship, RoleEntries(principal, target), x)
  {
    if Escalates(relationship) {
      return EVERYTHING;
    }
    var entries := RoleEntries(principal, target);
    if entries == [] {
      return EVERYTHING;
    }
    var grants: set<Pair> := {};
    for i := 0 to |entries|
      invariant forall x :: Controls(Lens(false, grants), x) <==> SomeControls(entries[..i], x)
      invariant !Unevaluated(entries[..i]) && grants == PairsOfAll(entries[..i])
    {
      var entry := entries[i];
      assert entries[..i + 1] == entries[..i] + [entry] && entry in entries;
      if entry.access.Absent? {
        assert Unevaluated(entries);
        return EVERYTHING;
      }
      OneMoreRole(entries[..i], entry, principal);
      OneMorePairs(entries[..i], entry);
      forall x
        ensures Controls(Lens(false, grants + ControlPairs(entry.access)), x) <==> SomeControls(entries[..i + 1], x)
      {
        MorePairs(grants, entry.access, x);
        OneMoreRole(entries[..i], entry, x);
      }
      grants := grants + ControlPairs(entry.access);
    }
    assert entries[..|entries|] == entries;
    lens := Lens(false, grants);
  }

  lemma {:induction false} AllPairsControl(entries: seq<Item>, x: Resource)
    ensures Controls(Lens(false, PairsOfAll(entries)), x) <==> SomeControls(entries, x)
  {
    if SomeControls(entries, x) {
      var e :| e in entries && EntryControls(e, x);
      assert ControlPairs(e.access) <= PairsOfAll(entries);
    }
  }

  /** The lens of a role edge controls what the edge does. */
  lemma LensIsEdge(principal: Resource, relationship: Relationship, target: string, x: Resource)
    ensures Controls(LensOf(principal, relationship, target), x) <==>
            EdgeControls(relationship, RoleEntries(principal, target), x)
  {
    AllPairsControl(RoleEntries(principal, target), x);
  }

  /** The principal's record states a role at the target; an entry without a target, at its scope. */
  ghost predicate StatesRole(principal: Resource, entry: Item, target: string) {
    && ROLES in principal.metadata && principal.metadata[ROLES].Entries? && entry in principal.metadata[ROLES].items
    && entry.Mapping?
    && Lower(target) ==
       Lower(if Field(entry.fields, "target") != "" then Field(entry.fields, "target")
             else Field(entry.fields, "scope"))
  }

  /** What a role states lets its holder read the asset's data or run it, or edit the policy that governs it. */
  ghost predicate StatesReach(access: RoleAccess, x: Resource) {
    access.Stated? &&
    exists p :: p in access.pairs && p.kind == x.kind
                && (p.access == READ_DATA || p.access == EXECUTE
                    || (p.access == EDIT_POLICY && MetaAt(x.metadata, GOVERNED_BY_OWN_POLICY) == Flag(true)))
  }

  ghost predicate SomeRoleReaches(principal: Resource, target: string, x: Resource) {
    exists entry :: StatesRole(principal, entry, target) && (entry.access.Absent? || StatesReach(entry.access, x))
  }

  lemma EntryReaches(entry: Item, x: Resource)
    requires entry.Mapping?
    ensures EntryControls(entry, x) <==> StatesReach(entry.access, x)
  {
    if StatesReach(entry.access, x) {
      var p :| p in entry.access.pairs && p.kind == x.kind
               && (p.access == READ_DATA || p.access == EXECUTE
                   || (p.access == EDIT_POLICY && MetaAt(x.metadata, GOVERNED_BY_OWN_POLICY) == Flag(true)));
      assert p in ControlPairs(entry.access) && p == Pair(x.kind, p.access);
    }
  }

  /** A link controls an asset when it lets its source grant itself the rest, when no role is known there, or when one
      that is was never looked into or states reach over the asset. */
  lemma WhatAnEdgeControls(principal: Resource, relationship: Relationship, target: string, x: Resource)
    ensures EdgeControls(relationship, RoleEntries(principal, target), x) <==>
            || relationship == CAN_GRANT_ROLES || relationship == CAN_TAKE_OVER
            || (forall entry :: !StatesRole(principal, entry, target)) || SomeRoleReaches(principal, target, x)
  {
    var entries := RoleEntries(principal, target);
    forall entry
      ensures entry in entries <==> StatesRole(principal, entry, target)
      ensures StatesRole(principal, entry, target) ==> (EntryControls(entry, x) <==> StatesReach(entry.access, x))
    {
      if entry.Mapping? { EntryReaches(entry, x); }
    }
    assert entries == [] <==> forall entry :: entry !in entries by {
      if entries != [] { assert entries[0] in entries; }
    }
    assert SomeRoleReaches(principal, target, x) <==> Unevaluated(entries) || SomeControls(entries, x);
  }

  // ---------------------------------------------------------------- adding a role

  function WithRole(principal: Resource, entry: Item): Resource {
    principal.(metadata := principal.metadata[ROLES := Entries(ItemsAt(principal.metadata, ROLES) + [entry])])
  }

  lemma OneMoreEntry(principal: Resource, entry: Item, target: string)
    ensures RoleEntries(WithRole(principal, entry), target) ==
            RoleEntries(principal, target) + if IsAt(entry, target) then [entry] else []
  {
    var held := ItemsAt(principal.metadata, ROLES);
    assert (held + [entry])[..|held|] == held;
  }

  /** Giving a principal one more role takes an asset from it exactly when the role is the first known there, its reach
      was read or looked for, and it does not itself control the asset. */
  lemma MoreRolesControlLess(principal: Resource, entry: Item, relationship: Relationship, target: string, x: Resource)
    ensures
      var before, after := RoleEntries(principal, target), RoleEntries(WithRole(principal, entry), target);
      EdgeControls(relationship, before, x) && !EdgeControls(relationship, after, x) <==>
      !Escalates(relationship) && before == [] && IsAt(entry, target) && !entry.access.Absent?
      && !EntryControls(entry, x)
  {
    OneMoreEntry(principal, entry, target);
    if IsAt(entry, target) {
      OneMoreRole(RoleEntries(principal, target), entry, x);
    } else {
      assert RoleEntries(WithRole(principal, entry), target) == RoleEntries(principal, target);
    }
  }

  /** Reader, given to a principal whose edge over an account had no role recorded behind it. */
  lemma FirstRoleShrinksTheLens()
    ensures
      var someone := Resource("/users/1", OTHER("user"), "someone", map[]);
      var account := Resource("/accounts/1", OTHER("storage"), "ledger", map[]);
      var reader := Mapping(map["role" := "Reader", "target" := "/s"], Stated([Pair(OTHER("storage"), READ)]));
      && EdgeControls(GRANTS_ROLE, RoleEntries(someone, "/s"), account)
      && !EdgeControls(GRANTS_ROLE, RoleEntries(WithRole(someone, reader), "/s"), account)
  {
    var someone := Resource("/users/1", OTHER("user"), "someone", map[]);
    var account := Resource("/accounts/1", OTHER("storage"), "ledger", map[]);
    var reader := Mapping(map["role" := "Reader", "target" := "/s"], Stated([Pair(OTHER("storage"), READ)]));
    assert AppliesAt(reader) == "/s";
    MoreRolesControlLess(someone, reader, GRANTS_ROLE, "/s", account);
  }
}
