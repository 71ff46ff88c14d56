/** What the lists of holders and of grants say, read off the records and the links alone. */
module AccessMeanings {
  import opened Wrappers
  import opened Lists
  import opened Text
  import opened Resources
  import opened Exploring
  import opened Lenses
  import opened Access
  import opened Grants

  ghost predicate IsScope(x: Resource) {
    x.kind == SUBSCRIPTION || x.kind == RESOURCE_GROUP
  }

  ghost predicate Says(entry: Item, key: string) {
    entry.Mapping? && Field(entry.fields, key) != ""
  }

  // ---------------------------------------------------------------- who holds an asset

  /** What one role does to an asset: what it states of the asset's kind, and granting access where it lets that. */
  ghost predicate DoesTo(entry: Item, x: Resource, k: AccessKind)
    requires entry.Mapping?
  {
    || (k == GRANT_ACCESS && Says(entry, "grants_role_assignment"))
    || (!IsScope(x) && entry.access.Stated? && Pair(x.kind, k) in entry.access.pairs)
  }

  /** The holder a role makes of its principal: control of an asset only by a role that was read, and that grants access
      or states reach over it. */
  ghost predicate HoldsBy(h: Holder, x: Resource, principal: string, level: string, entry: Item)
    requires entry.Mapping?
  {
    && h.Holder? && h.principal == principal && h.at == level
    && h.role == (if Says(entry, "role") then Field(entry.fields, "role") else "Unknown role")
    && h.inheritedFrom == Field(entry.fields, "inherited_from")
    && (forall k :: k in h.kinds <==> DoesTo(entry, x, k))
    && (h.controls <==> !IsScope(x) && entry.access.Stated?
                        && (Says(entry, "grants_role_assignment") || StatesReach(entry.access, x)))
    && (h.conditional <==> Says(entry, "conditional")) && (h.resolved <==> entry.access.Stated?)
  }

  ghost predicate StatesAny(principal: Resource, level: string) {
    exists entry :: StatesRole(principal, entry, level)
  }

  ghost predicate HoldsBySome(nodes: Nodes, x: Resource, principal: string, level: string, h: Holder)
    requires principal in nodes
  {
    exists entry :: StatesRole(nodes[principal], entry, level) && HoldsBy(h, x, principal, level, entry)
  }

  /** A role edge lands here from the principal: each role it states here, or one nobody can name. */
  ghost predicate ListedAt(nodes: Nodes, incoming: Links, x: Resource, principal: string, level: string, h: Holder) {
    && Link(GRANTS_ROLE, principal) in LinksAt(incoming, level) && principal in nodes
    && if StatesAny(nodes[principal], level) then HoldsBySome(nodes, x, principal, level, h)
       else h == Holder(principal, "Unknown role", level, "", {}, false, false, false)
  }

  ghost predicate ListedByRole(nodes: Nodes, incoming: Links, x: Resource, h: Holder) {
    exists level, principal :: AtAndAbove(nodes, incoming, x.id, level)
                               && ListedAt(nodes, incoming, x, principal, level, h)
  }

  lemma HolderOfMeans(x: Resource, principal: string, level: string, entry: Item, h: Holder)
    requires entry.Mapping?
    ensures h == HolderOf(x, principal, level, entry) <==> HoldsBy(h, x, principal, level, entry)
  {
    var made := HolderOf(x, principal, level, entry);
    forall k
      ensures k in made.kinds <==> DoesTo(entry, x, k)
    {
      KindsMean(entry.access, x.kind, k);
    }
    KindsMean(entry.access, x.kind, READ_DATA);
    KindsMean(entry.access, x.kind, EXECUTE);
    KindsMean(entry.access, x.kind, EDIT_POLICY);
    ReachOfKinds(entry.access, x);
    if HoldsBy(h, x, principal, level, entry) {
      assert h.kinds == made.kinds;
    }
  }

  lemma KindsMean(access: RoleAccess, kind: ResourceType, k: AccessKind)
    ensures k in Kinds(access, kind) <==> access.Stated? && Pair(kind, k) in access.pairs
  {
    if access.Stated? && Pair(kind, k) in access.pairs {
      assert Pair(kind, k).access in Kinds(access, kind);
    }
  }

  lemma ReachOfKinds(access: RoleAccess, x: Resource)
    ensures StatesReach(access, x) <==>
            access.Stated? && (Pair(x.kind, READ_DATA) in access.pairs || Pair(x.kind, EXECUTE) in access.pairs
                               || (Pair(x.kind, EDIT_POLICY) in access.pairs && OwnPolicy(x)))
  {
    if StatesReach(access, x) {
      var p :| p in access.pairs && p.kind == x.kind
               && (p.access == READ_DATA || p.access == EXECUTE
                   || (p.access == EDIT_POLICY && MetaAt(x.metadata, GOVERNED_BY_OWN_POLICY) == Flag(true)));
      assert p == Pair(x.kind, p.access);
    }
  }

  lemma ListedThere(nodes: Nodes, incoming: Links, x: Resource, p: string, level: string, h: Holder)
    requires Link(GRANTS_ROLE, p) in LinksAt(incoming, level)
    ensures (exists e :: e in EntriesOrUnknown(nodes, p, level) && h == HolderOf(x, p, level, e)) <==>
            ListedAt(nodes, incoming, x, p, level, h)
  {
    if p in nodes {
      var entries := RoleEntries(nodes[p], level);
      forall e
        ensures e in entries <==> StatesRole(nodes[p], e, level)
        ensures e in entries ==> (h == HolderOf(x, p, level, e) <==> HoldsBy(h, x, p, level, e))
      {
        if e.Mapping? { HolderOfMeans(x, p, level, e, h); }
      }
      if entries == [] {
        assert HolderOf(x, p, level, UNKNOWN_ROLE) == Holder(p, "Unknown role", level, "", {}, false, false, false);
        assert UNKNOWN_ROLE in EntriesOrUnknown(nodes, p, level);
      } else {
        assert entries[0] in entries;
      }
    }
  }

  /** Who holds an asset by a role is who the records and the links say. */
  lemma HoldersAreWhoTheRecordsSay(nodes: Nodes, incoming: Links, x: Resource, h: Holder)
    ensures HeldByRole(nodes, incoming, x, h) <==> ListedByRole(nodes, incoming, x, h)
  {
    if HeldByRole(nodes, incoming, x, h) {
      var level :| AtAndAbove(nodes, incoming, x.id, level) && HeldAt(nodes, incoming, x, level, h);
      var p, e :| Link(GRANTS_ROLE, p) in LinksAt(incoming, level) && e in EntriesOrUnknown(nodes, p, level)
                  && h == HolderOf(x, p, level, e);
      ListedThere(nodes, incoming, x, p, level, h);
    }
    if ListedByRole(nodes, incoming, x, h) {
      var level, p :| AtAndAbove(nodes, incoming, x.id, level) && ListedAt(nodes, incoming, x, p, level, h);
      ListedThere(nodes, incoming, x, p, level, h);
      assert HeldAt(nodes, incoming, x, level, h);
    }
  }

  // ---------------------------------------------------------------- what an identity holds

  ghost predicate Records(r: Resource, entry: Item) {
    ROLES in r.metadata && r.metadata[ROLES].Entries? && entry in r.metadata[ROLES].items && entry.Mapping?
  }

  /** Its own roles, and those of each group it is a member of and each identity it may act as. */
  ghost predicate HoldsRole(nodes: Nodes, outgoing: Links, id: string, held: HeldRole)
    requires id in nodes
  {
    match held.via
    case None => Records(nodes[id], held.entry)
    case Some(other) =>
      && other in nodes && Records(nodes[other], held.entry)
      && (Link(MEMBER_OF, other) in LinksAt(outgoing, id) || Link(CAN_ACT_AS, other) in LinksAt(outgoing, id))
  }

  lemma {:induction false} ThroughOthersMeans(nodes: Nodes, links: seq<Link<string>>, held: HeldRole)
    ensures held in ThroughOthers(nodes, links) <==>
            && held.via.Some? && held.via.value in nodes && Records(nodes[held.via.value], held.entry)
            && (Link(MEMBER_OF, held.via.value) in links || Link(CAN_ACT_AS, held.via.value) in links)
  {
    if links != [] {
      var rest, last := links[..|links| - 1], links[|links| - 1];
      assert links == rest + [last];
      ThroughOthersMeans(nodes, rest, held);
    }
  }

  /** The roles a grant is listed for, its own before those of others. */
  lemma HeldRolesAre(nodes: Nodes, outgoing: Links, id: string, held: HeldRole)
    requires id in nodes
    ensures held in AllHeld(nodes, outgoing, id) <==> HoldsRole(nodes, outgoing, id, held)
    ensures forall i, j :: 0 <= i < j < |AllHeld(nodes, outgoing, id)| && AllHeld(nodes, outgoing, id)[i].via.Some? ==>
              AllHeld(nodes, outgoing, id)[j].via.Some?
  {
    ThroughOthersMeans(nodes, LinksAt(outgoing, id), held);
    var own, others := Through(None, RolesOf(nodes[id])), ThroughOthers(nodes, LinksAt(outgoing, id));
    assert forall i :: 0 <= i < |own| ==> own[i] in own;
    assert forall i :: 0 <= i < |others| ==> others[i] in others;
  }

  lemma LensMeans(entry: Item, x: Resource)
    requires entry.Mapping?
    ensures Controls(GrantLens(entry), x) <==> Says(entry, "grants_role_assignment") || StatesReach(entry.access, x)
  {
    if !Says(entry, "grants_role_assignment") {
      EntryReaches(entry, x);
      assert GrantLens(entry) == Lens(false, ControlPairs(entry.access));
    }
  }

  /** What stands under the node a role is held at, is no scope, and is controlled: anything, if the role lets its
      holder grant access; else what it states reach over. */
  ghost predicate StandsUnder(nodes: Nodes, outgoing: Links, entry: Item, x: string)
    requires entry.Mapping?
  {
    var target := Field(entry.fields, "target");
    && target != "" && target in nodes && entry.access.Stated? && x in nodes && !IsScope(nodes[x])
    && Leads(Containing(nodes, outgoing), target, x)
    && (Says(entry, "grants_role_assignment") || StatesReach(entry.access, nodes[x]))
  }

  lemma ControlledMeans(nodes: Nodes, outgoing: Links, entry: Item, x: string)
    requires entry.Mapping?
    ensures ControlledBy(nodes, outgoing, entry, x) <==> StandsUnder(nodes, outgoing, entry, x)
  {
    if x in nodes { LensMeans(entry, nodes[x]); }
  }

  /** A grant says what its role does, and lists what stands under the node it is held at. */
  lemma GrantsAreWhatTheRolesSay(nodes: Nodes, outgoing: Links, held: HeldRole, g: Grant)
    requires GrantFor(nodes, outgoing, held, g) && held.entry.Mapping?
    ensures
      var fields, target := held.entry.fields, Field(held.entry.fields, "target");
      && g.role == (if Says(held.entry, "role") then Field(fields, "role") else "Unknown role")
      && g.at == (if target in nodes && target != "" then Some(target) else None)
      && g.scope == Field(fields, "scope") && g.inheritedFrom == Field(fields, "inherited_from") && g.via == held.via
      && (g.conditional <==> Says(held.entry, "conditional")) && (g.resolved <==> held.entry.access.Stated?)
      && (g.grantsAccess <==> Says(held.entry, "grants_role_assignment"))
    ensures NoRepeats(g.controlled) && forall x :: x in g.controlled <==> StandsUnder(nodes, outgoing, held.entry, x)
  {
    forall x
      ensures x in g.controlled <==> StandsUnder(nodes, outgoing, held.entry, x)
    {
      ControlledMeans(nodes, outgoing, held.entry, x);
    }
  }
}
