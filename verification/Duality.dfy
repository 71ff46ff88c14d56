/** Asking who holds an asset and asking what an identity holds give one answer. */
module Duality {
  import opened Wrappers
  import opened Text
  import opened Resources
  import opened Exploring
  import opened Lenses
  import opened Access
  import opened Grants

  /** The same edges kept from either end, between nodes told apart whatever the case of their ids. */
  ghost predicate OneGraph(nodes: Nodes, incoming: Links, outgoing: Links) {
    && Closed(nodes, incoming) && Closed(nodes, outgoing)
    && (forall a, b, r {:trigger Link(r, a) in LinksAt(incoming, b)} {:trigger Link(r, b) in LinksAt(outgoing, a)} ::
          Link(r, a) in LinksAt(incoming, b) <==> Link(r, b) in LinksAt(outgoing, a))
    && (forall a, b {:trigger Lower(a), Lower(b)} :: a in nodes && b in nodes && Lower(a) == Lower(b) ==> a == b)
  }

  predicate IsRole(nodes: Nodes, p: string, e: Item) {
    p in nodes && e in RolesOf(nodes[p]) && e.Mapping?
  }

  /** Each role is recorded at the node its edge lands on. */
  ghost predicate RolesLand(nodes: Nodes, outgoing: Links, p: string) {
    forall e :: IsRole(nodes, p, e) ==>
      FieldOf(e, "target") != "" && Link(GRANTS_ROLE, FieldOf(e, "target")) in LinksAt(outgoing, p)
  }

  /** What is under a container has it above. */
  lemma UnderIsAbove(nodes: Nodes, incoming: Links, outgoing: Links, a: string, x: string)
    requires OneGraph(nodes, incoming, outgoing)
    ensures Leads(Containing(nodes, incoming), x, a) <==> Leads(Containing(nodes, outgoing), a, x)
  {
    var up, down := Containing(nodes, incoming), Containing(nodes, outgoing);
    forall b, c
      ensures up(b, c) <==> down(c, b)
    {
      assert Link(CONTAINS, c) in LinksAt(incoming, b) <==> Link(CONTAINS, b) in LinksAt(outgoing, c);
    }
    LeadsBack(up, down, x, a);
  }

  /** The verdict on one role, read from the asset's side and from the role's. */
  lemma SameVerdict(p: string, level: string, e: Item, x: Resource)
    requires e.Mapping? && x.kind !in SCOPES
    ensures HolderOf(x, p, level, e).controls <==> Resolved(e) && Controls(GrantLens(e), x)
  {
    KindsArePairs(e.access, x.kind, READ_DATA);
    KindsArePairs(e.access, x.kind, EXECUTE);
    KindsArePairs(e.access, x.kind, EDIT_POLICY);
  }

  lemma KindsArePairs(access: RoleAccess, kind: ResourceType, k: AccessKind)
    ensures k in Kinds(access, kind) <==> Pair(kind, k) in PairsOf(access)
  {
    if Pair(kind, k) in PairsOf(access) {
      assert Pair(kind, k).access in Kinds(access, kind);
    }
  }

  ghost predicate ListedWith(nodes: Nodes, incoming: Links, x: string, h: Holder) {
    x in nodes && HeldByRole(nodes, incoming, nodes[x], h)
  }

  /** A role controls an asset below it exactly when the asset lists it as controlling. */
  lemma RoleAgrees(nodes: Nodes, incoming: Links, outgoing: Links, p: string, e: Item, x: string)
    requires OneGraph(nodes, incoming, outgoing) && RolesLand(nodes, outgoing, p) && IsRole(nodes, p, e) && x in nodes
    ensures
      var h := HolderOf(nodes[x], p, FieldOf(e, "target"), e);
      ControlledBy(nodes, outgoing, e, x) <==> h.controls && ListedWith(nodes, incoming, x, h)
  {
    var level := FieldOf(e, "target");
    UnderIsAbove(nodes, incoming, outgoing, level, x);
    if nodes[x].kind !in SCOPES { SameVerdict(p, level, e, nodes[x]); }
    if ControlledBy(nodes, outgoing, e, x) {
      ListedAtTarget(nodes, incoming, outgoing, p, e, x);
    }
    var h := HolderOf(nodes[x], p, level, e);
    if h.controls && ListedWith(nodes, incoming, x, h) {
      var above :| AtAndAbove(nodes, incoming, nodes[x].id, above) && HeldAt(nodes, incoming, nodes[x], above, h);
    }
  }

  lemma ListedAtTarget(nodes: Nodes, incoming: Links, outgoing: Links, p: string, e: Item, x: string)
    requires OneGraph(nodes, incoming, outgoing) && RolesLand(nodes, outgoing, p) && IsRole(nodes, p, e) && x in nodes
    requires Leads(Containing(nodes, incoming), x, FieldOf(e, "target"))
    ensures ListedWith(nodes, incoming, x, HolderOf(nodes[x], p, FieldOf(e, "target"), e))
  {
    var level := FieldOf(e, "target");
    assert Link(GRANTS_ROLE, level) in LinksAt(outgoing, p);
    assert Link(GRANTS_ROLE, p) in LinksAt(incoming, level);
    assert IsAt(e, level) && e in RoleEntries(nodes[p], level);
    assert HeldAt(nodes, incoming, nodes[x], level, HolderOf(nodes[x], p, level, e));
    assert AtAndAbove(nodes, incoming, x, level);
  }

  /** A controlling holder is a role the principal records, held at the node it names. */
  lemma HolderIsRole(nodes: Nodes, incoming: Links, outgoing: Links, x: string, h: Holder) returns (e: Item)
    requires OneGraph(nodes, incoming, outgoing) && ListedWith(nodes, incoming, x, h) && h.Holder? && h.controls
    requires RolesLand(nodes, outgoing, h.principal)
    ensures IsRole(nodes, h.principal, e) && FieldOf(e, "target") == h.at
            && h == HolderOf(nodes[x], h.principal, h.at, e)
  {
    var level :| AtAndAbove(nodes, incoming, nodes[x].id, level) && HeldAt(nodes, incoming, nodes[x], level, h);
    var p, entry :| Link(GRANTS_ROLE, p) in LinksAt(incoming, level) && entry in EntriesOrUnknown(nodes, p, level)
                    && h == HolderOf(nodes[x], p, level, entry);
    e := entry;
    assert Resolved(e);
    assert IsRole(nodes, p, e) && IsAt(e, level);
    var target := FieldOf(e, "target");
    assert Link(GRANTS_ROLE, target) in LinksAt(outgoing, p);
    assert Lower(target) == Lower(level) && target in nodes && level in nodes;
  }

  // ---------------------------------------------------------------- the two answers

  ghost predicate AreHolders(nodes: Nodes, incoming: Links, x: string, found: seq<Holder>) {
    x in nodes && forall h :: h in found <==>
      HeldByRole(nodes, incoming, nodes[x], h) || HeldThroughDirectory(nodes, incoming, nodes[x], h)
  }

  ghost predicate GrantsSay(grants: seq<Grant>, role: string, at: string, x: string) {
    exists g :: g in grants && g.Grant? && g.via == None && g.role == role && g.at == Some(at) && x in g.controlled
  }

  ghost predicate HoldersSay(found: seq<Holder>, p: string, role: string, at: string) {
    exists h :: h in found && h.Holder? && h.principal == p && h.role == role && h.at == at && h.controls
  }

  /** An asset is among those a role held directly controls exactly when its holders list the role as controlling. */
  lemma HoldersAndGrantsAgree(nodes: Nodes, incoming: Links, outgoing: Links, p: string, x: string, grants: seq<Grant>,
                              found: seq<Holder>, role: string, at: string)
    requires OneGraph(nodes, incoming, outgoing) && p in nodes && RolesLand(nodes, outgoing, p)
    requires AreGrants(nodes, outgoing, AllHeld(nodes, outgoing, p), grants) && AreHolders(nodes, incoming, x, found)
    ensures GrantsSay(grants, role, at, x) <==> HoldersSay(found, p, role, at)
  {
    if GrantsSay(grants, role, at, x) {
      GrantedIsListed(nodes, incoming, outgoing, p, x, grants, found, role, at);
    }
    if HoldersSay(found, p, role, at) {
      ListedIsGranted(nodes, incoming, outgoing, p, x, grants, found, role, at);
    }
  }

  lemma GrantedIsListed(nodes: Nodes, incoming: Links, outgoing: Links, p: string, x: string, grants: seq<Grant>,
                        found: seq<Holder>, role: string, at: string)
    requires OneGraph(nodes, incoming, outgoing) && p in nodes && RolesLand(nodes, outgoing, p)
    requires AreGrants(nodes, outgoing, AllHeld(nodes, outgoing, p), grants) && AreHolders(nodes, incoming, x, found)
    requires GrantsSay(grants, role, at, x)
    ensures HoldersSay(found, p, role, at)
  {
    var i :| 0 <= i < |grants| && grants[i].Grant? && grants[i].via == None && grants[i].role == role
             && grants[i].at == Some(at) && x in grants[i].controlled;
    var held := AllHeld(nodes, outgoing, p);
    assert GrantFor(nodes, outgoing, held[i], grants[i]) && held[i] in held;
    var e := held[i].entry;
    assert IsRole(nodes, p, e);
    RoleAgrees(nodes, incoming, outgoing, p, e, x);
    var h := HolderOf(nodes[x], p, FieldOf(e, "target"), e);
    assert h in found;
  }

  lemma ListedIsGranted(nodes: Nodes, incoming: Links, outgoing: Links, p: string, x: string, grants: seq<Grant>,
                        found: seq<Holder>, role: string, at: string)
    requires OneGraph(nodes, incoming, outgoing) && p in nodes && RolesLand(nodes, outgoing, p)
    requires AreGrants(nodes, outgoing, AllHeld(nodes, outgoing, p), grants) && AreHolders(nodes, incoming, x, found)
    requires HoldersSay(found, p, role, at)
    ensures GrantsSay(grants, role, at, x)
  {
    var h :| h in found && h.Holder? && h.principal == p && h.role == role && h.at == at && h.controls;
    assert ListedWith(nodes, incoming, x, h);
    var e := HolderIsRole(nodes, incoming, outgoing, x, h);
    RoleAgrees(nodes, incoming, outgoing, p, e, x);
    RoleIsGranted(nodes, outgoing, p, e, x, grants);
  }

  lemma RoleIsGranted(nodes: Nodes, outgoing: Links, p: string, e: Item, x: string, grants: seq<Grant>)
    requires IsRole(nodes, p, e) && AreGrants(nodes, outgoing, AllHeld(nodes, outgoing, p), grants)
    requires ControlledBy(nodes, outgoing, e, x)
    ensures GrantsSay(grants, RoleName(e), FieldOf(e, "target"), x)
  {
    var own := Through(None, RolesOf(nodes[p]));
    assert HeldRole(None, e) in own;
    var i :| 0 <= i < |own| && own[i] == HeldRole(None, e);
    assert AllHeld(nodes, outgoing, p)[i] == HeldRole(None, e);
    assert GrantFor(nodes, outgoing, HeldRole(None, e), grants[i]);
    assert grants[i] in grants;
  }

  /** The same for taking over a subscription: the directory draws that edge to nothing else. */
  lemma TakeOversAgree(nodes: Nodes, incoming: Links, outgoing: Links, p: string, x: string, s: string,
                       takeOvers: seq<Grant>, found: seq<Holder>)
    requires OneGraph(nodes, incoming, outgoing) && p in nodes && AreHolders(nodes, incoming, x, found)
    requires s in nodes && nodes[s].kind == SUBSCRIPTION
    requires forall g :: g in takeOvers ==> TakeOverFor(nodes, outgoing, p, g)
    requires Link(CAN_TAKE_OVER, s) in LinksAt(outgoing, p) ==> Taken(takeOvers, s)
    ensures (exists g :: g in takeOvers && g.TakeOver? && g.subscription == s && x in g.controlled) <==>
            ThroughDirectory(p, CAN_TAKE_OVER, s, true) in found
  {
    UnderIsAbove(nodes, incoming, outgoing, s, x);
    assert Link(CAN_TAKE_OVER, p) in LinksAt(incoming, s) <==> Link(CAN_TAKE_OVER, s) in LinksAt(outgoing, p);
    var h := ThroughDirectory(p, CAN_TAKE_OVER, s, true);
    if h in found {
      assert HeldThroughDirectory(nodes, incoming, nodes[x], h);
      var g :| g in takeOvers && g.TakeOver? && g.subscription == s;
      assert TakeOverFor(nodes, outgoing, p, g);
    }
  }

  // ---------------------------------------------------------------- the lens of the edge

  /** A role as it would be did it not let its holder grant roles. */
  function WithoutGranting(e: Item): Item {
    if e.Mapping? then Mapping(e.fields - {"grants_role_assignment"}, e.access) else e
  }

  /** Where at least one role is recorded at a node and every one says what it gives, a walk over the edge holds an
      asset exactly when one of them, its role granting apart, is listed as controlling it. */
  lemma LensAgrees(p: Resource, level: string, x: Resource)
    requires x.kind !in SCOPES && RoleEntries(p, level) != [] && !Unevaluated(RoleEntries(p, level))
    ensures EdgeControls(GRANTS_ROLE, RoleEntries(p, level), x) <==>
            exists e :: e in RoleEntries(p, level) && HolderOf(x, p.id, level, WithoutGranting(e)).controls
  {
    forall e | e in RoleEntries(p, level)
      ensures HolderOf(x, p.id, level, WithoutGranting(e)).controls <==> EntryControls(e, x)
    {
      var bare := WithoutGranting(e);
      SameVerdict(p.id, level, bare, x);
      assert GrantLens(bare) == Lens(false, ControlPairs(e.access));
    }
  }
}
