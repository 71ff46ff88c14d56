/** The edges the joined nodes imply: group memberships, and what the directory lets an identity do. */
module Derivation {
  import opened Wrappers
  import opened Text
  import opened Resources
  import opened Identity
  import opened Folding

  function FlatMap<A(!new), B(!new)>(xs: seq<A>, f: A -> seq<B>): (r: seq<B>)
    ensures forall b :: b in r <==> exists a :: a in xs && b in f(a)
  {
    if xs == [] then []
    else
      var rest, last := xs[..|xs| - 1], xs[|xs| - 1];
      assert forall a :: a in xs <==> a in rest || a == last;
      FlatMap(rest, f) + f(last)
  }

  /** `_identity_index`: the first node of an identity. */
  function Holder(t: Table, k: string): (r: Option<string>)
    ensures r.Some? ==> r.value in t.order && IsOf(t.at, r.value, k)
  {
    var ids := IdsWith(t.order, t.at, k);
    if ids == [] then None else Some(ids[0])
  }

  function NodeAt(t: Table, id: string): Metadata {
    if id in t.at then t.at[id].metadata else map[]
  }

  function MemberEdge(t: Table, group: string, member: Item): seq<Edge> {
    if member.Mapping? && Field(member.fields, "id") != "" then
      match Holder(t, Lower(Field(member.fields, "id")))
      case None => []
      case Some(holder) => if holder != group then [Edge(holder, MEMBER_OF, group)] else []
    else []
  }

  function GroupEdges(t: Table, group: string): seq<Edge> {
    FlatMap(ItemsAt(NodeAt(t, group), MEMBERS), member => MemberEdge(t, group, member))
  }

  function Memberships(t: Table): seq<Edge> {
    FlatMap(t.order, group => GroupEdges(t, group))
  }

  /** The principal an application registration signs in as, when the graph holds another node for it. */
  function PrincipalOf(t: Table, app: string): Option<string> {
    var m := MetaAt(NodeAt(t, app), ACTS_AS);
    if m.Text? then
      var p := Holder(t, Lower(m.text));
      if p.Some? && p.value != app then p else None
    else None
  }

  function ControllerEdge(t: Table, principal: string, owner: Item): seq<Edge> {
    match Holder(t, Lower(if owner.Bare? then owner.text else ""))
    case None => []
    case Some(holder) => if holder != principal then [Edge(holder, CAN_ACT_AS, principal)] else []
  }

  function AppEdges(t: Table, app: string): seq<Edge> {
    match PrincipalOf(t, app)
    case None => []
    case Some(principal) =>
      (if MetaAt(NodeAt(t, app), CAN_SIGN_IN) == Flag(true) then [Edge(app, CAN_ACT_AS, principal)] else [])
      + FlatMap(ItemsAt(NodeAt(t, app), CONTROLLERS), owner => ControllerEdge(t, principal, owner))
  }

  function Signed(t: Table, app: string): seq<string> {
    if PrincipalOf(t, app).Some? then [PrincipalOf(t, app).value] else []
  }

  function Principals(t: Table): seq<string> {
    FlatMap(t.order, app => Signed(t, app))
  }

  function IfSubscription(t: Table, id: string): seq<string> {
    if id in t.at && t.at[id].kind == SUBSCRIPTION then [id] else []
  }

  function Subscriptions(t: Table): seq<string> {
    FlatMap(t.order, id => IfSubscription(t, id))
  }

  function ActEdges(t: Table, id: string, key: MetaKey, relationship: Relationship): seq<Edge> {
    if id in t.at && HoldsPower(t.at[id], key, ACT_AS_ANY_APPLICATION)
    then FlatMap(Principals(t), p => if p != id then [Edge(id, relationship, p)] else []) else []
  }

  function TakeEdges(t: Table, id: string, key: MetaKey, relationship: Relationship): seq<Edge> {
    if id in t.at && HoldsPower(t.at[id], key, CONTROL_ALL_SCOPES)
    then FlatMap(Subscriptions(t), s => [Edge(id, relationship, s)]) else []
  }

  function BothPowers(t: Table, id: string): seq<Edge> {
    ActEdges(t, id, POWERS, CAN_ACT_AS) + TakeEdges(t, id, POWERS, CAN_TAKE_OVER)
    + ActEdges(t, id, ELIGIBLE_POWERS, ELIGIBLE_FOR) + TakeEdges(t, id, ELIGIBLE_POWERS, ELIGIBLE_FOR)
  }

  function DirectoryReach(t: Table): seq<Edge> {
    FlatMap(t.order, app => AppEdges(t, app))
    + FlatMap(t.order, id => BothPowers(t, id))
  }

  function Derived(t: Table): seq<Edge> {
    Memberships(t) + DirectoryReach(t)
  }

  // ---------------------------------------------------------------- what is derived

  ghost predicate OnePerIdentity(t: Table) {
    forall a, b {:trigger IdentityOf(t.at[a]), IdentityOf(t.at[b])} ::
      a in t.at && b in t.at && IdentityOf(t.at[a]).Some? && IdentityOf(t.at[a]) == IdentityOf(t.at[b]) ==> a == b
  }

  lemma HolderIs(t: Table, k: string, id: string)
    requires Proper(t) && OnePerIdentity(t)
    ensures Holder(t, k) == Some(id) <==> IsOf(t.at, id, k)
  {
    if IsOf(t.at, id, k) {
      assert id in IdsWith(t.order, t.at, k);
      assert IsOf(t.at, IdsWith(t.order, t.at, k)[0], k);
    }
  }

  /** A group lists the identity the source is. */
  ghost predicate Belongs(t: Table, e: Edge) {
    && e.relationship == MEMBER_OF && e.source != e.target && e.target in t.at
    && exists m :: Records(t.at[e.target], MEMBERS, "id", m) && IsOf(t.at, e.source, Lower(m))
  }

  ghost predicate SignsInAs(t: Table, app: string, p: string) {
    app in t.at && p != app && MetaAt(t.at[app].metadata, ACTS_AS).Text?
    && IsOf(t.at, p, Lower(MetaAt(t.at[app].metadata, ACTS_AS).text))
  }

  ghost predicate IsPrincipal(t: Table, p: string) {
    exists app :: SignsInAs(t, app, p)
  }

  /** The source is a registration with a credential of its own, signing in as the target. */
  ghost predicate UsesItsCredential(t: Table, e: Edge) {
    e.relationship == CAN_ACT_AS && SignsInAs(t, e.source, e.target)
    && MetaAt(t.at[e.source].metadata, CAN_SIGN_IN) == Flag(true)
  }

  ghost predicate IsController(t: Table, app: string, id: string) {
    app in t.at && exists o :: o in ItemsAt(t.at[app].metadata, CONTROLLERS) && o.Bare? && IsOf(t.at, id, Lower(o.text))
  }

  /** The source may add a credential to a registration that signs in as the target. */
  ghost predicate ControlsRegistration(t: Table, e: Edge) {
    e.relationship == CAN_ACT_AS && e.source != e.target
    && exists app :: SignsInAs(t, app, e.target) && IsController(t, app, e.source)
  }

  ghost predicate ActsAs(t: Table, key: MetaKey, relationship: Relationship, e: Edge) {
    e.source in t.at && Records(t.at[e.source], key, "power", "act_as_any_application")
    && e.relationship == relationship && IsPrincipal(t, e.target) && e.target != e.source
  }

  ghost predicate TakesOver(t: Table, key: MetaKey, relationship: Relationship, e: Edge) {
    e.source in t.at && Records(t.at[e.source], key, "power", "control_all_scopes")
    && e.relationship == relationship && e.target in t.at && t.at[e.target].kind == SUBSCRIPTION
  }

  /** Why an edge is derived, with no word on how it is found. */
  ghost predicate Implied(t: Table, e: Edge) {
    Belongs(t, e) || UsesItsCredential(t, e) || ControlsRegistration(t, e) || ByPower(t, e)
  }

  ghost predicate ByPower(t: Table, e: Edge) {
    || ActsAs(t, POWERS, CAN_ACT_AS, e) || ActsAs(t, ELIGIBLE_POWERS, ELIGIBLE_FOR, e)
    || TakesOver(t, POWERS, CAN_TAKE_OVER, e) || TakesOver(t, ELIGIBLE_POWERS, ELIGIBLE_FOR, e)
  }

  lemma MemberEdgeIs(t: Table, group: string, member: Item, e: Edge)
    requires Proper(t) && OnePerIdentity(t)
    ensures e in MemberEdge(t, group, member) <==>
            && member.Mapping? && Field(member.fields, "id") != "" && e.relationship == MEMBER_OF && e.target == group
            && e.source != group && IsOf(t.at, e.source, Lower(Field(member.fields, "id")))
  {
    if member.Mapping? { HolderIs(t, Lower(Field(member.fields, "id")), e.source); }
  }

  lemma GroupEdgesAre(t: Table, group: string, e: Edge)
    requires Proper(t) && OnePerIdentity(t) && group in t.at
    ensures e in GroupEdges(t, group) <==> e.target == group && Belongs(t, e)
  {
    var items := ItemsAt(NodeAt(t, group), MEMBERS);
    if e in GroupEdges(t, group) {
      var member :| member in items && e in MemberEdge(t, group, member);
      MemberEdgeIs(t, group, member, e);
      assert HasMember(t.at[group], Field(member.fields, "id"));
      MembersAreRecorded(t.at[group], Field(member.fields, "id"));
    }
    if e.target == group && Belongs(t, e) {
      var m :| Records(t.at[group], MEMBERS, "id", m) && IsOf(t.at, e.source, Lower(m));
      MembersAreRecorded(t.at[group], m);
      var i :| i in items && i.Mapping? && Field(i.fields, "id") == m && m != "";
      MemberEdgeIs(t, group, i, e);
    }
  }

  lemma MembershipsAre(t: Table, e: Edge)
    requires Proper(t) && OnePerIdentity(t)
    ensures e in Memberships(t) <==> Belongs(t, e)
  {
    if e in Memberships(t) {
      var group :| group in t.order && e in GroupEdges(t, group);
      GroupEdgesAre(t, group, e);
    }
    if Belongs(t, e) {
      GroupEdgesAre(t, e.target, e);
    }
  }

  lemma PrincipalIs(t: Table, app: string, p: string)
    requires Proper(t) && OnePerIdentity(t)
    ensures PrincipalOf(t, app) == Some(p) <==> SignsInAs(t, app, p)
  {
    var m := MetaAt(NodeAt(t, app), ACTS_AS);
    if m.Text? { HolderIs(t, Lower(m.text), p); }
  }

  lemma PrincipalsAre(t: Table, p: string)
    requires Proper(t) && OnePerIdentity(t)
    ensures p in Principals(t) <==> IsPrincipal(t, p)
  {
    if p in Principals(t) {
      var app :| app in t.order && p in Signed(t, app);
      PrincipalIs(t, app, p);
    }
    if IsPrincipal(t, p) {
      var app :| SignsInAs(t, app, p);
      PrincipalIs(t, app, p);
      assert p in Signed(t, app);
    }
  }

  lemma ControllerEdgeIs(t: Table, principal: string, owner: Item, e: Edge)
    requires Proper(t) && OnePerIdentity(t)
    ensures e in ControllerEdge(t, principal, owner) <==>
            && owner.Bare? && e.relationship == CAN_ACT_AS && e.target == principal && e.source != principal
            && IsOf(t.at, e.source, Lower(owner.text))
  {
    HolderIs(t, Lower(if owner.Bare? then owner.text else ""), e.source);
  }

  lemma ControllerEdgesAre(t: Table, app: string, principal: string, e: Edge)
    requires Proper(t) && OnePerIdentity(t) && app in t.at
    ensures e in FlatMap(ItemsAt(NodeAt(t, app), CONTROLLERS), owner => ControllerEdge(t, principal, owner)) <==>
            e.relationship == CAN_ACT_AS && e.target == principal && e.source != principal
            && IsController(t, app, e.source)
  {
    var owners := ItemsAt(NodeAt(t, app), CONTROLLERS);
    if owner :| owner in owners && e in ControllerEdge(t, principal, owner) {
      ControllerEdgeIs(t, principal, owner, e);
    }
    if e.target == principal && e.relationship == CAN_ACT_AS && e.source != principal
        && IsController(t, app, e.source) {
      var o :| o in owners && o.Bare? && IsOf(t.at, e.source, Lower(o.text));
      ControllerEdgeIs(t, principal, o, e);
    }
  }

  lemma AppEdgesAre(t: Table, app: string, e: Edge)
    requires Proper(t) && OnePerIdentity(t) && app in t.at
    ensures e in AppEdges(t, app) <==>
            && e.relationship == CAN_ACT_AS && SignsInAs(t, app, e.target)
            && ((e.source == app && MetaAt(NodeAt(t, app), CAN_SIGN_IN) == Flag(true))
                || (e.source != e.target && IsController(t, app, e.source)))
  {
    PrincipalIs(t, app, e.target);
    if PrincipalOf(t, app).Some? {
      PrincipalIs(t, app, PrincipalOf(t, app).value);
      ControllerEdgesAre(t, app, PrincipalOf(t, app).value, e);
    }
  }

  lemma AllAppEdgesAre(t: Table, e: Edge)
    requires Proper(t) && OnePerIdentity(t)
    ensures e in FlatMap(t.order, app => AppEdges(t, app)) <==> UsesItsCredential(t, e) || ControlsRegistration(t, e)
  {
    if app :| app in t.order && e in AppEdges(t, app) {
      AppEdgesAre(t, app, e);
    }
    if UsesItsCredential(t, e) {
      AppEdgesAre(t, e.source, e);
    }
    if ControlsRegistration(t, e) {
      var app :| SignsInAs(t, app, e.target) && IsController(t, app, e.source);
      AppEdgesAre(t, app, e);
    }
  }

  lemma SubscriptionsAre(t: Table, id: string)
    requires Proper(t)
    ensures id in Subscriptions(t) <==> id in t.at && t.at[id].kind == SUBSCRIPTION
  {
    if id in t.at && t.at[id].kind == SUBSCRIPTION {
      assert id in IfSubscription(t, id);
    }
  }

  lemma ActEdgesAre(t: Table, id: string, key: MetaKey, relationship: Relationship, e: Edge)
    requires e.target in Principals(t) <==> IsPrincipal(t, e.target)
    ensures e in ActEdges(t, id, key, relationship) <==> e.source == id && ActsAs(t, key, relationship, e)
  {
    ActEdgesReach(t, id, key, relationship, e);
    if id in t.at { PowersAreRecorded(t.at[id], key, ACT_AS_ANY_APPLICATION); }
  }

  lemma ActEdgesReach(t: Table, id: string, key: MetaKey, relationship: Relationship, e: Edge)
    ensures e in ActEdges(t, id, key, relationship) <==>
            && id in t.at && HoldsPower(t.at[id], key, ACT_AS_ANY_APPLICATION)
            && e.source == id && e.relationship == relationship && e.target in Principals(t) && e.target != id
  {
    EdgesToOthers(id, Principals(t), relationship, e);
  }

  lemma EdgesToOthers(id: string, principals: seq<string>, relationship: Relationship, e: Edge)
    ensures e in FlatMap(principals, p => if p != id then [Edge(id, relationship, p)] else []) <==>
            e.source == id && e.relationship == relationship && e.target in principals && e.target != id
  {
    var f := p => if p != id then [Edge(id, relationship, p)] else [];
    if e.source == id && e.relationship == relationship && e.target in principals && e.target != id {
      assert e in f(e.target);
    }
  }

  lemma TakeEdgesAre(t: Table, id: string, key: MetaKey, relationship: Relationship, e: Edge)
    requires Proper(t)
    ensures e in TakeEdges(t, id, key, relationship) <==> e.source == id && TakesOver(t, key, relationship, e)
  {
    SubscriptionsAre(t, e.target);
    ToEachIs(id, relationship, Subscriptions(t), e);
    if id in t.at { PowersAreRecorded(t.at[id], key, CONTROL_ALL_SCOPES); }
  }

  lemma ToEachIs(id: string, relationship: Relationship, targets: seq<string>, e: Edge)
    ensures e in FlatMap(targets, s => [Edge(id, relationship, s)]) <==>
            e.source == id && e.relationship == relationship && e.target in targets
  {
    var f := s => [Edge(id, relationship, s)];
    if e.source == id && e.relationship == relationship && e.target in targets {
      assert e in f(e.target);
    }
  }

  lemma BothPowersAre(t: Table, id: string, e: Edge)
    requires Proper(t) && OnePerIdentity(t)
    ensures e in BothPowers(t, id) <==> e.source == id && ByPower(t, e)
  {
    PrincipalsAre(t, e.target);
    ActEdgesAre(t, id, POWERS, CAN_ACT_AS, e);
    ActEdgesAre(t, id, ELIGIBLE_POWERS, ELIGIBLE_FOR, e);
    TakeEdgesAre(t, id, POWERS, CAN_TAKE_OVER, e);
    TakeEdgesAre(t, id, ELIGIBLE_POWERS, ELIGIBLE_FOR, e);
  }

  lemma AllPowerEdgesAre(t: Table, e: Edge)
    requires Proper(t) && OnePerIdentity(t)
    ensures e in FlatMap(t.order, id => BothPowers(t, id)) <==> ByPower(t, e)
  {
    if id :| id in t.order && e in BothPowers(t, id) {
      BothPowersAre(t, id, e);
    }
    if ByPower(t, e) {
      BothPowersAre(t, e.source, e);
      assert e.source in t.order;
    }
  }

  /** The derived edges are exactly those the nodes imply. */
  lemma DerivedAreImplied(t: Table, e: Edge)
    requires Proper(t) && OnePerIdentity(t)
    ensures e in Derived(t) <==> Implied(t, e)
  {
    MembershipsAre(t, e);
    AllAppEdgesAre(t, e);
    AllPowerEdgesAre(t, e);
  }

  /** The source owns its own scope: it is a subscription that can take over every subscription. */
  ghost predicate OwnsItself(t: Table, e: Edge) {
    e.source == e.target && (TakesOver(t, POWERS, CAN_TAKE_OVER, e) || TakesOver(t, ELIGIBLE_POWERS, ELIGIBLE_FOR, e))
  }

  /** An implied edge runs between nodes, and two different ones unless the source owns its own scope. */
  lemma ImpliedEnds(t: Table, e: Edge)
    requires Implied(t, e)
    ensures e.source in t.at && e.target in t.at
    ensures e.source == e.target ==> OwnsItself(t, e)
  {
  }
}
