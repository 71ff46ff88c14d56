/** What an identity holds, role by role, and why it agrees with who holds access to an asset. */
module Grants {
  import opened Wrappers
  import opened Lists
  import opened Resources
  import opened Exploring
  import opened Lenses
  import opened Access

  /** One role an identity holds, itself or through a group or an identity it can sign in as; or a take-over. */
  datatype Grant = Grant(role: string, at: Option<string>, scope: string, inheritedFrom: string, conditional: bool,
                         resolved: bool, grantsAccess: bool, controlled: seq<string>, via: Option<string>)
                 | TakeOver(subscription: string, controlled: seq<string>)

  /** A role, and the group or identity it is held through. */
  datatype HeldRole = HeldRole(via: Option<string>, entry: Item)

  function RolesOf(r: Resource): seq<Item> {
    ItemsAt(r.metadata, ROLES)
  }

  function Through(via: Option<string>, entries: seq<Item>): (r: seq<HeldRole>)
    ensures forall h :: h in r <==> h.via == via && h.entry in entries && h.entry.Mapping?
  {
    if entries == [] then []
    else
      Through(via, entries[..|entries| - 1])
      + if entries[|entries| - 1].Mapping? then [HeldRole(via, entries[|entries| - 1])] else []
  }

  /** The roles of every group the links lead into, and of every identity they let the holder sign in as. */
  function ThroughOthers(nodes: Nodes, links: seq<Link<string>>): (r: seq<HeldRole>)
    ensures forall h :: h in r ==> h.via.Some? && h.entry.Mapping?
  {
    if links == [] then []
    else
      var last := links[|links| - 1];
      ThroughOthers(nodes, links[..|links| - 1])
      + if (last.relationship == MEMBER_OF || last.relationship == CAN_ACT_AS) && last.other in nodes
        then Through(Some(last.other), RolesOf(nodes[last.other])) else []
  }

  function AllHeld(nodes: Nodes, outgoing: Links, id: string): seq<HeldRole>
    requires id in nodes
  {
    Through(None, RolesOf(nodes[id])) + ThroughOthers(nodes, LinksAt(outgoing, id))
  }

  function GrantLens(entry: Item): Lens {
    Lens(GrantsRoles(entry), ControlPairs(AccessOf(entry)))
  }

  ghost predicate Beneath(nodes: Nodes, outgoing: Links, root: string, x: string) {
    root in nodes && x in nodes && nodes[x].kind !in SCOPES && Leads(Containing(nodes, outgoing), root, x)
  }

  /** The assets at or under the node a role is held at that it controls. */
  ghost predicate ControlledBy(nodes: Nodes, outgoing: Links, entry: Item, x: string) {
    && FieldOf(entry, "target") != "" && Resolved(entry)
    && Beneath(nodes, outgoing, FieldOf(entry, "target"), x) && Controls(GrantLens(entry), nodes[x])
  }

  ghost predicate GrantFor(nodes: Nodes, outgoing: Links, held: HeldRole, g: Grant) {
    var target := FieldOf(held.entry, "target");
    && g.Grant? && NoRepeats(g.controlled)
    && g == Grant(RoleName(held.entry), if target != "" && target in nodes then Some(target) else None,
                  FieldOf(held.entry, "scope"), FieldOf(held.entry, "inherited_from"),
                  FieldOf(held.entry, "conditional") != "", Resolved(held.entry), GrantsRoles(held.entry),
                  g.controlled, held.via)
    && forall x :: x in g.controlled <==> ControlledBy(nodes, outgoing, held.entry, x)
  }

  /** Ids kept in order where they pass. */
  function Kept<K(==, !new)>(ids: seq<K>, keep: set<K>): (r: seq<K>)
    ensures forall x :: x in r <==> x in ids && x in keep
    ensures NoRepeats(ids) ==> NoRepeats(r)
  {
    if ids == [] then []
    else Kept(ids[..|ids| - 1], keep) + if ids[|ids| - 1] in keep then [ids[|ids| - 1]] else []
  }

  method GrantOf(nodes: Nodes, outgoing: Links, held: HeldRole) returns (g: Grant)
    ensures GrantFor(nodes, outgoing, held, g)
  {
    var entry := held.entry;
    var target := FieldOf(entry, "target");
    var at := if target != "" && target in nodes then Some(target) else None;
    var controlled := [];
    if at.Some? && Resolved(entry) {
      var lens := GrantLens(entry);
      var under := Under(nodes, outgoing, at.value);
      controlled := Kept(under, set x | x in nodes && nodes[x].kind !in SCOPES && Controls(lens, nodes[x]));
    }
    g := Grant(RoleName(entry), at, FieldOf(entry, "scope"), FieldOf(entry, "inherited_from"),
               FieldOf(entry, "conditional") != "", Resolved(entry), GrantsRoles(entry), controlled, held.via);
  }

  ghost predicate TakeOverFor(nodes: Nodes, outgoing: Links, id: string, g: Grant) {
    && g.TakeOver? && NoRepeats(g.controlled)
    && g.subscription in nodes && Link(CAN_TAKE_OVER, g.subscription) in LinksAt(outgoing, id)
    && forall x :: x in g.controlled <==> Beneath(nodes, outgoing, g.subscription, x)
  }

  /** The subscriptions the links lead to by a take-over, in order. */
  function TakeOverTargets(nodes: Nodes, links: seq<Link<string>>): (r: seq<string>)
    ensures forall s :: s in r <==> s in nodes && Link(CAN_TAKE_OVER, s) in links
  {
    if links == [] then []
    else
      var last := links[|links| - 1];
      assert forall link :: link in links <==> link in links[..|links| - 1] || link == last;
      TakeOverTargets(nodes, links[..|links| - 1])
      + if last.relationship == CAN_TAKE_OVER && last.other in nodes then [last.other] else []
  }

  /** One grant for each, in order. */
  ghost predicate OnePerTarget(found: seq<Grant>, targets: seq<string>) {
    |found| == |targets| && forall i :: 0 <= i < |found| ==> found[i].TakeOver? && found[i].subscription == targets[i]
  }

  method TakeOvers(nodes: Nodes, outgoing: Links, id: string) returns (found: seq<Grant>)
    ensures OnePerTarget(found, TakeOverTargets(nodes, LinksAt(outgoing, id)))
    ensures forall g :: g in found ==> TakeOverFor(nodes, outgoing, id, g)
    ensures forall s :: s in nodes && Link(CAN_TAKE_OVER, s) in LinksAt(outgoing, id) ==> Taken(found, s)
  {
    found := [];
    var links := LinksAt(outgoing, id);
    for i := 0 to |links|
      invariant forall g :: g in found ==> TakeOverFor(nodes, outgoing, id, g)
      invariant OnePerTarget(found, TakeOverTargets(nodes, links[..i]))
    {
      assert links[..i + 1][..i] == links[..i];
      var subscription := links[i].other;
      if links[i].relationship == CAN_TAKE_OVER && subscription in nodes {
        var under := Under(nodes, outgoing, subscription);
        var g := TakeOver(subscription, Kept(under, set x | x in nodes && nodes[x].kind !in SCOPES));
        assert links[i] == Link(CAN_TAKE_OVER, subscription) && TakeOverFor(nodes, outgoing, id, g);
        found := found + [g];
      }
    }
    assert links[..|links|] == links;
    TargetsTaken(found, TakeOverTargets(nodes, links));
  }

  ghost predicate Taken(found: seq<Grant>, s: string) {
    exists g :: g in found && g.TakeOver? && g.subscription == s
  }

  lemma TargetsTaken(found: seq<Grant>, targets: seq<string>)
    requires OnePerTarget(found, targets)
    ensures forall s :: s in targets ==> Taken(found, s)
  {
    forall s | s in targets
      ensures Taken(found, s)
    {
      var i :| 0 <= i < |targets| && targets[i] == s;
      assert found[i] in found;
    }
  }

  method RoleGrants(nodes: Nodes, outgoing: Links, held: seq<HeldRole>) returns (roles: seq<Grant>)
    ensures AreGrants(nodes, outgoing, held, roles)
  {
    roles := [];
    for i := 0 to |held|
      invariant AreGrants(nodes, outgoing, held[..i], roles)
    {
      var g := GrantOf(nodes, outgoing, held[i]);
      roles := roles + [g];
    }
    assert held[..|held|] == held;
  }

  /** One grant for each role held, in order, then one for each subscription the directory lets the holder take over. */
  method GrantsOf(nodes: Nodes, outgoing: Links, id: string) returns (roles: seq<Grant>, takeOvers: seq<Grant>)
    ensures id !in nodes ==> roles == [] && takeOvers == []
    ensures id in nodes ==> AreGrants(nodes, outgoing, AllHeld(nodes, outgoing, id), roles)
    ensures forall g :: g in takeOvers ==> TakeOverFor(nodes, outgoing, id, g)
    ensures id in nodes ==> OnePerTarget(takeOvers, TakeOverTargets(nodes, LinksAt(outgoing, id)))
    ensures id in nodes ==> forall s :: s in nodes && Link(CAN_TAKE_OVER, s) in LinksAt(outgoing, id) ==>
              Taken(takeOvers, s)
  {
    roles, takeOvers := [], [];
    if id !in nodes {
      return;
    }
    roles := RoleGrants(nodes, outgoing, AllHeld(nodes, outgoing, id));
    takeOvers := TakeOvers(nodes, outgoing, id);
  }

  ghost predicate AreGrants(nodes: Nodes, outgoing: Links, held: seq<HeldRole>, grants: seq<Grant>) {
    |grants| == |held| && forall i :: 0 <= i < |held| ==> GrantFor(nodes, outgoing, held[i], grants[i])
  }
}
