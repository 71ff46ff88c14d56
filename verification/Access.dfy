/** Who holds access to an asset, and what an identity holds. */
module Access {
  import opened Lists
  import opened Resources
  import opened Exploring
  import opened Lenses

  datatype Link<K> = Link(relationship: Relationship, other: K)

  type Links = map<string, seq<Link<string>>>

  type Nodes = map<string, Resource>

  function LinksAt(links: Links, id: string): seq<Link<string>> {
    if id in links then links[id] else []
  }

  /** One step along containment, to a node of the graph. */
  ghost function Containing(nodes: Nodes, links: Links): Relation<string> {
    (a, b) => Link(CONTAINS, b) in LinksAt(links, a) && b in nodes
  }

  /** Both ends of every link are nodes, each under its own id. */
  ghost predicate Closed(nodes: Nodes, links: Links) {
    && (forall id :: id in nodes ==> nodes[id].id == id)
    && (forall a, l {:trigger l in LinksAt(links, a)} :: l in LinksAt(links, a) ==> a in nodes && l.other in nodes)
  }

  // ---------------------------------------------------------------- the two walks

  /** The asset and every container above it. */
  method Containers(nodes: Nodes, incoming: Links, start: string) returns (chain: seq<string>)
    requires Closed(nodes, incoming) && start in nodes
    ensures NoRepeats(chain)
    ensures forall a :: a in chain <==> Leads(Containing(nodes, incoming), start, a)
    ensures forall a :: a in chain ==> a in nodes
  {
    ghost var step, done := Containing(nodes, incoming), 0;
    chain := [start];
    var seen, queue := {start}, [start];
    WalkBegins(step, start);
    while queue != []
      invariant Walking(step, start, chain, queue, seen, done)
      invariant seen <= nodes.Keys
      decreases |nodes.Keys - seen|, |queue|
    {
      chain, queue, seen := Climb(LinksAt(incoming, queue[0]), chain, queue, seen, step, start, done, nodes.Keys);
      done := done + 1;
    }
    WalkEnds(step, start, chain, seen, done);
  }

  /** The containers of one id, those not seen yet queued. */
  method Climb<K(!new, ==)>(links: seq<Link<K>>, found: seq<K>, waiting: seq<K>, known: set<K>, ghost step: Relation<K>,
                            ghost start: K, ghost done: nat, ghost all: set<K>)
    returns (chain: seq<K>, queue: seq<K>, seen: set<K>)
    requires Walking(step, start, found, waiting, known, done) && waiting != [] && known <= all
    requires forall b :: step(waiting[0], b) <==> Link(CONTAINS, b) in links
    requires forall l :: l in links ==> l.other in all
    ensures Walking(step, start, chain, queue, seen, done + 1) && seen <= all
    ensures |all - seen| < |all - known| || (seen == known && |queue| < |waiting|)
  {
    ghost var head := waiting[0];
    chain, queue, seen := found, waiting, known;
    for i := 0 to |links|
      invariant Following(step, start, chain, queue, seen, done, head, known, |waiting|)
      invariant seen <= all && Followed(links[..i], seen)
    {
      var parent := links[i].other;
      assert links[..i + 1] == links[..i] + [links[i]];
      if links[i].relationship == CONTAINS && parent !in seen {
        assert links[i] == Link(CONTAINS, parent) && links[i] in links;
        FollowFinds(step, start, chain, queue, seen, done, head, known, |waiting|, parent);
        chain, queue, seen := chain + [parent], queue + [parent], seen + {parent};
      }
    }
    assert links[..|links|] == links;
    FollowMovesOn(step, start, chain, queue, seen, done, head, known, |waiting|, all);
    queue := queue[1..];
  }

  ghost predicate Followed<K(!new)>(links: seq<Link<K>>, seen: set<K>) {
    forall b :: Link(CONTAINS, b) in links ==> b in seen
  }

  /** The node and everything contained beneath it, links to what is no node skipped. */
  method Under(nodes: Nodes, outgoing: Links, root: string) returns (found: seq<string>)
    requires root in nodes
    ensures NoRepeats(found)
    ensures forall x :: x in found <==> Leads(Containing(nodes, outgoing), root, x)
    ensures forall x :: x in found ==> x in nodes
  {
    ghost var step, done := Containing(nodes, outgoing), 0;
    found := [root];
    var seen, queue := {root}, [root];
    WalkBegins(step, root);
    while queue != []
      invariant Walking(step, root, found, queue, seen, done)
      invariant seen <= nodes.Keys
      decreases |nodes.Keys - seen|, |queue|
    {
      found, queue, seen := Descend(LinksAt(outgoing, queue[0]), nodes.Keys, found, queue, seen, step, root, done);
      done := done + 1;
    }
    WalkEnds(step, root, found, seen, done);
  }

  /** What one id contains, among the nodes: queued where not seen yet. */
  method Descend<K(!new, ==)>(links: seq<Link<K>>, nodes: set<K>, known: seq<K>, waiting: seq<K>, reached: set<K>,
                              ghost step: Relation<K>, ghost root: K, ghost done: nat)
    returns (found: seq<K>, queue: seq<K>, seen: set<K>)
    requires Walking(step, root, known, waiting, reached, done) && waiting != [] && reached <= nodes
    requires forall b :: step(waiting[0], b) <==> Link(CONTAINS, b) in links && b in nodes
    ensures Walking(step, root, found, queue, seen, done + 1) && seen <= nodes
    ensures |nodes - seen| < |nodes - reached| || (seen == reached && |queue| < |waiting|)
  {
    ghost var head := waiting[0];
    found, queue, seen := known, waiting, reached;
    for i := 0 to |links|
      invariant Following(step, root, found, queue, seen, done, head, reached, |waiting|)
      invariant seen <= nodes && FollowedWithin(links[..i], nodes, seen)
    {
      var child := links[i].other;
      assert links[..i + 1] == links[..i] + [links[i]];
      if links[i].relationship == CONTAINS && child !in seen && child in nodes {
        assert links[i] == Link(CONTAINS, child) && links[i] in links;
        FollowFinds(step, root, found, queue, seen, done, head, reached, |waiting|, child);
        found, queue, seen := found + [child], queue + [child], seen + {child};
      }
    }
    assert links[..|links|] == links;
    FollowMovesOn(step, root, found, queue, seen, done, head, reached, |waiting|, nodes);
    queue := queue[1..];
  }

  ghost predicate FollowedWithin<K(!new)>(links: seq<Link<K>>, nodes: set<K>, seen: set<K>) {
    forall b :: Link(CONTAINS, b) in links && b in nodes ==> b in seen
  }

  // ---------------------------------------------------------------- who holds access to an asset

  /** One role one principal holds that reaches the asset asked about: an Azure role assignment, or through the
      directory. */
  datatype Holder = Holder(principal: string, role: string, at: string, inheritedFrom: string, kinds: set<AccessKind>,
                           controls: bool, conditional: bool, resolved: bool)
                  | ThroughDirectory(principal: string, relationship: Relationship, at: string, controls: bool)

  const UNKNOWN_ROLE := Mapping(map["role" := "Unknown role"], Absent)

  function RoleName(entry: Item): string {
    var name := if entry.Mapping? then Field(entry.fields, "role") else "";
    if name != "" then name else "Unknown role"
  }

  function FieldOf(entry: Item, key: string): string {
    if entry.Mapping? then Field(entry.fields, key) else ""
  }

  function AccessOf(entry: Item): RoleAccess {
    if entry.Mapping? then entry.access else Absent
  }

  /** The entry's definition was read. */
  predicate Resolved(entry: Item) {
    AccessOf(entry).Stated?
  }

  predicate GrantsRoles(entry: Item) {
    FieldOf(entry, "grants_role_assignment") != ""
  }

  function Kinds(access: RoleAccess, kind: ResourceType): set<AccessKind> {
    set p | p in PairsOf(access) && p.kind == kind :: p.access
  }

  /** `_controls`. */
  predicate HolderControls(entry: Item, focus: Resource, kinds: set<AccessKind>) {
    GrantsRoles(entry) || READ_DATA in kinds || EXECUTE in kinds || (EDIT_POLICY in kinds && OwnPolicy(focus))
  }

  function HolderOf(focus: Resource, principal: string, level: string, entry: Item): Holder {
    var kinds := (if focus.kind in SCOPES then {} else Kinds(AccessOf(entry), focus.kind))
                 + if GrantsRoles(entry) then {GRANT_ACCESS} else {};
    Holder(principal, RoleName(entry), level, FieldOf(entry, "inherited_from"), kinds,
           focus.kind !in SCOPES && Resolved(entry) && HolderControls(entry, focus, kinds),
           FieldOf(entry, "conditional") != "", Resolved(entry))
  }

  function EntriesOrUnknown(nodes: Nodes, principal: string, level: string): seq<Item> {
    if principal !in nodes then []
    else
      var entries := RoleEntries(nodes[principal], level);
      if entries == [] then [UNKNOWN_ROLE] else entries
  }

  ghost predicate HeldAt(nodes: Nodes, incoming: Links, focus: Resource, level: string, h: Holder) {
    exists p, e :: Link(GRANTS_ROLE, p) in LinksAt(incoming, level) && e in EntriesOrUnknown(nodes, p, level)
                   && h == HolderOf(focus, p, level, e)
  }

  ghost predicate AtAndAbove(nodes: Nodes, incoming: Links, focus: string, level: string) {
    level in nodes && Leads(Containing(nodes, incoming), focus, level)
  }

  /** A role assigned at the asset or a container of it. */
  ghost predicate HeldByRole(nodes: Nodes, incoming: Links, focus: Resource, h: Holder) {
    exists level :: AtAndAbove(nodes, incoming, focus.id, level) && HeldAt(nodes, incoming, focus, level, h)
  }

  /** Taking over a subscription above the asset, or signing in as it. */
  ghost predicate HeldThroughDirectory(nodes: Nodes, incoming: Links, focus: Resource, h: Holder) {
    && h.ThroughDirectory? && h.principal in nodes && h.controls == (focus.kind !in SCOPES)
    && AtAndAbove(nodes, incoming, focus.id, h.at) && Link(h.relationship, h.principal) in LinksAt(incoming, h.at)
    && (if h.relationship == CAN_TAKE_OVER then nodes[h.at].kind == SUBSCRIPTION
        else h.relationship == CAN_ACT_AS && h.at == focus.id)
  }

  method Holders(nodes: Nodes, incoming: Links, resourceId: string) returns (found: seq<Holder>)
    requires Closed(nodes, incoming)
    ensures resourceId !in nodes ==> found == []
    ensures resourceId in nodes ==> forall h :: h in found <==>
      HeldByRole(nodes, incoming, nodes[resourceId], h) || HeldThroughDirectory(nodes, incoming, nodes[resourceId], h)
  {
    found := [];
    if resourceId !in nodes {
      return;
    }
    var focus := nodes[resourceId];
    var chain := Containers(nodes, incoming, resourceId);
    for i := 0 to |chain|
      invariant forall h :: h in found <==> HeldOn(nodes, incoming, focus, chain[..i], h)
    {
      assert chain[..i + 1] == chain[..i] + [chain[i]];
      OneMoreLevel(nodes, incoming, focus, chain[..i], chain[i]);
      var here := HoldersAt(nodes, incoming, focus, chain[i]);
      found := found + here;
    }
    assert chain[..|chain|] == chain;
    LevelsAreContainers(nodes, incoming, focus, chain);
    var directory := DirectoryHolders(nodes, incoming, focus, chain);
    found := found + directory;
  }

  ghost predicate HeldOn(nodes: Nodes, incoming: Links, focus: Resource, levels: seq<string>, h: Holder) {
    exists level :: level in levels && HeldAt(nodes, incoming, focus, level, h)
  }

  lemma OneMoreLevel(nodes: Nodes, incoming: Links, focus: Resource, levels: seq<string>, level: string)
    ensures forall h :: HeldOn(nodes, incoming, focus, levels + [level], h) <==>
                        HeldOn(nodes, incoming, focus, levels, h) || HeldAt(nodes, incoming, focus, level, h)
  {
    assert forall l :: l in levels + [level] <==> l in levels || l == level;
  }

  lemma LevelsAreContainers(nodes: Nodes, incoming: Links, focus: Resource, chain: seq<string>)
    requires forall a :: a in chain <==> AtAndAbove(nodes, incoming, focus.id, a)
    ensures forall h :: HeldOn(nodes, incoming, focus, chain, h) <==> HeldByRole(nodes, incoming, focus, h)
  {
  }

  method HoldersAt(nodes: Nodes, incoming: Links, focus: Resource, level: string) returns (found: seq<Holder>)
    ensures forall h :: h in found <==> HeldAt(nodes, incoming, focus, level, h)
  {
    found := [];
    var links := LinksAt(incoming, level);
    var left := set l | l in links && l.relationship == GRANTS_ROLE && l.other in nodes :: l.other;
    ghost var done: set<string> := {};
    while left != {}
      invariant left + done == set l | l in links && l.relationship == GRANTS_ROLE && l.other in nodes :: l.other
      invariant forall h :: h in found <==> HeldAmong(nodes, focus, level, done, h)
    {
      var principal :| principal in left;
      var entries := EntriesOrUnknown(nodes, principal, level);
      OneMoreHolder(nodes, focus, level, done, principal);
      found := found + HoldersOf(focus, principal, level, entries);
      left, done := left - {principal}, done + {principal};
    }
    assert forall p :: p in done <==> Link(GRANTS_ROLE, p) in links && p in nodes;
  }

  ghost predicate HeldAmong(nodes: Nodes, focus: Resource, level: string, principals: set<string>, h: Holder) {
    exists p, e :: p in principals && e in EntriesOrUnknown(nodes, p, level) && h == HolderOf(focus, p, level, e)
  }

  lemma OneMoreHolder(nodes: Nodes, focus: Resource, level: string, done: set<string>, p: string)
    ensures forall h :: HeldAmong(nodes, focus, level, done + {p}, h) <==>
                        HeldAmong(nodes, focus, level, done, h)
                        || h in HoldersOf(focus, p, level, EntriesOrUnknown(nodes, p, level))
  {
  }

  function HoldersOf(focus: Resource, principal: string, level: string, entries: seq<Item>): (r: seq<Holder>)
    ensures forall h :: h in r <==> exists e :: e in entries && h == HolderOf(focus, principal, level, e)
  {
    if entries == [] then []
    else HoldersOf(focus, principal, level, entries[..|entries| - 1])
         + [HolderOf(focus, principal, level, entries[|entries| - 1])]
  }

  ghost predicate DirectlyAt(nodes: Nodes, links: seq<Link<string>>, focus: Resource, relationship: Relationship,
                             level: string, h: Holder) {
    && h.ThroughDirectory? && Link(relationship, h.principal) in links && h.principal in nodes
    && h == ThroughDirectory(h.principal, relationship, level, focus.kind !in SCOPES)
  }

  method Directly(nodes: Nodes, links: seq<Link<string>>, focus: Resource, relationship: Relationship, level: string)
    returns (found: seq<Holder>)
    ensures forall h :: h in found <==> DirectlyAt(nodes, links, focus, relationship, level, h)
  {
    found := [];
    for i := 0 to |links|
      invariant forall h :: h in found <==> DirectlyAt(nodes, links[..i], focus, relationship, level, h)
    {
      assert links[..i + 1] == links[..i] + [links[i]];
      if links[i].relationship == relationship && links[i].other in nodes {
        found := found + [ThroughDirectory(links[i].other, relationship, level, focus.kind !in SCOPES)];
      }
    }
    assert links[..|links|] == links;
  }

  ghost predicate TakenOn(nodes: Nodes, incoming: Links, focus: Resource, levels: seq<string>, h: Holder) {
    && h.ThroughDirectory? && h.at in levels && h.at in nodes && nodes[h.at].kind == SUBSCRIPTION
    && DirectlyAt(nodes, LinksAt(incoming, h.at), focus, CAN_TAKE_OVER, h.at, h)
  }

  method DirectoryHolders(nodes: Nodes, incoming: Links, focus: Resource, chain: seq<string>)
    returns (found: seq<Holder>)
    requires Closed(nodes, incoming) && focus.id in nodes && nodes[focus.id] == focus
    requires forall a :: a in chain ==> a in nodes
    requires forall a :: a in chain <==> AtAndAbove(nodes, incoming, focus.id, a)
    ensures forall h :: h in found <==> HeldThroughDirectory(nodes, incoming, focus, h)
  {
    found := [];
    for i := 0 to |chain|
      invariant forall h :: h in found <==> TakenOn(nodes, incoming, focus, chain[..i], h)
    {
      assert chain[..i + 1] == chain[..i] + [chain[i]];
      if nodes[chain[i]].kind == SUBSCRIPTION {
        var here := Directly(nodes, LinksAt(incoming, chain[i]), focus, CAN_TAKE_OVER, chain[i]);
        found := found + here;
      }
    }
    assert chain[..|chain|] == chain;
    var here := Directly(nodes, LinksAt(incoming, focus.id), focus, CAN_ACT_AS, focus.id);
    found := found + here;
    FocusIsAbove(nodes, incoming, focus.id);
  }

  lemma FocusIsAbove(nodes: Nodes, incoming: Links, id: string)
    requires id in nodes
    ensures AtAndAbove(nodes, incoming, id, id)
  {
    assert Trail(Containing(nodes, incoming), [id]);
  }
}
