/** How a walk moves over the asset graph: what it may cross, what it holds where it stands, and what removing links
    takes away. */
module AssetWalks {
  import opened Wrappers
  import opened Resources
  import opened Lenses
  import opened Access
  import opened Severance
  import opened Relabelling

  const NETWORK_ACCESS := ANOTHER("network_access")

  /** The assets, the links out of each, and the node each folded id ended up in. */
  datatype Graph = Graph(nodes: Nodes, out: Links, aliases: map<string, string>)

  /** Where a walk stands. Without a lens it holds the node; with one it came through a role and is passing through. */
  datatype State = State(node: string, lens: Option<Lens>)

  predicate IsCapability(r: Relationship) {
    r in {HAS_IDENTITY, GRANTS_ROLE, CAN_GRANT_ROLES, CONTAINS, NETWORK_ACCESS, MEMBER_OF, CAN_ACT_AS, CAN_TAKE_OVER}
  }

  predicate IsRoleEdge(r: Relationship) {
    r in {GRANTS_ROLE, CAN_GRANT_ROLES, CAN_TAKE_OVER}
  }

  predicate Removable(r: Relationship) {
    IsCapability(r) && r != CONTAINS
  }

  predicate IsEmpty(lens: Lens) {
    !lens.everything && lens.grants == {}
  }

  function LensAt(nodes: Nodes, e: Edge): Lens {
    if e.source in nodes then LensOf(nodes[e.source], e.relationship, e.target) else EVERYTHING
  }

  predicate IsScope(nodes: Nodes, id: string) {
    id in nodes && nodes[id].kind in SCOPES
  }

  /** `_arrive`: an asset the lens controls is held; a scope, or one it does not, is passed through. */
  function Arrive(nodes: Nodes, id: string, lens: Lens): State {
    if !IsScope(nodes, id) && id in nodes && Controls(lens, nodes[id]) then State(id, None) else State(id, Some(lens))
  }

  /** The way on over one link, if it is one. */
  function MoveOver(nodes: Nodes, s: State, link: Link<string>): seq<Move<Edge, State>> {
    var e := Edge(s.node, link.relationship, link.other);
    if s.lens.Some? then
      if link.relationship == CONTAINS then [Move(Some(e), Arrive(nodes, link.other, s.lens.value))] else []
    else if !IsCapability(link.relationship) then []
    else if !IsRoleEdge(link.relationship) then [Move(Some(e), State(link.other, None))]
    else if IsEmpty(LensAt(nodes, e)) then []
    else [Move(Some(e), Arrive(nodes, link.other, LensAt(nodes, e)))]
  }

  function MovesOver(nodes: Nodes, s: State, links: seq<Link<string>>): (r: seq<Move<Edge, State>>)
    ensures forall move :: move in r <==> exists link :: link in links && move in MoveOver(nodes, s, link)
  {
    if links == [] then []
    else
      var rest, last := links[..|links| - 1], links[|links| - 1];
      assert forall link :: link in links <==> link in rest || link == last;
      MovesOver(nodes, s, rest) + MoveOver(nodes, s, last)
  }

  /** `_moves`, each named by the link taken. */
  function Taken(g: Graph): Successors<Edge, State> {
    (s: State) => MovesOver(g.nodes, s, LinksAt(g.out, s.node))
  }

  /** `_reached_node`: the node held, or the scope a role landed on. */
  function ReachedNode(nodes: Nodes): State -> Option<string> {
    (s: State) => if s.lens.None? || IsScope(nodes, s.node) then Some(s.node) else None
  }

  // ---------------------------------------------------------------- what somebody removes

  /** `removal_key`: a link is removed as itself, but an escalation over an assigned role as the assignment. */
  function RemovalKey(g: Graph, e: Edge): Edge {
    if e.relationship == CAN_GRANT_ROLES && Link(GRANTS_ROLE, e.target) in LinksAt(g.out, e.source)
    then Edge(e.source, GRANTS_ROLE, e.target) else e
  }

  function KeyOf(g: Graph): Edge -> Option<Edge> {
    (e: Edge) => if Removable(e.relationship) then Some(RemovalKey(g, e)) else None
  }

  /** `_successors`: the same walk, each move named by what removes it. */
  function Keyed(g: Graph): Successors<Edge, State> {
    Relabelled(Taken(g), KeyOf(g))
  }

  /** Another graph with the same assets and the links that are left, in any order. */
  ghost predicate IsCut(g: Graph, keys: set<Edge>, h: Graph) {
    && h.nodes == g.nodes
    && forall a, l {:trigger l in LinksAt(h.out, a)} {:trigger l in LinksAt(g.out, a)} ::
         l in LinksAt(h.out, a) <==> l in LinksAt(g.out, a) && RemovalKey(g, Edge(a, l.relationship, l.other)) !in keys
  }

  function KeptLinks(g: Graph, keys: set<Edge>, a: string, links: seq<Link<string>>): (r: seq<Link<string>>)
    ensures forall l :: l in r <==> l in links && RemovalKey(g, Edge(a, l.relationship, l.other)) !in keys
  {
    if links == [] then []
    else
      var last := links[|links| - 1];
      KeptLinks(g, keys, a, links[..|links| - 1])
      + if RemovalKey(g, Edge(a, last.relationship, last.other)) in keys then [] else [last]
  }

  /** `without`. */
  method Without(g: Graph, keys: set<Edge>) returns (h: Graph)
    ensures IsCut(g, keys, h) && h.aliases == map[]
  {
    h := Graph(g.nodes, map a | a in g.out :: KeptLinks(g, keys, a, g.out[a]), map[]);
  }

  /** Over links that these removals take. */
  function Gone(g: Graph, keys: set<Edge>): Move<Edge, State> -> bool {
    (move: Move<Edge, State>) => move.link.Some? && RemovalKey(g, move.link.value) in keys
  }

  lemma MoveOverNames(nodes: Nodes, s: State, link: Link<string>, move: Move<Edge, State>)
    requires move in MoveOver(nodes, s, link)
    ensures move.link == Some(Edge(s.node, link.relationship, link.other)) && move.to.node == link.other
    ensures IsCapability(link.relationship)
  {
  }

  lemma CutLeaves(g: Graph, keys: set<Edge>, h: Graph)
    requires IsCut(g, keys, h)
    ensures Leaves(Taken(g), Gone(g, keys), Taken(h))
  {
    forall s, move
      ensures move in Taken(h)(s) <==> move in Taken(g)(s) && !Gone(g, keys)(move)
    {
      CutLeavesAt(g, keys, h, s, move);
    }
  }

  lemma CutLeavesAt(g: Graph, keys: set<Edge>, h: Graph, s: State, move: Move<Edge, State>)
    requires IsCut(g, keys, h)
    ensures move in Taken(h)(s) <==> move in Taken(g)(s) && !Gone(g, keys)(move)
  {
    if link :| link in LinksAt(h.out, s.node) && move in MoveOver(g.nodes, s, link) {
      MoveOverNames(g.nodes, s, link, move);
    }
    if link :| link in LinksAt(g.out, s.node) && move in MoveOver(g.nodes, s, link) && !Gone(g, keys)(move) {
      MoveOverNames(g.nodes, s, link, move);
      assert link in LinksAt(h.out, s.node);
    }
  }

  // ---------------------------------------------------------------- reach with links removed

  function Holding(id: string): State {
    State(id, None)
  }

  /** A walk within the bound that reaches the node over nothing the removals take. */
  ghost predicate AvoidsTo(g: Graph, keys: set<Edge>, entry: string, bound: nat, n: string,
                           walk: seq<Move<Edge, State>>) {
    && Leads(Taken(g), Holding(entry), 0, bound, walk, End(Holding(entry), walk)) && NoneGone(Gone(g, keys), walk)
    && ReachedNode(g.nodes)(End(Holding(entry), walk)) == Some(n)
  }

  ghost predicate StillReached(g: Graph, keys: set<Edge>, entry: string, bound: nat, n: string) {
    exists walk :: AvoidsTo(g, keys, entry, bound, n, walk)
  }

  ghost predicate IsReached(g: Graph, entry: string, bound: nat, n: string) {
    NodeReached(Taken(g), ReachedNode(g.nodes), Holding(entry), bound, n)
  }

  /** What the graph without the links reaches is what the graph reaches over the others. */
  lemma CutReaches(g: Graph, keys: set<Edge>, h: Graph, entry: string, bound: nat, n: string)
    requires IsCut(g, keys, h)
    ensures IsReached(h, entry, bound, n) <==> StillReached(g, keys, entry, bound, n)
  {
    CutLeaves(g, keys, h);
    if IsReached(h, entry, bound, n) {
      var s :| ReachedNode(h.nodes)(s) == Some(n) && Reaches(Taken(h), Holding(entry), 0, bound, s);
      var walk :| Leads(Taken(h), Holding(entry), 0, bound, walk, s);
      WalksLeft(Taken(g), Gone(g, keys), Taken(h), Holding(entry), walk);
      assert AvoidsTo(g, keys, entry, bound, n, walk);
    }
    if StillReached(g, keys, entry, bound, n) {
      var walk :| AvoidsTo(g, keys, entry, bound, n, walk);
      WalksLeft(Taken(g), Gone(g, keys), Taken(h), Holding(entry), walk);
      assert Leads(Taken(h), Holding(entry), 0, bound, walk, End(Holding(entry), walk));
      assert Reaches(Taken(h), Holding(entry), 0, bound, End(Holding(entry), walk));
    }
  }

  lemma NothingGone(g: Graph, entry: string, bound: nat, n: string)
    ensures IsReached(g, entry, bound, n) <==> StillReached(g, {}, entry, bound, n)
  {
    CutReaches(g, {}, g, entry, bound, n);
  }

  /** Removing more reaches no more. */
  lemma MoreGone(g: Graph, keys: set<Edge>, more: set<Edge>, entry: string, bound: nat, n: string)
    requires keys <= more && StillReached(g, more, entry, bound, n)
    ensures StillReached(g, keys, entry, bound, n)
  {
    var walk :| AvoidsTo(g, more, entry, bound, n, walk);
    assert AvoidsTo(g, keys, entry, bound, n, walk);
  }

  // ---------------------------------------------------------------- removing in two goes

  /** A link that is left is removed by what removed it before. */
  lemma KeysSurvive(g: Graph, keys: set<Edge>, h: Graph, a: string, l: Link<string>)
    requires IsCut(g, keys, h) && l in LinksAt(h.out, a)
    ensures RemovalKey(h, Edge(a, l.relationship, l.other)) == RemovalKey(g, Edge(a, l.relationship, l.other))
  {
    var role := Link(GRANTS_ROLE, l.other);
    if l.relationship == CAN_GRANT_ROLES {
      assert RemovalKey(g, Edge(a, GRANTS_ROLE, l.other)) == Edge(a, GRANTS_ROLE, l.other);
      assert role in LinksAt(h.out, a) <==> role in LinksAt(g.out, a) && Edge(a, GRANTS_ROLE, l.other) !in keys;
    }
  }

  /** What is left after two removals is what is left after both at once. */
  lemma CutTwice(g: Graph, keys: set<Edge>, h: Graph, more: set<Edge>, k: Graph)
    requires IsCut(g, keys, h) && IsCut(h, more, k)
    ensures IsCut(g, keys + more, k)
  {
    forall a, l
      ensures l in LinksAt(k.out, a) <==>
              l in LinksAt(g.out, a) && RemovalKey(g, Edge(a, l.relationship, l.other)) !in keys + more
    {
      if l in LinksAt(h.out, a) { KeysSurvive(g, keys, h, a, l); }
    }
  }

  /** So the graph without some links loses by more removals what the whole graph loses by all. */
  lemma StillReachedTwice(g: Graph, keys: set<Edge>, h: Graph, more: set<Edge>, entry: string, bound: nat, n: string)
    requires IsCut(g, keys, h)
    ensures StillReached(h, more, entry, bound, n) <==> StillReached(g, keys + more, entry, bound, n)
  {
    var k := Graph(h.nodes, map a | a in h.out :: KeptLinks(h, more, a, h.out[a]), map[]);
    assert IsCut(h, more, k);
    CutTwice(g, keys, h, more, k);
    CutReaches(h, more, k, entry, bound, n);
    CutReaches(g, keys + more, k, entry, bound, n);
  }

  // ---------------------------------------------------------------- what the keyed walk needs

  lemma CrossingIsGone(g: Graph, key: Edge, walk: seq<Move<Edge, State>>)
    requires Removable(key.relationship)
    ensures Crosses(KeyOf(g), walk, key) <==> !NoneGone(Gone(g, {key}), walk)
  {
    assert forall i :: 0 <= i < |walk| ==> (Relabel(KeyOf(g), walk[i]).link == Some(key) <==> Gone(g, {key})(walk[i]));
  }

  /** Every walk to a node crosses what is removed under a key exactly when nothing reaches it with that removed. */
  lemma NeededIsCutOff(g: Graph, entry: string, bound: nat, n: string, key: Edge)
    requires Removable(key.relationship)
    ensures NodeNeeds(Keyed(g), ReachedNode(g.nodes), Holding(entry), bound, n, key) <==>
            !StillReached(g, {key}, entry, bound, n)
  {
    if NodeNeeds(Keyed(g), ReachedNode(g.nodes), Holding(entry), bound, n, key) {
      forall walk
        ensures !AvoidsTo(g, {key}, entry, bound, n, walk)
      {
        NeededIsNotAvoided(g, entry, bound, n, key, walk);
      }
    }
    if !StillReached(g, {key}, entry, bound, n) {
      forall s | ReachedNode(g.nodes)(s) == Some(n)
        ensures Needs(Keyed(g), Holding(entry), 0, bound, s, key)
      {
        CutOffIsNeeded(g, entry, bound, n, key, s);
      }
    }
  }

  lemma NeededIsNotAvoided(g: Graph, entry: string, bound: nat, n: string, key: Edge, walk: seq<Move<Edge, State>>)
    requires Removable(key.relationship)
    requires NodeNeeds(Keyed(g), ReachedNode(g.nodes), Holding(entry), bound, n, key)
    ensures !AvoidsTo(g, {key}, entry, bound, n, walk)
  {
    var s := End(Holding(entry), walk);
    CrossingIsGone(g, key, walk);
    NeededMeansAllCross(Taken(g), KeyOf(g), Holding(entry), bound, s, key);
  }

  lemma CutOffIsNeeded(g: Graph, entry: string, bound: nat, n: string, key: Edge, s: State)
    requires Removable(key.relationship) && !StillReached(g, {key}, entry, bound, n)
    requires ReachedNode(g.nodes)(s) == Some(n)
    ensures Needs(Keyed(g), Holding(entry), 0, bound, s, key)
  {
    forall walk | Leads(Taken(g), Holding(entry), 0, bound, walk, s)
      ensures Crosses(KeyOf(g), walk, key)
    {
      CrossingIsGone(g, key, walk);
      assert !AvoidsTo(g, {key}, entry, bound, n, walk);
    }
    NeededMeansAllCross(Taken(g), KeyOf(g), Holding(entry), bound, s, key);
  }

  lemma KeyedReaches(g: Graph, entry: string, bound: nat, n: string)
    ensures NodeReached(Keyed(g), ReachedNode(g.nodes), Holding(entry), bound, n) <==> IsReached(g, entry, bound, n)
  {
    forall s
      ensures Reaches(Keyed(g), Holding(entry), 0, bound, s) <==> Reaches(Taken(g), Holding(entry), 0, bound, s)
    {
      ReachedAlike(Taken(g), KeyOf(g), Holding(entry), bound, s);
    }
  }
}
