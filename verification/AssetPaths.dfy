/** Which links a walk may take one after the other, and what it holds at the end, said of the links and the roles
    behind them alone. */
module AssetPaths {
  import opened Resources
  import opened Lenses
  import opened Access
  import opened Wrappers
  import opened Severance
  import opened Searching
  import opened Relabelling
  import opened AssetWalks

  type Path = seq<Edge>

  function EndOf(start: string, path: Path): string {
    if path == [] then start else path[|path| - 1].target
  }

  ghost predicate IsLink(g: Graph, e: Edge) {
    e.source in g.out && Link(e.relationship, e.target) in g.out[e.source]
  }

  ghost predicate IsRole(e: Edge) {
    e.relationship == GRANTS_ROLE || e.relationship == CAN_GRANT_ROLES || e.relationship == CAN_TAKE_OVER
  }

  /** What the roles behind a link control, were it an asset. */
  ghost predicate RolesControl(nodes: Nodes, role: Edge, x: Resource) {
    role.source in nodes ==> EdgeControls(role.relationship, RoleEntries(nodes[role.source], role.target), x)
  }

  /** The asset is no scope, and the roles behind a link control it. */
  ghost predicate GivesHold(nodes: Nodes, role: Edge, id: string) {
    && id in nodes && nodes[id].kind != SUBSCRIPTION && nodes[id].kind != RESOURCE_GROUP
    && RolesControl(nodes, role, nodes[id])
  }

  ghost predicate ControlsAnything(nodes: Nodes, role: Edge) {
    exists x :: RolesControl(nodes, role, x)
  }

  /** What a walk that holds where it stands may cross: a role only where it controls something at all. */
  ghost predicate MayCross(nodes: Nodes, e: Edge) {
    || e.relationship == HAS_IDENTITY || e.relationship == CONTAINS || e.relationship == ANOTHER("network_access")
    || e.relationship == MEMBER_OF || e.relationship == CAN_ACT_AS
    || (IsRole(e) && ControlsAnything(nodes, e))
  }

  /** A way of getting anywhere that is not containment, so one somebody can take away. */
  ghost predicate IsGrip(r: Relationship) {
    || r == HAS_IDENTITY || r == GRANTS_ROLE || r == CAN_GRANT_ROLES || r == CAN_TAKE_OVER
    || r == ANOTHER("network_access") || r == MEMBER_OF || r == CAN_ACT_AS
  }

  /** The last link that is no containment. */
  ghost predicate LastGrip(path: Path, j: int) {
    && 0 <= j < |path| && path[j].relationship != CONTAINS
    && forall k :: j < k < |path| ==> path[k].relationship == CONTAINS
  }

  ghost predicate GivesHoldFrom(nodes: Nodes, path: Path, j: int)
    requires 0 <= j < |path|
  {
    exists k :: j <= k < |path| && GivesHold(nodes, path[j], path[k].target)
  }

  /** A path holds its end unless it came down from a role, through nothing but containment, past nothing that role
      controls. */
  ghost predicate Held(nodes: Nodes, path: Path) {
    forall j :: LastGrip(path, j) && IsRole(path[j]) ==> GivesHoldFrom(nodes, path, j)
  }

  ghost predicate MayFollow(g: Graph, start: string, path: Path, e: Edge) {
    && IsLink(g, e) && e.source == EndOf(start, path)
    && (e.relationship == CONTAINS || (Held(g.nodes, path) && MayCross(g.nodes, e)))
  }

  /** Containment may always be followed; anything else only from what is held. */
  ghost predicate Passable(g: Graph, start: string, path: Path) {
    path == [] || (Passable(g, start, path[..|path| - 1])
                   && MayFollow(g, start, path[..|path| - 1], path[|path| - 1]))
  }

  // ---------------------------------------------------------------- lenses

  lemma LensControls(nodes: Nodes, e: Edge, x: Resource)
    ensures Controls(LensAt(nodes, e), x) <==> RolesControl(nodes, e, x)
  {
    if e.source in nodes {
      LensIsEdge(nodes[e.source], e.relationship, e.target, x);
    }
  }

  lemma SomethingControlled(lens: Lens)
    requires !IsEmpty(lens) && forall p :: p in lens.grants ==> p.access in CONTROLLING
    ensures exists x :: Controls(lens, x)
  {
    var p := if lens.everything then Pair(SUBSCRIPTION, READ_DATA) else var p :| p in lens.grants; p;
    var x := Resource("", p.kind, "", map[GOVERNED_BY_OWN_POLICY := Flag(true)]);
    assert p.kind == x.kind && OwnPolicy(x);
    assert Controls(lens, x);
  }

  lemma LensControlsSomething(nodes: Nodes, e: Edge)
    ensures IsEmpty(LensAt(nodes, e)) <==> !ControlsAnything(nodes, e)
  {
    var lens := LensAt(nodes, e);
    if !IsEmpty(lens) {
      SomethingControlled(lens);
      var x :| Controls(lens, x);
      LensControls(nodes, e, x);
    }
    if x :| RolesControl(nodes, e, x) {
      LensControls(nodes, e, x);
    }
  }

  // ---------------------------------------------------------------- one link more

  /** Where a path leaves a walk: at its end, holding it or looking through the lens of the role it came down from. */
  ghost predicate Stands(g: Graph, start: string, path: Path, s: State) {
    && s.node == EndOf(start, path) && (s.lens.None? <==> Held(g.nodes, path))
    && forall j :: LastGrip(path, j) && s.lens.Some? ==> s.lens.value == LensAt(g.nodes, path[j])
  }

  lemma GripStays(path: Path, e: Edge, j: int)
    requires e.relationship == CONTAINS
    ensures LastGrip(path + [e], j) <==> LastGrip(path, j)
  {
    var next := path + [e];
    if LastGrip(next, j) {
      assert forall k :: j < k < |path| ==> path[k] == next[k];
    }
    if LastGrip(path, j) {
      assert forall k :: j < k < |path| ==> path[k] == next[k];
    }
  }

  lemma NewGrip(path: Path, e: Edge, j: int)
    requires e.relationship != CONTAINS
    ensures LastGrip(path + [e], j) <==> j == |path|
  {
    var next := path + [e];
    assert next[|path|] == e;
  }

  lemma HoldBelow(nodes: Nodes, path: Path, e: Edge, j: int)
    requires 0 <= j < |path|
    ensures GivesHoldFrom(nodes, path + [e], j) <==>
              GivesHoldFrom(nodes, path, j) || GivesHold(nodes, path[j], e.target)
  {
    var next := path + [e];
    assert forall k :: 0 <= k < |path| ==> next[k] == path[k];
    if GivesHoldFrom(nodes, path, j) {
      var k :| j <= k < |path| && GivesHold(nodes, path[j], path[k].target);
      assert GivesHold(nodes, next[j], next[k].target);
    }
    if GivesHold(nodes, path[j], e.target) {
      assert GivesHold(nodes, next[j], next[|path|].target);
    }
  }

  lemma HoldAtOnce(nodes: Nodes, path: Path, e: Edge)
    ensures GivesHoldFrom(nodes, path + [e], |path|) <==> GivesHold(nodes, e, e.target)
  {
    var next := path + [e];
    if GivesHold(nodes, e, e.target) {
      assert GivesHold(nodes, next[|path|], next[|path|].target);
    }
  }

  /** Going down from what is held, it stays held. */
  lemma HeldStays(nodes: Nodes, path: Path, e: Edge)
    requires e.relationship == CONTAINS && Held(nodes, path)
    ensures Held(nodes, path + [e])
  {
    forall j | LastGrip(path + [e], j) && IsRole((path + [e])[j])
      ensures GivesHoldFrom(nodes, path + [e], j)
    {
      GripStays(path, e, j);
      HoldBelow(nodes, path, e, j);
    }
  }

  /** Going down below a role, the next asset is held exactly when the role controls it. */
  lemma HeldBelow(nodes: Nodes, path: Path, e: Edge, j: int)
    requires e.relationship == CONTAINS && LastGrip(path, j) && IsRole(path[j]) && !Held(nodes, path)
    ensures Held(nodes, path + [e]) <==> GivesHold(nodes, path[j], e.target)
  {
    forall i
      ensures LastGrip(path + [e], i) <==> i == j
    {
      GripStays(path, e, i);
    }
    HoldBelow(nodes, path, e, j);
  }

  lemma HeldAcross(nodes: Nodes, path: Path, e: Edge)
    requires e.relationship != CONTAINS
    ensures Held(nodes, path + [e]) <==> (IsRole(e) ==> GivesHold(nodes, e, e.target))
  {
    forall i
      ensures LastGrip(path + [e], i) <==> i == |path|
    {
      NewGrip(path, e, i);
    }
    HoldAtOnce(nodes, path, e);
  }

  lemma ArrivesHeld(nodes: Nodes, role: Edge, id: string)
    ensures Arrive(nodes, id, LensAt(nodes, role)) ==
            State(id, if GivesHold(nodes, role, id) then None else Some(LensAt(nodes, role)))
  {
    if id in nodes { LensControls(nodes, role, nodes[id]); }
  }

  lemma Grip(nodes: Nodes, path: Path) returns (j: int)
    requires !Held(nodes, path)
    ensures LastGrip(path, j) && IsRole(path[j]) && !GivesHoldFrom(nodes, path, j)
  {
    j :| LastGrip(path, j) && IsRole(path[j]) && !GivesHoldFrom(nodes, path, j);
  }

  /** Below a role: only containment is taken, and the role's own lens says what it makes held. */
  lemma StepBelow(g: Graph, start: string, path: Path, s: State, link: Link<string>, move: Move<Edge, State>)
    requires Stands(g, start, path, s) && s.lens.Some?
    ensures
      var e := Edge(s.node, link.relationship, link.other);
      move in MoveOver(g.nodes, s, link) <==>
      link.relationship == CONTAINS && move.link == Some(e) && Stands(g, start, path + [e], move.to)
  {
    var e := Edge(s.node, link.relationship, link.other);
    if link.relationship == CONTAINS {
      var j := Grip(g.nodes, path);
      HeldBelow(g.nodes, path, e, j);
      ArrivesHeld(g.nodes, path[j], link.other);
      forall i
        ensures LastGrip(path + [e], i) <==> i == j
      {
        GripStays(path, e, i);
      }
      assert (path + [e])[j] == path[j];
    }
  }

  /** From what is held: over what may be crossed. */
  lemma StepHeld(g: Graph, start: string, path: Path, s: State, link: Link<string>, move: Move<Edge, State>)
    requires Stands(g, start, path, s) && s.lens.None?
    ensures
      var e := Edge(s.node, link.relationship, link.other);
      move in MoveOver(g.nodes, s, link) <==>
      MayCross(g.nodes, e) && move.link == Some(e) && Stands(g, start, path + [e], move.to)
  {
    var e := Edge(s.node, link.relationship, link.other);
    LensControlsSomething(g.nodes, e);
    if link.relationship == CONTAINS {
      HeldStays(g.nodes, path, e);
    } else {
      HeldAcross(g.nodes, path, e);
      ArrivesHeld(g.nodes, e, link.other);
      forall i
        ensures LastGrip(path + [e], i) <==> i == |path|
      {
        NewGrip(path, e, i);
      }
      assert (path + [e])[|path|] == e;
    }
  }

  // ---------------------------------------------------------------- walks and paths

  ghost predicate Follows(walk: seq<Move<Edge, State>>, path: Path) {
    |walk| == |path| && forall i :: 0 <= i < |walk| ==> walk[i].link == Some(path[i])
  }

  lemma StepIs(g: Graph, start: string, path: Path, s: State, e: Edge, to: State)
    requires Stands(g, start, path, s) && e.source == s.node
    ensures Move(Some(e), to) in Taken(g)(s) <==> MayFollow(g, start, path, e) && Stands(g, start, path + [e], to)
  {
    var link, move := Link(e.relationship, e.target), Move(Some(e), to);
    forall l | l in LinksAt(g.out, s.node) && move in MoveOver(g.nodes, s, l)
      ensures l == link
    {
      MoveOverNames(g.nodes, s, l, move);
    }
    if s.lens.Some? {
      StepBelow(g, start, path, s, link, move);
    } else {
      StepHeld(g, start, path, s, link, move);
    }
  }

  lemma StandsSomewhere(g: Graph, start: string, path: Path) returns (s: State)
    ensures Stands(g, start, path, s)
  {
    if Held(g.nodes, path) {
      s := State(EndOf(start, path), None);
    } else {
      var j := Grip(g.nodes, path);
      s := State(EndOf(start, path), Some(LensAt(g.nodes, path[j])));
    }
  }

  /** A walk and the path of its links, and where both end. */
  ghost predicate Tracks(g: Graph, start: string, walk: seq<Move<Edge, State>>, path: Path) {
    && IsWalk(Taken(g), Holding(start), walk) && Follows(walk, path) && Passable(g, start, path)
    && Stands(g, start, path, End(Holding(start), walk))
  }

  lemma FollowsOneMore(walk: seq<Move<Edge, State>>, path: Path, e: Edge, to: State)
    requires Follows(walk, path)
    ensures Follows(walk + [Move(Some(e), to)], path + [e])
  {
  }

  lemma WalkOneMore(g: Graph, start: string, walk: seq<Move<Edge, State>>, move: Move<Edge, State>)
    requires IsWalk(Taken(g), Holding(start), walk) && move in Taken(g)(End(Holding(start), walk))
    ensures IsWalk(Taken(g), Holding(start), walk + [move]) && End(Holding(start), walk + [move]) == move.to
  {
    assert (walk + [move])[..|walk|] == walk;
  }

  lemma PathOneMore(g: Graph, start: string, path: Path, e: Edge)
    ensures Passable(g, start, path + [e]) <==> Passable(g, start, path) && MayFollow(g, start, path, e)
  {
    assert (path + [e])[..|path|] == path;
  }

  lemma TracksOneMore(g: Graph, start: string, walk: seq<Move<Edge, State>>, path: Path, e: Edge, to: State)
    requires Tracks(g, start, walk, path) && MayFollow(g, start, path, e) && Stands(g, start, path + [e], to)
    ensures Tracks(g, start, walk + [Move(Some(e), to)], path + [e])
  {
    StepIs(g, start, path, End(Holding(start), walk), e, to);
    WalkOneMore(g, start, walk, Move(Some(e), to));
    PathOneMore(g, start, path, e);
    FollowsOneMore(walk, path, e, to);
  }

  lemma LinkTaken(g: Graph, s: State, move: Move<Edge, State>) returns (e: Edge)
    requires move in Taken(g)(s)
    ensures e.source == s.node && move == Move(Some(e), move.to)
  {
    var link :| link in LinksAt(g.out, s.node) && move in MoveOver(g.nodes, s, link);
    MoveOverNames(g.nodes, s, link, move);
    e := Edge(s.node, link.relationship, link.other);
  }

  lemma {:induction false} WalkPasses(g: Graph, start: string, walk: seq<Move<Edge, State>>) returns (path: Path)
    requires IsWalk(Taken(g), Holding(start), walk)
    ensures Tracks(g, start, walk, path)
  {
    if walk == [] {
      path := [];
    } else {
      var rest, last := walk[..|walk| - 1], walk[|walk| - 1];
      assert walk == rest + [last];
      var before := WalkPasses(g, start, rest);
      var e := LinkTaken(g, End(Holding(start), rest), last);
      StepIs(g, start, before, End(Holding(start), rest), e, last.to);
      TracksOneMore(g, start, rest, before, e, last.to);
      path := before + [e];
    }
  }

  lemma {:induction false} PathIsWalked(g: Graph, start: string, path: Path) returns (walk: seq<Move<Edge, State>>)
    requires Passable(g, start, path)
    ensures Tracks(g, start, walk, path)
  {
    if path == [] {
      walk := [];
    } else {
      var rest, e := path[..|path| - 1], path[|path| - 1];
      assert path == rest + [e];
      var before := PathIsWalked(g, start, rest);
      var to := StandsSomewhere(g, start, rest + [e]);
      TracksOneMore(g, start, before, rest, e, to);
      walk := before + [Move(Some(e), to)];
    }
  }

  // ---------------------------------------------------------------- reach

  /** The path reaches the node: it holds it, or it is a scope a role landed on. */
  ghost predicate EndsAt(g: Graph, start: string, path: Path, n: string) {
    && EndOf(start, path) == n
    && (Held(g.nodes, path)
        || (n in g.nodes && (g.nodes[n].kind == SUBSCRIPTION || g.nodes[n].kind == RESOURCE_GROUP)))
  }

  ghost predicate PathTo(g: Graph, start: string, bound: nat, path: Path, n: string) {
    |path| <= bound && Passable(g, start, path) && EndsAt(g, start, path, n)
  }

  /** What removing some links takes: each of them, but an escalation over an assigned role with the assignment and
      never by itself. */
  ghost predicate TakenAway(g: Graph, keys: set<Edge>, e: Edge) {
    if e.relationship == CAN_GRANT_ROLES && IsLink(g, Edge(e.source, GRANTS_ROLE, e.target))
    then Edge(e.source, GRANTS_ROLE, e.target) in keys else e in keys
  }

  ghost predicate Spared(g: Graph, keys: set<Edge>, path: Path) {
    forall i :: 0 <= i < |path| ==> !TakenAway(g, keys, path[i])
  }

  ghost predicate SparedPathTo(g: Graph, keys: set<Edge>, start: string, bound: nat, n: string) {
    exists path :: PathTo(g, start, bound, path, n) && Spared(g, keys, path)
  }

  lemma EndIsReached(g: Graph, start: string, path: Path, s: State, n: string)
    requires Stands(g, start, path, s)
    ensures ReachedNode(g.nodes)(s) == Some(n) <==> EndsAt(g, start, path, n)
  {
  }

  lemma SparedIsAvoided(g: Graph, keys: set<Edge>, walk: seq<Move<Edge, State>>, path: Path)
    requires Follows(walk, path)
    ensures NoneGone(Gone(g, keys), walk) <==> Spared(g, keys, path)
  {
    forall i | 0 <= i < |walk|
      ensures Gone(g, keys)(walk[i]) <==> TakenAway(g, keys, path[i])
    {
    }
  }

  /** A node is reached with some links removed exactly when a path within the bound reaches it over none of what that
      takes. */
  lemma ReachIsByPaths(g: Graph, keys: set<Edge>, start: string, bound: nat, n: string)
    ensures StillReached(g, keys, start, bound, n) <==> SparedPathTo(g, keys, start, bound, n)
  {
    if walk :| AvoidsTo(g, keys, start, bound, n, walk) {
      var path := WalkPasses(g, start, walk);
      EndIsReached(g, start, path, End(Holding(start), walk), n);
      SparedIsAvoided(g, keys, walk, path);
      assert PathTo(g, start, bound, path, n);
    }
    if path :| PathTo(g, start, bound, path, n) && Spared(g, keys, path) {
      var walk := PathIsWalked(g, start, path);
      EndIsReached(g, start, path, End(Holding(start), walk), n);
      SparedIsAvoided(g, keys, walk, path);
      assert AvoidsTo(g, keys, start, bound, n, walk);
    }
  }

  ghost predicate SomePathTo(g: Graph, start: string, bound: nat, n: string) {
    exists path :: PathTo(g, start, bound, path, n)
  }

  lemma ReachedByPath(g: Graph, start: string, bound: nat, n: string)
    ensures IsReached(g, start, bound, n) <==> SomePathTo(g, start, bound, n)
  {
    NothingGone(g, start, bound, n);
    ReachIsByPaths(g, {}, start, bound, n);
    if path :| PathTo(g, start, bound, path, n) {
      assert Spared(g, {}, path);
    }
  }

  ghost predicate ShortestPathTo(g: Graph, start: string, bound: nat, path: Path, n: string) {
    && PathTo(g, start, bound, path, n)
    && forall other :: PathTo(g, start, bound, other, n) ==> |path| <= |other|
  }

  ghost predicate RunsOver(g: Graph, start: string, bound: nat, steps: seq<Move<Edge, State>>, n: string) {
    exists path :: Follows(steps, path) && ShortestPathTo(g, start, bound, path, n)
  }

  /** A shortest walk to a node runs over a shortest path to it. */
  lemma ShortestByPath(g: Graph, start: string, bound: nat, steps: seq<Move<Edge, State>>, n: string)
    requires ShortestTo(Taken(g), ReachedNode(g.nodes), Holding(start), bound, n, steps)
    ensures RunsOver(g, start, bound, steps, n)
  {
    var path := WalkPasses(g, start, steps);
    EndIsReached(g, start, path, End(Holding(start), steps), n);
    forall other | PathTo(g, start, bound, other, n)
      ensures |path| <= |other|
    {
      var walk := PathIsWalked(g, start, other);
      EndIsReached(g, start, other, End(Holding(start), walk), n);
      assert Leads(Taken(g), Holding(start), 0, bound, walk, End(Holding(start), walk));
    }
  }

  /** What is left without some links: each link they do not take. */
  lemma CutSpares(g: Graph, keys: set<Edge>, h: Graph, e: Edge)
    requires IsCut(g, keys, h)
    ensures IsLink(h, e) <==> IsLink(g, e) && !TakenAway(g, keys, e)
  {
    var l := Link(e.relationship, e.target);
    assert l in LinksAt(h.out, e.source) <==> l in LinksAt(g.out, e.source) && RemovalKey(g, e) !in keys;
  }

  /** Over one role and then down through containment, a walk holds where it ends exactly when the roles behind that
      link control something on the way that is no scope; otherwise it stands there with a lens that controls what they
      do. */
  lemma DownFromOneRole(g: Graph, walk: seq<Move<Edge, State>>, path: Path)
    requires path != [] && IsRole(path[0]) && forall i :: 1 <= i < |path| ==> path[i].relationship == CONTAINS
    requires IsWalk(Taken(g), Holding(path[0].source), walk) && Follows(walk, path)
    ensures
      var s := walk[|walk| - 1].to;
      && s.node == path[|path| - 1].target
      && (s.lens.None? <==> exists k :: 0 <= k < |path| && GivesHold(g.nodes, path[0], path[k].target))
      && (s.lens.Some? ==> forall x :: Controls(s.lens.value, x) <==> RolesControl(g.nodes, path[0], x))
  {
    var same := WalkPasses(g, path[0].source, walk);
    assert same == path;
    assert LastGrip(path, 0);
    forall j | LastGrip(path, j)
      ensures j == 0
    {
    }
    assert Held(g.nodes, path) <==> GivesHoldFrom(g.nodes, path, 0);
    forall x
      ensures Controls(LensAt(g.nodes, path[0]), x) <==> RolesControl(g.nodes, path[0], x)
    {
      LensControls(g.nodes, path[0], x);
    }
  }
}
