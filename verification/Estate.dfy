/** `estate_map`: the estate through one lens, its assets in boxes and the reach that crosses them counted. */
module Estate {
  import opened Wrappers
  import opened Text
  import opened Lists
  import opened Resources
  import opened Sorting
  import opened Tallies
  import opened Boxes

  datatype Level = LOW | MEDIUM | HIGH | CRITICAL | UNKNOWN

  datatype Asset = Asset(kind: string, name: string, exposure: Level, sensitivity: Level)

  /** The asset graph: its nodes in order, its links, and which of them convey reach. */
  datatype Graph = Graph(ids: seq<string>, nodes: map<string, Asset>, links: seq<Edge>, conveyed: set<Edge>)

  datatype Path = Path(entry: string, target: string, steps: seq<Edge>)

  /** No id twice, and both ends of every link are nodes. */
  ghost predicate Built(g: Graph) {
    && NoRepeats(g.ids)
    && (forall id :: id in g.ids <==> id in g.nodes)
    && (forall i :: 0 <= i < |g.links| ==> g.links[i].source in g.nodes && g.links[i].target in g.nodes)
  }

  function PlacedAt(placements: map<string, Placement>, id: string): Placement {
    if id in placements then placements[id] else Placement(DIRECTORY_SCOPE, None)
  }

  predicate Crosses(g: Graph, e: Edge) {
    e.relationship != CONTAINS && e in g.conveyed
  }

  // ---------------------------------------------------------------- reach

  /** Both ends of every link of reach between two assets. */
  function ReachEnds(g: Graph, links: seq<Edge>): seq<string> {
    if links == [] then []
    else
      var e := links[|links| - 1];
      ReachEnds(g, links[..|links| - 1]) + if e.source != e.target && Crosses(g, e) then [e.source, e.target] else []
  }

  method CountReach(g: Graph) returns (reach: Tally<string>)
    ensures Counted(reach, ReachEnds(g, g.links))
  {
    reach := Tally([], map[]);
    for i := 0 to |g.links|
      invariant Counted(reach, ReachEnds(g, g.links[..i]))
    {
      var e := g.links[i];
      ghost var before := ReachEnds(g, g.links[..i]);
      assert g.links[..i + 1][..i] == g.links[..i];
      if e.source != e.target && Crosses(g, e) {
        reach := Bump(reach, e.source, before);
        reach := Bump(reach, e.target, before + [e.source]);
        assert before + [e.source] + [e.target] == before + [e.source, e.target];
      }
    }
    assert g.links[..|g.links|] == g.links;
  }

  // ---------------------------------------------------------------- which assets are drawn

  function NodeIds(path: Path): set<string> {
    {path.entry, path.target} + (set e | e in path.steps :: e.source) + (set e | e in path.steps :: e.target)
  }

  function RoutedNodes(paths: seq<Path>): set<string> {
    set p, id | p in paths && id in NodeIds(p) :: id
  }

  function OnRoute(paths: seq<Path>): set<Edge> {
    set p, e | p in paths && e in p.steps :: e
  }

  predicate Notable(a: Asset) {
    a.exposure == HIGH || a.exposure == CRITICAL || a.sensitivity == HIGH || a.sensitivity == CRITICAL
  }

  /** What assets are drawn by: what matters on a route, then what a route runs through, then how much reach. */
  datatype Rank = Rank(common: bool, offRoute: bool, reach: nat, kind: string, name: string, id: string)

  function RankOf(nodes: map<string, Asset>, routed: set<string>, reach: map<string, nat>, id: string): Rank {
    if id in nodes then
      Rank(!Notable(nodes[id]), id !in routed, if id in reach then reach[id] else 0, nodes[id].kind, nodes[id].name, id)
    else Rank(true, true, 0, "", "", id)
  }

  /** The order of the tuples the ranks are compared as. */
  predicate RankLe(a: Rank, b: Rank) {
    if a.common != b.common then b.common
    else if a.offRoute != b.offRoute then b.offRoute
    else if a.reach != b.reach then a.reach > b.reach
    else if a.kind != b.kind then TextLe(a.kind, b.kind)
    else if a.name != b.name then TextLe(a.name, b.name)
    else TextLe(a.id, b.id)
  }

  lemma RankLeTotal(a: Rank, b: Rank)
    ensures RankLe(a, b) || RankLe(b, a)
    ensures RankLe(a, b) && RankLe(b, a) ==> a == b
  {
    TextLeTotal(a.kind, b.kind);
    TextLeTotal(a.name, b.name);
    TextLeTotal(a.id, b.id);
  }

  lemma RankLeTransitive(a: Rank, b: Rank, c: Rank)
    requires RankLe(a, b) && RankLe(b, c)
    ensures RankLe(a, c)
  {
    TextLeTotal(a.kind, b.kind);
    TextLeTotal(b.kind, c.kind);
    TextLeTotal(a.name, b.name);
    TextLeTotal(b.name, c.name);
    if TextLe(a.kind, b.kind) && TextLe(b.kind, c.kind) { TextLeTransitive(a.kind, b.kind, c.kind); }
    if TextLe(a.name, b.name) && TextLe(b.name, c.name) { TextLeTransitive(a.name, b.name, c.name); }
    if TextLe(a.id, b.id) && TextLe(b.id, c.id) { TextLeTransitive(a.id, b.id, c.id); }
  }

  function Ranking(nodes: map<string, Asset>, routed: set<string>, reach: map<string, nat>): Order<string> {
    (a, b) => RankLe(RankOf(nodes, routed, reach, a), RankOf(nodes, routed, reach, b))
  }

  lemma RankingIsOrder(nodes: map<string, Asset>, routed: set<string>, reach: map<string, nat>)
    ensures IsOrder(Ranking(nodes, routed, reach))
  {
    var le := Ranking(nodes, routed, reach);
    forall a, b
      ensures le(a, b) || le(b, a)
    {
      RankLeTotal(RankOf(nodes, routed, reach, a), RankOf(nodes, routed, reach, b));
    }
    forall a, b, c | le(a, b) && le(b, c)
      ensures le(a, c)
    {
      RankLeTransitive(RankOf(nodes, routed, reach, a), RankOf(nodes, routed, reach, b),
                       RankOf(nodes, routed, reach, c));
    }
  }

  predicate IsCandidate(lens: EstateLens, p: Placement, id: string) {
    Inside(lens, p) && Coarse(lens, p, id) == AssetBox(id)
  }

  /** The opened assets that would be boxes of their own. */
  function Candidates(ids: seq<string>, placements: map<string, Placement>, lens: EstateLens): (r: seq<string>)
    ensures forall id :: id in r <==> id in ids && IsCandidate(lens, PlacedAt(placements, id), id)
    ensures NoRepeats(ids) ==> NoRepeats(r)
  {
    if ids == [] then []
    else
      var last := ids[|ids| - 1];
      Candidates(ids[..|ids| - 1], placements, lens)
      + if IsCandidate(lens, PlacedAt(placements, last), last) then [last] else []
  }

  /** The assets with something to show: notable, on a route, or with reach. */
  function Showable(ids: seq<string>, nodes: map<string, Asset>, routed: set<string>,
                    reach: map<string, nat>): (r: seq<string>)
    ensures forall id :: id in r <==> id in ids && HasSomething(nodes, routed, reach, id)
    ensures NoRepeats(ids) ==> NoRepeats(r)
  {
    if ids == [] then []
    else
      var last := ids[|ids| - 1];
      Showable(ids[..|ids| - 1], nodes, routed, reach) + if HasSomething(nodes, routed, reach, last) then [last] else []
  }

  predicate HasSomething(nodes: map<string, Asset>, routed: set<string>, reach: map<string, nat>, id: string) {
    (id in nodes && Notable(nodes[id])) || id in routed || (id in reach && reach[id] > 0)
  }

  // ---------------------------------------------------------------- the boxes

  /** The ids drawn in one box, in the graph's order. */
  function InBox<K(!new, ==), B(==)>(ids: seq<K>, boxOf: map<K, B>, box: B): (r: seq<K>)
    ensures forall id :: id in r <==> id in ids && id in boxOf && boxOf[id] == box
    ensures NoRepeats(ids) ==> NoRepeats(r)
  {
    if ids == [] then []
    else
      var last := ids[|ids| - 1];
      InBox(ids[..|ids| - 1], boxOf, box) + if last in boxOf && boxOf[last] == box then [last] else []
  }

  ghost predicate BoxesEach(ids: seq<string>, placements: map<string, Placement>, lens: EstateLens, drawn: seq<string>,
                            boxOf: map<string, Box>) {
    && (forall id :: id in boxOf <==> id in ids)
    && (forall id :: id in boxOf ==> boxOf[id] == BoxOf(lens, PlacedAt(placements, id), id, id in drawn))
  }

  method BoxEach(ids: seq<string>, placements: map<string, Placement>, lens: EstateLens, drawn: seq<string>)
    returns (boxOf: map<string, Box>)
    ensures BoxesEach(ids, placements, lens, drawn, boxOf)
  {
    boxOf := map[];
    for i := 0 to |ids|
      invariant BoxesEach(ids[..i], placements, lens, drawn, boxOf)
    {
      assert ids[..i + 1] == ids[..i] + [ids[i]];
      var box := Coarse(lens, PlacedAt(placements, ids[i]), ids[i]);
      boxOf := boxOf[ids[i] := if box.AssetBox? && ids[i] !in drawn then FoldBox else box];
    }
    assert ids[..|ids|] == ids;
  }

  ghost predicate MembersAre<K(!new), B(!new)>(ids: seq<K>, boxOf: map<K, B>, members: map<B, seq<K>>) {
    forall box :: (if box in members then members[box] else []) == InBox(ids, boxOf, box)
  }

  function WithMember<K, B>(members: map<B, seq<K>>, box: B, id: K): map<B, seq<K>> {
    members[box := (if box in members then members[box] else []) + [id]]
  }

  method Members<K(!new, ==), B(!new, ==)>(ids: seq<K>, boxOf: map<K, B>) returns (members: map<B, seq<K>>)
    requires forall i :: 0 <= i < |ids| ==> ids[i] in boxOf
    ensures MembersAre(ids, boxOf, members)
  {
    members := map[];
    for i := 0 to |ids|
      invariant MembersAre(ids[..i], boxOf, members)
    {
      assert ids[..i + 1] == ids[..i] + [ids[i]];
      MemberOneMore(ids[..i], boxOf, members, ids[i]);
      members := WithMember(members, boxOf[ids[i]], ids[i]);
    }
    assert ids[..|ids|] == ids;
  }

  lemma MemberOneMore<K(!new), B(!new)>(ids: seq<K>, boxOf: map<K, B>, members: map<B, seq<K>>, id: K)
    requires MembersAre(ids, boxOf, members) && id in boxOf
    ensures MembersAre(ids + [id], boxOf, WithMember(members, boxOf[id], id))
  {
    assert (ids + [id])[..|ids|] == ids;
  }

  // ---------------------------------------------------------------- the links between boxes

  datatype Crossing = Crossing(source: Box, target: Box, relationship: Relationship)

  /** A link between two boxes, one of them opened: reach, or containment that a route runs along. */
  predicate Qualifies(g: Graph, onRoute: set<Edge>, boxOf: map<string, Box>, openBoxes: set<Box>, e: Edge) {
    && e.source in boxOf && e.target in boxOf && boxOf[e.source] != boxOf[e.target]
    && (boxOf[e.source] in openBoxes || boxOf[e.target] in openBoxes)
    && (Crosses(g, e) || (e.relationship == CONTAINS && e in onRoute))
  }

  function Between(boxOf: map<string, Box>, e: Edge): Crossing
    requires e.source in boxOf && e.target in boxOf
  {
    Crossing(boxOf[e.source], boxOf[e.target], e.relationship)
  }

  function Crossings(g: Graph, links: seq<Edge>, onRoute: set<Edge>, boxOf: map<string, Box>,
                     openBoxes: set<Box>): seq<Crossing> {
    if links == [] then []
    else
      var last := links[|links| - 1];
      Crossings(g, links[..|links| - 1], onRoute, boxOf, openBoxes)
      + if Qualifies(g, onRoute, boxOf, openBoxes, last) then [Between(boxOf, last)] else []
  }

  method CountCrossings(g: Graph, onRoute: set<Edge>, boxOf: map<string, Box>, openBoxes: set<Box>)
    returns (counted: Tally<Crossing>)
    requires forall i :: 0 <= i < |g.links| ==> g.links[i].source in boxOf && g.links[i].target in boxOf
    ensures Counted(counted, Crossings(g, g.links, onRoute, boxOf, openBoxes))
  {
    counted := Tally([], map[]);
    for i := 0 to |g.links|
      invariant Counted(counted, Crossings(g, g.links[..i], onRoute, boxOf, openBoxes))
    {
      var e := g.links[i];
      assert g.links[..i + 1][..i] == g.links[..i];
      var a, b := boxOf[e.source], boxOf[e.target];
      if a == b || (a !in openBoxes && b !in openBoxes) {
        continue;
      }
      if !Crosses(g, e) && !(e.relationship == CONTAINS && e in onRoute) {
        continue;
      }
      counted := Bump(counted, Crossing(a, b, e.relationship), Crossings(g, g.links[..i], onRoute, boxOf, openBoxes));
    }
    assert g.links[..|g.links|] == g.links;
  }
}
