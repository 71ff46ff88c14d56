/** What the estate map shows, said of the assets, their placements, the links and the paths alone. */
module EstateMeanings {
  import opened Wrappers
  import opened Text
  import opened Lists
  import opened Resources
  import opened Sorting
  import opened Tallies
  import opened Boxes
  import opened Estate
  import opened EstateListing
  import opened EstateMaps
  import opened EstateLaws
  import opened EstateRoutes

  // ---------------------------------------------------------------- where an asset is drawn

  ghost function ScopeOf(placements: map<string, Placement>, id: string): string {
    if id in placements then placements[id].scope else "directory"
  }

  /** The resource group of an asset, whatever its case; "" for one directly in its scope. */
  ghost function GroupOf(placements: map<string, Placement>, id: string): string {
    if id in placements && placements[id].group.Some? then Lower(placements[id].group.value) else ""
  }

  /** The group a lens opens; "" for what sits directly in its scope. */
  ghost function OpenedGroup(lens: EstateLens): string {
    if lens.group.Some? then Lower(lens.group.value) else ""
  }

  /** The box of an asset, folded where it would be drawn and is not. */
  ghost function BoxMeant(placements: map<string, Placement>, lens: EstateLens, id: string, drawn: bool): Box {
    var scope, group := ScopeOf(placements, id), GroupOf(placements, id);
    if lens.scope != Some(scope) then ScopeBox(scope)
    else if group != OpenedGroup(lens) then GroupBox(scope, group)
    else if drawn then AssetBox(id) else FoldBox
  }

  /** The asset is in the scope and group the lens names. */
  ghost predicate IsInside(placements: map<string, Placement>, lens: EstateLens, id: string) {
    || lens.scope == None
    || (lens.scope == Some(ScopeOf(placements, id))
        && (lens.group == None || GroupOf(placements, id) == OpenedGroup(lens)))
  }

  /** It would be a box of its own: in the group opened, or directly in a scope opened whole. */
  ghost predicate StandsAlone(placements: map<string, Placement>, lens: EstateLens, id: string) {
    lens.scope == Some(ScopeOf(placements, id)) && GroupOf(placements, id) == OpenedGroup(lens)
  }

  lemma PlacementMeans(placements: map<string, Placement>, lens: EstateLens, id: string, drawn: bool)
    ensures
      var p := PlacedAt(placements, id);
      && BoxOf(lens, p, id, drawn) == BoxMeant(placements, lens, id, drawn)
      && (Inside(lens, p) <==> IsInside(placements, lens, id))
      && (IsCandidate(lens, p, id) <==> StandsAlone(placements, lens, id))
  {
    var p := PlacedAt(placements, id);
    assert Lower("") == "";
    assert p.scope == ScopeOf(placements, id) && Lower(GroupName(p.group)) == GroupOf(placements, id);
    assert |Lower(GroupName(p.group))| == |GroupName(p.group)|;
    assert Lower(GroupName(lens.group)) == OpenedGroup(lens);
  }

  /** Under a lens on a scope, everything elsewhere is in its scope's box; what sits in the group opened, or directly in
      a scope opened whole, is drawn or folded; and every other group is a box. An opened box is one in the scope and
      group the lens names. */
  lemma WhereEachAssetIs(g: Graph, placements: map<string, Placement>, lens: EstateLens, paths: seq<Path>, most: nat,
                         m: EstateMap, id: string)
    requires Built(g) && IsMap(g, placements, lens, paths, most, m) && id in g.nodes
    ensures id in m.boxOf && m.boxOf[id] == BoxMeant(placements, lens, id, id in m.drawn)
    ensures m.boxOf[id] in m.openBoxes <==> IsInside(placements, lens, id)
  {
    BoxOfIs(g, placements, lens, m, id);
    OpenBoxesHoldTheInside(g, placements, lens, paths, most, m, id);
    PlacementMeans(placements, lens, id, id in m.drawn);
  }

  // ---------------------------------------------------------------- reach

  /** The link conveys reach between two assets, one of them this one. */
  ghost predicate Touching(g: Graph, id: string, e: Edge) {
    && e.relationship != CONTAINS && e in g.conveyed && e.source != e.target && (e.source == id || e.target == id)
  }

  ghost function NumberTouching(g: Graph, links: seq<Edge>, id: string): nat {
    if links == [] then 0
    else NumberTouching(g, links[..|links| - 1], id) + if Touching(g, id, links[|links| - 1]) then 1 else 0
  }

  lemma {:induction false} EndsTouch(g: Graph, links: seq<Edge>, id: string)
    ensures multiset(ReachEnds(g, links))[id] == NumberTouching(g, links, id)
  {
    if links != [] {
      EndsTouch(g, links[..|links| - 1], id);
    }
  }

  /** An asset's reach is the number of links of reach between it and another. */
  lemma ReachIsLinks(g: Graph, placements: map<string, Placement>, lens: EstateLens, paths: seq<Path>, most: nat,
                     m: EstateMap, id: string)
    requires IsMap(g, placements, lens, paths, most, m)
    ensures CountAt(m.reach, id) == NumberTouching(g, g.links, id)
  {
    EndsTouch(g, g.links, id);
    assert CountAt(m.reach, id) == multiset(ReachEnds(g, g.links))[id];
  }

  // ---------------------------------------------------------------- which assets are drawn

  /** A way in or something worth taking. */
  ghost predicate Matters(a: Asset) {
    a.exposure in {HIGH, CRITICAL} || a.sensitivity in {HIGH, CRITICAL}
  }

  ghost predicate OnPath(p: Path, id: string) {
    id == p.entry || id == p.target || exists e :: e in p.steps && (e.source == id || e.target == id)
  }

  ghost predicate OnAnyPath(paths: seq<Path>, id: string) {
    exists p :: p in paths && OnPath(p, id)
  }

  lemma OnPathIs(p: Path, id: string)
    ensures OnPath(p, id) <==> id in NodeIds(p)
  {
  }

  lemma OnAnyPathIs(paths: seq<Path>, id: string)
    ensures OnAnyPath(paths, id) <==> id in RoutedNodes(paths)
  {
    if p :| p in paths && OnPath(p, id) {
      OnPathIs(p, id);
    }
    if p :| p in paths && id in NodeIds(p) {
      OnPathIs(p, id);
    }
  }

  /** It would be drawn by itself if there were room: opened, with something to show. */
  ghost predicate MayBeDrawn(g: Graph, placements: map<string, Placement>, lens: EstateLens, paths: seq<Path>,
                             id: string) {
    && id in g.nodes && StandsAlone(placements, lens, id)
    && (Matters(g.nodes[id]) || OnAnyPath(paths, id) || NumberTouching(g, g.links, id) > 0)
  }

  /** What comes before what: what matters, then what is on a path, then more reach, then by kind, name and id. */
  ghost predicate ComesBefore(g: Graph, paths: seq<Path>, a: string, b: string)
    requires a in g.nodes && b in g.nodes
  {
    var x, y := g.nodes[a], g.nodes[b];
    if Matters(x) != Matters(y) then Matters(x)
    else if OnAnyPath(paths, a) != OnAnyPath(paths, b) then OnAnyPath(paths, a)
    else if NumberTouching(g, g.links, a) != NumberTouching(g, g.links, b) then
      NumberTouching(g, g.links, a) > NumberTouching(g, g.links, b)
    else if x.kind != y.kind then TextLe(x.kind, y.kind)
    else if x.name != y.name then TextLe(x.name, y.name)
    else TextLe(a, b)
  }

  lemma CandidatesMay(g: Graph, placements: map<string, Placement>, lens: EstateLens, paths: seq<Path>, most: nat,
                      m: EstateMap, id: string)
    requires Built(g) && IsMap(g, placements, lens, paths, most, m)
    ensures MayBeDrawn(g, placements, lens, paths, id) <==>
            id in Showable(Candidates(g.ids, placements, lens), g.nodes, RoutedNodes(paths), m.reach.count)
  {
    ReachIsLinks(g, placements, lens, paths, most, m, id);
    MayBeShown(g, placements, lens, paths, m.reach.count, id);
  }

  lemma MayBeShown(g: Graph, placements: map<string, Placement>, lens: EstateLens, paths: seq<Path>,
                   reach: map<string, nat>, id: string)
    requires Built(g) && (if id in reach then reach[id] else 0) == NumberTouching(g, g.links, id)
    ensures MayBeDrawn(g, placements, lens, paths, id) <==>
            id in Showable(Candidates(g.ids, placements, lens), g.nodes, RoutedNodes(paths), reach)
  {
    PlacementMeans(placements, lens, id, true);
    OnAnyPathIs(paths, id);
    assert id in g.ids <==> id in g.nodes;
    assert id in g.nodes ==> (Matters(g.nodes[id]) <==> Notable(g.nodes[id]));
  }

  lemma RankedBefore(g: Graph, paths: seq<Path>, reach: map<string, nat>, a: string, b: string)
    requires a in g.nodes && b in g.nodes
    requires (if a in reach then reach[a] else 0) == NumberTouching(g, g.links, a)
    requires (if b in reach then reach[b] else 0) == NumberTouching(g, g.links, b)
    ensures Ranking(g.nodes, RoutedNodes(paths), reach)(a, b) <==> ComesBefore(g, paths, a, b)
  {
    OnAnyPathIs(paths, a);
    OnAnyPathIs(paths, b);
  }

  lemma RankingIsBefore(g: Graph, placements: map<string, Placement>, lens: EstateLens, paths: seq<Path>, most: nat,
                        m: EstateMap, a: string, b: string)
    requires IsMap(g, placements, lens, paths, most, m) && a in g.nodes && b in g.nodes
    ensures Ranking(g.nodes, RoutedNodes(paths), m.reach.count)(a, b) <==> ComesBefore(g, paths, a, b)
  {
    ReachIsLinks(g, placements, lens, paths, most, m, a);
    ReachIsLinks(g, placements, lens, paths, most, m, b);
    RankedBefore(g, paths, m.reach.count, a, b);
  }

  /** Drawn are the first so many of those with something to show. */
  lemma DrawnAreTheFirst(g: Graph, placements: map<string, Placement>, lens: EstateLens, paths: seq<Path>, most: nat,
                         m: EstateMap, drawn: string, other: string)
    requires Built(g) && IsMap(g, placements, lens, paths, most, m)
    ensures |m.drawn| <= most
    ensures drawn in m.drawn ==> MayBeDrawn(g, placements, lens, paths, drawn)
    ensures other !in m.drawn && MayBeDrawn(g, placements, lens, paths, other) ==>
              |m.drawn| == most && (drawn in m.drawn ==> ComesBefore(g, paths, drawn, other))
  {
    var routed, reach := RoutedNodes(paths), m.reach.count;
    var le, showable := Ranking(g.nodes, routed, reach),
                        Showable(Candidates(g.ids, placements, lens), g.nodes, routed, reach);
    RankingIsOrder(g.nodes, routed, reach);
    FirstAreFirst(le, showable, most, drawn, other);
    CandidatesMay(g, placements, lens, paths, most, m, drawn);
    CandidatesMay(g, placements, lens, paths, most, m, other);
    if drawn in m.drawn && other !in m.drawn && MayBeDrawn(g, placements, lens, paths, other) {
      RankingIsBefore(g, placements, lens, paths, most, m, drawn, other);
    }
  }

  /** The folded assets with reach are those of the fold. */
  ghost predicate FoldedThere(g: Graph, m: EstateMap, id: string) {
    id in m.boxOf && m.boxOf[id] == FoldBox && NumberTouching(g, g.links, id) > 0
  }

  lemma {:induction false} FoldedReachOnce(candidates: seq<string>, drawn: seq<string>, reach: map<string, nat>)
    requires NoRepeats(candidates)
    ensures NoRepeats(FoldedReach(candidates, drawn, reach))
  {
    if candidates != [] {
      var rest, last := candidates[..|candidates| - 1], candidates[|candidates| - 1];
      assert candidates == rest + [last];
      OneApart(rest, last);
      FoldedReachOnce(rest, drawn, reach);
      OneApart(FoldedReach(rest, drawn, reach), last);
    }
  }

  lemma FoldedReachIs(g: Graph, placements: map<string, Placement>, lens: EstateLens, paths: seq<Path>, most: nat,
                      m: EstateMap, id: string)
    requires Built(g) && IsMap(g, placements, lens, paths, most, m)
    ensures id in FoldedReach(Candidates(g.ids, placements, lens), m.drawn, m.reach.count) <==> FoldedThere(g, m, id)
  {
    ReachIsLinks(g, placements, lens, paths, most, m, id);
    FoldedIs(g.ids, placements, lens, m.drawn, m.reach.count, id);
    IsBoxedAt(g, placements, lens, m, id);
  }

  lemma FoldedIs(ids: seq<string>, placements: map<string, Placement>, lens: EstateLens, drawn: seq<string>,
                 reach: map<string, nat>, id: string)
    ensures id in FoldedReach(Candidates(ids, placements, lens), drawn, reach) <==>
            && id in ids && BoxMeant(placements, lens, id, id in drawn) == FoldBox
            && (if id in reach then reach[id] else 0) > 0
  {
    PlacementMeans(placements, lens, id, id in drawn);
  }

  lemma IsBoxedAt(g: Graph, placements: map<string, Placement>, lens: EstateLens, m: EstateMap, id: string)
    requires Built(g) && IsBoxed(g, placements, lens, m)
    ensures id in m.boxOf <==> id in g.ids
    ensures id in g.ids ==> m.boxOf[id] == BoxMeant(placements, lens, id, id in m.drawn)
  {
    if id in g.ids {
      BoxOfIs(g, placements, lens, m, id);
      PlacementMeans(placements, lens, id, id in m.drawn);
    }
  }

  lemma FoldedReachIsCounted(g: Graph, placements: map<string, Placement>, lens: EstateLens, paths: seq<Path>,
                             most: nat, m: EstateMap)
    requires Built(g) && IsMap(g, placements, lens, paths, most, m)
    ensures m.foldedWithReach == |set id | id in m.boxOf && FoldedThere(g, m, id)|
  {
    var candidates := Candidates(g.ids, placements, lens);
    var folded := FoldedReach(candidates, m.drawn, m.reach.count);
    FoldedReachOnce(candidates, m.drawn, m.reach.count);
    forall id
      ensures id in folded <==> FoldedThere(g, m, id)
    {
      FoldedReachIs(g, placements, lens, paths, most, m, id);
    }
    AsMany(folded, set id | id in m.boxOf && FoldedThere(g, m, id));
  }

  // ---------------------------------------------------------------- paths through boxes

  ghost predicate Through(m: EstateMap, p: Path, box: Box) {
    exists id :: OnPath(p, id) && id in m.boxOf && m.boxOf[id] == box
  }

  ghost predicate ThroughOpened(m: EstateMap, p: Path) {
    exists id :: OnPath(p, id) && id in m.boxOf && m.boxOf[id] in m.openBoxes
  }

  /** How many of the paths run through a box, of those that run through what the lens opened. */
  ghost function NumberThrough(m: EstateMap, paths: seq<Path>, box: Box): nat {
    if paths == [] then 0
    else
      var last := paths[|paths| - 1];
      NumberThrough(m, paths[..|paths| - 1], box) + if ThroughOpened(m, last) && Through(m, last, box) then 1 else 0
  }

  ghost function NumberThroughOpened(m: EstateMap, paths: seq<Path>): nat {
    if paths == [] then 0
    else NumberThroughOpened(m, paths[..|paths| - 1]) + if ThroughOpened(m, paths[|paths| - 1]) then 1 else 0
  }

  lemma ThroughIs(m: EstateMap, p: Path, box: Box)
    ensures Through(m, p, box) <==> box in BoxesOn(m.boxOf, p)
    ensures ThroughOpened(m, p) <==> Touches(m.boxOf, m.openBoxes, p)
  {
    forall id
      ensures OnPath(p, id) <==> id in NodeIds(p)
    {
      OnPathIs(p, id);
    }
    if ThroughOpened(m, p) {
      var id :| OnPath(p, id) && id in m.boxOf && m.boxOf[id] in m.openBoxes;
      assert m.boxOf[id] in BoxesOn(m.boxOf, p) * m.openBoxes;
    }
    if Touches(m.boxOf, m.openBoxes, p) {
      var b :| b in BoxesOn(m.boxOf, p) * m.openBoxes;
    }
  }

  lemma {:induction false} ThroughAreCounted(m: EstateMap, paths: seq<Path>, box: Box)
    ensures HowMany(paths, PassesAt(m.boxOf, m.openBoxes, box)) == NumberThrough(m, paths, box)
    ensures HowMany(paths, TouchesAt(m.boxOf, m.openBoxes)) == NumberThroughOpened(m, paths)
  {
    if paths != [] {
      ThroughAreCounted(m, paths[..|paths| - 1], box);
      ThroughIs(m, paths[|paths| - 1], box);
    }
  }

  /** Each box shown with the number of paths through it that run through what the lens opened, where there are any; and
      the number of all that do. */
  lemma RoutesArePaths(g: Graph, placements: map<string, Placement>, lens: EstateLens, paths: seq<Path>, most: nat,
                       m: EstateMap, box: Box)
    requires IsMap(g, placements, lens, paths, most, m)
    ensures box in m.routes <==> box in m.rows && NumberThrough(m, paths, box) > 0
    ensures box in m.routes ==> m.routes[box] == NumberThrough(m, paths, box)
    ensures m.routesTotal == NumberThroughOpened(m, paths)
  {
    ThroughAreCounted(m, paths, box);
  }

  // ---------------------------------------------------------------- what is shown, and in what order

  /** A box has a row exactly when the lens opened something in it or some link runs to or from it. */
  lemma ShownBoxes(g: Graph, placements: map<string, Placement>, lens: EstateLens, paths: seq<Path>, most: nat,
                   m: EstateMap, box: Box)
    requires IsMap(g, placements, lens, paths, most, m)
    ensures box in m.rows <==>
            box in m.openBoxes || (exists b :: Linked(g, paths, m, box, b)) || exists a :: Linked(g, paths, m, a, box)
  {
    forall a, b, r
      ensures Crossing(a, b, r) in m.counted.keys <==> NumberOf(g, paths, m, g.links, a, b, r) > 0
    {
      EdgesCountTheLinks(g, placements, lens, paths, most, m, a, b, r);
    }
    ShownEnds(g, paths, m, box);
    assert box in m.rows <==> box in Shown(m.openBoxes, m.counted);
  }

  ghost predicate Linked(g: Graph, paths: seq<Path>, m: EstateMap, a: Box, b: Box) {
    exists r :: NumberOf(g, paths, m, g.links, a, b, r) > 0
  }

  lemma ShownEnds(g: Graph, paths: seq<Path>, m: EstateMap, box: Box)
    requires forall a, b, r {:trigger NumberOf(g, paths, m, g.links, a, b, r)} ::
               Crossing(a, b, r) in m.counted.keys <==> NumberOf(g, paths, m, g.links, a, b, r) > 0
    ensures box in Shown(m.openBoxes, m.counted) <==>
            box in m.openBoxes || (exists b :: Linked(g, paths, m, box, b)) || exists a :: Linked(g, paths, m, a, box)
  {
    if box in Shown(m.openBoxes, m.counted) && box !in m.openBoxes {
      var c :| c in m.counted.keys && (c.source == box || c.target == box);
      assert c == Crossing(c.source, c.target, c.relationship);
      assert NumberOf(g, paths, m, g.links, c.source, c.target, c.relationship) > 0;
      assert Linked(g, paths, m, c.source, c.target);
    }
    if b :| Linked(g, paths, m, box, b) {
      var r :| NumberOf(g, paths, m, g.links, box, b, r) > 0;
      assert Crossing(box, b, r) in m.counted.keys;
    }
    if a :| Linked(g, paths, m, a, box) {
      var r :| NumberOf(g, paths, m, g.links, a, box, r) > 0;
      assert Crossing(a, box, r) in m.counted.keys;
    }
  }

  /** A row says where its first member is, by id, and no group where the box is a whole scope; and it is inside where
      the lens opened its box. */
  lemma RowsSay(g: Graph, placements: map<string, Placement>, lens: EstateLens, paths: seq<Path>, most: nat,
                m: EstateMap, box: Box)
    requires IsMap(g, placements, lens, paths, most, m) && box in m.rows
    ensures
      var row := m.rows[box];
      && row.members != [] && row.scope == ScopeOf(placements, row.members[0])
      && (row.inside <==> box in m.openBoxes)
      && row.group == if box.ScopeBox? || row.members[0] !in placements then None
                      else placements[row.members[0]].group
  {
    assert RowFor(g.ids, placements, m.boxOf, m.openBoxes, box, m.rows[box]);
  }

  /** Edges come in the order of the ids of where they start, then of where they end; members by their own ids. */
  lemma ListedByIds(g: Graph, placements: map<string, Placement>, lens: EstateLens, paths: seq<Path>, most: nat,
                    m: EstateMap, i: nat, j: nat)
    requires IsMap(g, placements, lens, paths, most, m)
    ensures i < j < |m.edges| ==>
              && TextLe(BoxText(m.edges[i].source), BoxText(m.edges[j].source))
              && (BoxText(m.edges[i].source) == BoxText(m.edges[j].source) ==>
                    TextLe(BoxText(m.edges[i].target), BoxText(m.edges[j].target)))
    ensures forall box :: box in m.rows && i < j < |m.rows[box].members| ==>
              TextLe(m.rows[box].members[i], m.rows[box].members[j])
  {
    if i < j < |m.edges| {
      TextLeTotal(BoxText(m.edges[i].source), BoxText(m.edges[i].source));
      TextLeTotal(BoxText(m.edges[i].target), BoxText(m.edges[i].target));
      assert ByKey(CrossingKey)(m.edges[i], m.edges[j]);
      FirstTexts(CrossingKey(m.edges[i]), CrossingKey(m.edges[j]));
    }
    forall box | box in m.rows && i < j < |m.rows[box].members|
      ensures TextLe(m.rows[box].members[i], m.rows[box].members[j])
    {
      assert RowFor(g.ids, placements, m.boxOf, m.openBoxes, box, m.rows[box]);
      TextOrderIsOrder();
      SortIsSorted(TextOrder(), InBox(g.ids, m.boxOf, box));
    }
  }

  lemma FirstTexts(a: seq<string>, b: seq<string>)
    requires |a| >= 2 && |b| >= 2 && TextsLe(a, b)
    requires TextLe(a[0], a[0]) && TextLe(a[1], a[1])
    ensures TextLe(a[0], b[0]) && (a[0] == b[0] ==> TextLe(a[1], b[1]))
  {
    assert a[1..][0] == a[1] && b[1..][0] == b[1];
  }
}
