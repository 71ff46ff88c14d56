/** What holds of the estate map under every lens. */
module EstateLaws {
  import opened Lists
  import opened Resources
  import opened Sorting
  import opened Tallies
  import opened Boxes
  import opened Estate
  import opened EstateListing
  import opened EstateMaps
  import opened EstateRoutes

  /** Every asset is in one box, and where that box is shown it is listed there once and nowhere else. */
  lemma EachAssetInOneBox(g: Graph, placements: map<string, Placement>, lens: EstateLens, paths: seq<Path>, most: nat,
                          m: EstateMap, id: string, box: Box)
    requires Built(g) && IsMap(g, placements, lens, paths, most, m) && id in g.nodes && box in m.rows
    ensures id in m.boxOf
    ensures id in m.rows[box].members <==> m.boxOf[id] == box
    ensures multiset(m.rows[box].members)[id] == if m.boxOf[id] == box then 1 else 0
  {
    assert id in g.ids;
    var here, row := InBox(g.ids, m.boxOf, box), m.rows[box];
    assert RowFor(g.ids, placements, m.boxOf, m.openBoxes, box, row);
    SameItems(here, row.members);
    OnceEach(here, id);
  }

  lemma BoxOfIs(g: Graph, placements: map<string, Placement>, lens: EstateLens, m: EstateMap, id: string)
    requires Built(g) && IsBoxed(g, placements, lens, m) && id in g.nodes
    ensures id in m.boxOf && m.boxOf[id] == BoxOf(lens, PlacedAt(placements, id), id, id in m.drawn)
  {
    assert id in g.ids;
  }

  /** The boxes the lens opened hold exactly the assets inside it. */
  lemma OpenBoxesHoldTheInside(g: Graph, placements: map<string, Placement>, lens: EstateLens, paths: seq<Path>,
                               most: nat, m: EstateMap, id: string)
    requires Built(g) && IsMap(g, placements, lens, paths, most, m) && id in g.nodes
    ensures id in m.boxOf && (m.boxOf[id] in m.openBoxes <==> Inside(lens, PlacedAt(placements, id)))
    ensures Inside(lens, PlacedAt(placements, id)) ==> m.boxOf[id] in m.rows && m.rows[m.boxOf[id]].inside
  {
    BoxOfIs(g, placements, lens, m, id);
    assert id in g.ids;
    if m.boxOf[id] in m.openBoxes {
      var other :| other in g.ids && other in m.boxOf && Inside(lens, PlacedAt(placements, other))
          && m.boxOf[other] == m.boxOf[id];
      BoxOfIs(g, placements, lens, m, other);
      BoxesDoNotMix(lens, PlacedAt(placements, id), id, id in m.drawn, PlacedAt(placements, other), other,
                    other in m.drawn);
    }
    if Inside(lens, PlacedAt(placements, id)) {
      assert m.boxOf[id] in Shown(m.openBoxes, m.counted);
      assert RowFor(g.ids, placements, m.boxOf, m.openBoxes, m.boxOf[id], m.rows[m.boxOf[id]]);
    }
  }

  /** A row speaks for all its members: one scope, and one resource group where it names one. */
  lemma RowsSpeakForTheirMembers(g: Graph, placements: map<string, Placement>, lens: EstateLens, paths: seq<Path>,
                                 most: nat, m: EstateMap, id: string, box: Box)
    requires Built(g) && IsMap(g, placements, lens, paths, most, m) && box in m.rows && id in m.rows[box].members
    ensures PlacedAt(placements, id).scope == m.rows[box].scope
    ensures !box.ScopeBox? ==> SameGroup(PlacedAt(placements, id).group, m.rows[box].group)
  {
    var row := m.rows[box];
    assert RowFor(g.ids, placements, m.boxOf, m.openBoxes, box, row);
    SameItems(InBox(g.ids, m.boxOf, box), row.members);
    var first := row.members[0];
    assert first in row.members;
    BoxOfIs(g, placements, lens, m, id);
    BoxOfIs(g, placements, lens, m, first);
    BoxesAreUniform(lens, PlacedAt(placements, id), id, id in m.drawn, PlacedAt(placements, first), first,
                    first in m.drawn);
  }

  // ---------------------------------------------------------------- counts

  /** The link runs from one box to another, one of them opened: it conveys reach, or is containment that a route runs
      along. */
  ghost predicate RunsBetween(g: Graph, paths: seq<Path>, m: EstateMap, a: Box, b: Box, r: Relationship, e: Edge) {
    && e.source in m.boxOf && m.boxOf[e.source] == a && e.target in m.boxOf && m.boxOf[e.target] == b
    && e.relationship == r && a != b && (a in m.openBoxes || b in m.openBoxes)
    && if r == CONTAINS then OnSomeRoute(paths, e) else e in g.conveyed
  }

  ghost predicate OnSomeRoute(paths: seq<Path>, e: Edge) {
    exists p :: p in paths && e in p.steps
  }

  ghost predicate RunsBetweenSome(g: Graph, paths: seq<Path>, m: EstateMap, e: Edge) {
    exists a, b :: RunsBetween(g, paths, m, a, b, e.relationship, e)
  }

  /** How many of the links run from one box to another by a relationship. */
  ghost function NumberOf(g: Graph, paths: seq<Path>, m: EstateMap, links: seq<Edge>, a: Box, b: Box,
                          r: Relationship): nat {
    if links == [] then 0
    else NumberOf(g, paths, m, links[..|links| - 1], a, b, r)
         + if RunsBetween(g, paths, m, a, b, r, links[|links| - 1]) then 1 else 0
  }

  ghost function NumberCrossing(g: Graph, paths: seq<Path>, m: EstateMap, links: seq<Edge>): nat {
    if links == [] then 0
    else NumberCrossing(g, paths, m, links[..|links| - 1])
         + if RunsBetweenSome(g, paths, m, links[|links| - 1]) then 1 else 0
  }

  lemma QualifiesWhereItRuns(g: Graph, paths: seq<Path>, m: EstateMap, e: Edge, a: Box, b: Box, r: Relationship)
    ensures RunsBetween(g, paths, m, a, b, r, e) <==>
            Qualifies(g, OnRoute(paths), m.boxOf, m.openBoxes, e) && Between(m.boxOf, e) == Crossing(a, b, r)
    ensures RunsBetweenSome(g, paths, m, e) <==> Qualifies(g, OnRoute(paths), m.boxOf, m.openBoxes, e)
  {
    assert OnSomeRoute(paths, e) <==> e in OnRoute(paths);
    if Qualifies(g, OnRoute(paths), m.boxOf, m.openBoxes, e) {
      assert RunsBetween(g, paths, m, m.boxOf[e.source], m.boxOf[e.target], e.relationship, e);
    }
  }

  lemma {:induction false} CrossingsCount(g: Graph, paths: seq<Path>, m: EstateMap, links: seq<Edge>, a: Box, b: Box,
                                          r: Relationship)
    ensures
      var crossings := Crossings(g, links, OnRoute(paths), m.boxOf, m.openBoxes);
      && multiset(crossings)[Crossing(a, b, r)] == NumberOf(g, paths, m, links, a, b, r)
      && |crossings| == NumberCrossing(g, paths, m, links)
  {
    if links != [] {
      CrossingsCount(g, paths, m, links[..|links| - 1], a, b, r);
      QualifiesWhereItRuns(g, paths, m, links[|links| - 1], a, b, r);
    }
  }

  /** Each edge of the map counts the links that run from its one box to its other, and together they count every link
      that runs between two. */
  lemma EdgesCountTheLinks(g: Graph, placements: map<string, Placement>, lens: EstateLens, paths: seq<Path>, most: nat,
                           m: EstateMap, a: Box, b: Box, r: Relationship)
    requires IsMap(g, placements, lens, paths, most, m)
    ensures CountAt(m.counted, Crossing(a, b, r)) == NumberOf(g, paths, m, g.links, a, b, r)
    ensures Crossing(a, b, r) in m.counted.keys <==> NumberOf(g, paths, m, g.links, a, b, r) > 0
    ensures Sum(m.counted.keys, m.counted.count) == NumberCrossing(g, paths, m, g.links)
  {
    var items := Crossings(g, g.links, OnRoute(paths), m.boxOf, m.openBoxes);
    CrossingsCount(g, paths, m, g.links, a, b, r);
    KeysOccur(m.counted, items, Crossing(a, b, r));
    assert CountAt(m.counted, Crossing(a, b, r)) == multiset(items)[Crossing(a, b, r)];
  }

  /** A box counts no route it does not hold an asset of, and no more routes than the map; and the map counts any
      exactly when a box the lens opened does. */
  lemma RoutesAreOfTheMap(g: Graph, placements: map<string, Placement>, lens: EstateLens, paths: seq<Path>, most: nat,
                          m: EstateMap)
    requires IsMap(g, placements, lens, paths, most, m)
    ensures forall box :: box in m.routes ==> box in m.rows && 0 < m.routes[box] <= m.routesTotal
    ensures m.routesTotal > 0 <==> exists box :: box in m.routes && m.rows[box].inside
    ensures m.routesTotal <= |paths|
  {
    forall box | box in m.routes
      ensures box in m.rows && 0 < m.routes[box] <= m.routesTotal
    {
      NoBoxCountsMore(paths, m.boxOf, m.openBoxes, box);
    }
    forall box | box in m.rows
      ensures m.rows[box].inside <==> box in m.openBoxes
    {
      assert RowFor(g.ids, placements, m.boxOf, m.openBoxes, box, m.rows[box]);
    }
    TotalIsShown(paths, m.boxOf, m.openBoxes, Shown(m.openBoxes, m.counted), m.routes);
  }

  /** The rows and the edges are each listed once, what the lens opened first. */
  lemma RowsAreListed(g: Graph, placements: map<string, Placement>, lens: EstateLens, paths: seq<Path>, most: nat,
                      m: EstateMap, i: nat, j: nat)
    requires IsMap(g, placements, lens, paths, most, m) && i < j < |m.boxes|
    ensures forall box :: box in m.boxes <==> box in m.rows
    ensures forall c :: c in m.edges <==> NumberOf(g, paths, m, g.links, c.source, c.target, c.relationship) > 0
    ensures m.boxes[i] in m.rows && m.boxes[j] in m.rows && m.boxes[i] != m.boxes[j]
    ensures m.rows[m.boxes[j]].inside ==> m.rows[m.boxes[i]].inside
  {
    forall c
      ensures c in m.edges <==> NumberOf(g, paths, m, g.links, c.source, c.target, c.relationship) > 0
    {
      EdgesCountTheLinks(g, placements, lens, paths, most, m, c.source, c.target, c.relationship);
    }
    assert m.boxes[i] in m.boxes && m.boxes[j] in m.boxes;
    RowInside(g, placements, lens, paths, most, m, m.boxes[i]);
    RowInside(g, placements, lens, paths, most, m, m.boxes[j]);
    if m.boxes[j] in m.openBoxes {
      OpenedComeFirst(m.openBoxes, Shown(m.openBoxes, m.counted), m.counted.keys, m.boxes, m.edges, i, j);
    }
  }

  lemma RowInside(g: Graph, placements: map<string, Placement>, lens: EstateLens, paths: seq<Path>, most: nat,
                  m: EstateMap, box: Box)
    requires IsMap(g, placements, lens, paths, most, m) && box in m.rows
    ensures m.rows[box].inside <==> box in m.openBoxes
  {
    assert RowFor(g.ids, placements, m.boxOf, m.openBoxes, box, m.rows[box]);
  }

  // ---------------------------------------------------------------- the fold

  lemma {:induction false} SomethingFolded(candidates: seq<string>, drawn: seq<string>, reach: map<string, nat>)
    returns (id: string)
    requires |FoldedReach(candidates, drawn, reach)| > 0
    ensures id in candidates && id !in drawn && id in reach && reach[id] > 0
  {
    id := FoldedReach(candidates, drawn, reach)[0];
    assert id in FoldedReach(candidates, drawn, reach);
  }

  /** No more assets are drawn than allowed, and one with reach is folded only once that many are. */
  lemma FoldedOnlyAtTheCap(g: Graph, placements: map<string, Placement>, lens: EstateLens, paths: seq<Path>, most: nat,
                           m: EstateMap)
    requires IsMap(g, placements, lens, paths, most, m)
    ensures |m.drawn| <= most
    ensures m.foldedWithReach > 0 ==> |m.drawn| == most
  {
    var routed, reach := RoutedNodes(paths), m.reach.count;
    var candidates := Candidates(g.ids, placements, lens);
    var le, showable := Ranking(g.nodes, routed, reach), Showable(candidates, g.nodes, routed, reach);
    RankingIsOrder(g.nodes, routed, reach);
    FirstAreFirst(le, showable, most, "", "");
    if m.foldedWithReach > 0 {
      var id := SomethingFolded(candidates, m.drawn, reach);
      FirstAreFirst(le, showable, most, "", id);
    }
  }

  /** An opened asset with something to show is folded only if every asset drawn comes no later than it: none is left
      out for one that matters less, is on no route where it is on one, or carries less reach. */
  lemma DrawnComeFirst(g: Graph, placements: map<string, Placement>, lens: EstateLens, paths: seq<Path>, most: nat,
                       m: EstateMap, kept: string, folded: string)
    requires Built(g) && IsMap(g, placements, lens, paths, most, m)
    requires kept in m.drawn && folded !in m.drawn && folded in g.nodes
    requires IsCandidate(lens, PlacedAt(placements, folded), folded)
    requires HasSomething(g.nodes, RoutedNodes(paths), m.reach.count, folded)
    ensures kept in g.nodes && IsCandidate(lens, PlacedAt(placements, kept), kept)
    ensures Notable(g.nodes[folded]) ==> Notable(g.nodes[kept])
    ensures Notable(g.nodes[folded]) == Notable(g.nodes[kept]) && folded in RoutedNodes(paths) ==>
              kept in RoutedNodes(paths)
    ensures Notable(g.nodes[folded]) == Notable(g.nodes[kept])
            && (folded in RoutedNodes(paths) <==> kept in RoutedNodes(paths)) ==>
              CountAt(m.reach, kept) >= CountAt(m.reach, folded)
  {
    var routed, reach := RoutedNodes(paths), m.reach.count;
    var candidates := Candidates(g.ids, placements, lens);
    var le, showable := Ranking(g.nodes, routed, reach), Showable(candidates, g.nodes, routed, reach);
    RankingIsOrder(g.nodes, routed, reach);
    assert folded in g.ids && folded in showable;
    FirstAreFirst(le, showable, most, kept, folded);
    assert kept in showable && kept in g.ids;
    RanksFirst(g.nodes, routed, reach, kept, folded);
  }

  lemma RanksFirst(nodes: map<string, Asset>, routed: set<string>, reach: map<string, nat>, kept: string,
                   folded: string)
    requires kept in nodes && folded in nodes && Ranking(nodes, routed, reach)(kept, folded)
    ensures Notable(nodes[folded]) ==> Notable(nodes[kept])
    ensures Notable(nodes[folded]) == Notable(nodes[kept]) && folded in routed ==> kept in routed
    ensures Notable(nodes[folded]) == Notable(nodes[kept]) && (folded in routed <==> kept in routed) ==>
              (if kept in reach then reach[kept] else 0) >= (if folded in reach then reach[folded] else 0)
  {
    assert RankLe(RankOf(nodes, routed, reach, kept), RankOf(nodes, routed, reach, folded));
  }

  lemma {:induction false} ReachEndsConcat(g: Graph, a: seq<Edge>, b: seq<Edge>)
    ensures ReachEnds(g, a + b) == ReachEnds(g, a) + ReachEnds(g, b)
    decreases |b|
  {
    if b == [] {
      assert a + b == a;
    } else {
      assert (a + b)[..|a + b| - 1] == a + b[..|b| - 1];
      ReachEndsConcat(g, a, b[..|b| - 1]);
    }
  }

  lemma ReachOneOut(g: Graph, links: seq<Edge>, i: nat)
    requires i < |links|
    ensures multiset(ReachEnds(g, links)) == multiset(ReachEnds(g, WithoutAt(links, i)))
            + multiset(ReachEnds(g, [links[i]]))
  {
    assert links == links[..i] + [links[i]] + links[i + 1..];
    ReachEndsConcat(g, links[..i], links[i + 1..]);
    ReachEndsConcat(g, links[..i], [links[i]]);
    ReachEndsConcat(g, links[..i] + [links[i]], links[i + 1..]);
  }

  lemma {:induction false} ReachIgnoresOrder(g: Graph, a: seq<Edge>, b: seq<Edge>)
    requires multiset(a) == multiset(b)
    ensures multiset(ReachEnds(g, a)) == multiset(ReachEnds(g, b))
    decreases |a|
  {
    SameItems(a, b);
    if a != [] {
      assert a[0] in b;
      var i :| 0 <= i < |b| && b[i] == a[0];
      OneOut(a, 0);
      OneOut(b, i);
      SameRest(multiset(WithoutAt(a, 0)), multiset(WithoutAt(b, i)), a[0]);
      ReachIgnoresOrder(g, WithoutAt(a, 0), WithoutAt(b, i));
      ReachOneOut(g, a, 0);
      ReachOneOut(g, b, i);
    }
  }

  lemma SameRest<T>(a: multiset<T>, b: multiset<T>, x: T)
    requires a + multiset{x} == b + multiset{x}
    ensures a == b
  {
    assert a == a + multiset{x} - multiset{x};
    assert b == b + multiset{x} - multiset{x};
  }

  lemma {:induction false} ReachIsOfTheConveyed(g: Graph, h: Graph, links: seq<Edge>)
    requires g.conveyed == h.conveyed
    ensures ReachEnds(g, links) == ReachEnds(h, links)
  {
    if links != [] {
      ReachIsOfTheConveyed(g, h, links[..|links| - 1]);
    }
  }

  lemma CountedAlike<K(!new)>(s: Tally<K>, t: Tally<K>, a: seq<K>, b: seq<K>)
    requires Counted(s, a) && Counted(t, b) && multiset(a) == multiset(b)
    ensures s.count == t.count
  {
    assert forall k :: CountAt(s, k) == CountAt(t, k);
    assert forall k :: k in s.count <==> CountAt(s, k) > 0;
    assert forall k :: k in t.count <==> CountAt(t, k) > 0;
  }

  /** The order the graph lists its assets and links in decides nothing about which assets are drawn. */
  lemma DrawnIgnoresOrder(g: Graph, h: Graph, placements: map<string, Placement>, lens: EstateLens, paths: seq<Path>,
                          most: nat, m: EstateMap, n: EstateMap)
    requires Built(g) && Built(h) && h.nodes == g.nodes && h.conveyed == g.conveyed
    requires multiset(g.links) == multiset(h.links)
    requires IsDrawn(g, placements, lens, paths, most, m) && IsDrawn(h, placements, lens, paths, most, n)
    ensures m.drawn == n.drawn && m.reach.count == n.reach.count
  {
    ReachIsOfTheConveyed(g, h, h.links);
    ReachIgnoresOrder(g, g.links, h.links);
    CountedAlike(m.reach, n.reach, ReachEnds(g, g.links), ReachEnds(h, h.links));
    DrawnOfReach(g, h, placements, lens, paths, most, m, n);
  }

  lemma DrawnOfReach(g: Graph, h: Graph, placements: map<string, Placement>, lens: EstateLens, paths: seq<Path>,
                     most: nat, m: EstateMap, n: EstateMap)
    requires Built(g) && Built(h) && h.nodes == g.nodes && m.reach.count == n.reach.count
    requires IsDrawn(g, placements, lens, paths, most, m) && IsDrawn(h, placements, lens, paths, most, n)
    ensures m.drawn == n.drawn
  {
    var routed, reach := RoutedNodes(paths), m.reach.count;
    var a := Showable(Candidates(g.ids, placements, lens), g.nodes, routed, reach);
    var b := Showable(Candidates(h.ids, placements, lens), g.nodes, routed, reach);
    assert forall id :: id in g.ids <==> id in h.ids;
    SameBag(a, b);
    RankingIsOrder(g.nodes, routed, reach);
    RankingIsStrict(g.nodes, routed, reach, a);
    SortIgnoresOrder(Ranking(g.nodes, routed, reach), a, b);
  }

  lemma RankingIsStrict(nodes: map<string, Asset>, routed: set<string>, reach: map<string, nat>, ids: seq<string>)
    ensures Strict(Ranking(nodes, routed, reach), ids)
  {
    forall a, b | Ranking(nodes, routed, reach)(a, b) && Ranking(nodes, routed, reach)(b, a)
      ensures a == b
    {
      RankLeTotal(RankOf(nodes, routed, reach, a), RankOf(nodes, routed, reach, b));
    }
  }
}
