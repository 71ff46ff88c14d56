/** The estate map put together, and what holds of it under every lens. */
module EstateMaps {
  import opened Wrappers
  import opened Lists
  import opened Resources
  import opened Sorting
  import opened Tallies
  import opened Boxes
  import opened Estate
  import opened EstateListing
  import opened EstateRoutes

  /** One box on the map: whether the lens opened it, where it is, and what is in it. */
  datatype Row = Row(inside: bool, scope: string, group: Option<string>, members: seq<string>)

  /** The map: its rows, the links between them and the routes through them, and the working it was made by. */
  datatype EstateMap = EstateMap(rows: map<Box, Row>, boxes: seq<Box>, edges: seq<Crossing>, counted: Tally<Crossing>,
                                 routes: map<Box, nat>, routesTotal: nat,
                                 foldedWithReach: nat, reach: Tally<string>, drawn: seq<string>,
                                 boxOf: map<string, Box>, openBoxes: set<Box>)

  ghost predicate SomePlaced(ids: seq<string>, placements: map<string, Placement>, scope: string) {
    exists id :: id in ids && PlacedAt(placements, id).scope == scope
  }

  ghost predicate SomePlacedIn(ids: seq<string>, placements: map<string, Placement>, scope: string,
                               group: Option<string>) {
    exists id :: id in ids && PlacedAt(placements, id).scope == scope
        && SameGroup(PlacedAt(placements, id).group, group)
  }

  /** The lens names the whole estate, a scope holding something, or a group of one holding something. */
  ghost predicate Names(ids: seq<string>, placements: map<string, Placement>, lens: EstateLens) {
    if lens.scope.None? then lens.group.None?
    else if lens.group.None? then SomePlaced(ids, placements, lens.scope.value)
    else SomePlacedIn(ids, placements, lens.scope.value, lens.group)
  }

  /** The folded assets that carry reach. */
  function FoldedReach(candidates: seq<string>, drawn: seq<string>, reach: map<string, nat>): (r: seq<string>)
    ensures forall id :: id in r <==> id in candidates && id !in drawn && id in reach && reach[id] > 0
  {
    if candidates == [] then []
    else
      var last := candidates[|candidates| - 1];
      FoldedReach(candidates[..|candidates| - 1], drawn, reach)
      + if last !in drawn && last in reach && reach[last] > 0 then [last] else []
  }

  function OpenBoxes(ids: seq<string>, placements: map<string, Placement>, lens: EstateLens,
                     boxOf: map<string, Box>): set<Box> {
    set id | id in ids && id in boxOf && Inside(lens, PlacedAt(placements, id)) :: boxOf[id]
  }

  function Shown(openBoxes: set<Box>, counted: Tally<Crossing>): set<Box> {
    openBoxes + (set c | c in counted.keys :: c.source) + (set c | c in counted.keys :: c.target)
  }

  ghost predicate RowFor(ids: seq<string>, placements: map<string, Placement>, boxOf: map<string, Box>,
                         openBoxes: set<Box>, box: Box, row: Row) {
    && row.members != [] && row.members == Sort(TextOrder(), InBox(ids, boxOf, box))
    && (row.inside <==> box in openBoxes)
    && row.scope == PlacedAt(placements, row.members[0]).scope
    && row.group == if box.ScopeBox? then None else PlacedAt(placements, row.members[0]).group
  }

  ghost predicate RowsFor(ids: seq<string>, placements: map<string, Placement>, boxOf: map<string, Box>,
                          openBoxes: set<Box>, shown: set<Box>, rows: map<Box, Row>) {
    && rows.Keys == shown
    && forall box {:trigger RowFor(ids, placements, boxOf, openBoxes, box, rows[box])} :: box in shown ==>
         RowFor(ids, placements, boxOf, openBoxes, box, rows[box])
  }

  // ---------------------------------------------------------------- what the map is

  ghost predicate IsDrawn(g: Graph, placements: map<string, Placement>, lens: EstateLens, paths: seq<Path>, most: nat,
                          m: EstateMap) {
    && Counted(m.reach, ReachEnds(g, g.links))
    && m.drawn == First(Sort(Ranking(g.nodes, RoutedNodes(paths), m.reach.count),
                             Showable(Candidates(g.ids, placements, lens), g.nodes, RoutedNodes(paths), m.reach.count)),
                             most)
    && m.foldedWithReach == |FoldedReach(Candidates(g.ids, placements, lens), m.drawn, m.reach.count)|
  }

  ghost predicate IsBoxed(g: Graph, placements: map<string, Placement>, lens: EstateLens, m: EstateMap) {
    && BoxesEach(g.ids, placements, lens, m.drawn, m.boxOf)
    && m.openBoxes == OpenBoxes(g.ids, placements, lens, m.boxOf)
    && RowsFor(g.ids, placements, m.boxOf, m.openBoxes, Shown(m.openBoxes, m.counted), m.rows)
  }

  ghost predicate IsMap(g: Graph, placements: map<string, Placement>, lens: EstateLens, paths: seq<Path>, most: nat,
                        m: EstateMap) {
    && IsDrawn(g, placements, lens, paths, most, m)
    && IsBoxed(g, placements, lens, m)
    && Counted(m.counted, Crossings(g, g.links, OnRoute(paths), m.boxOf, m.openBoxes))
    && RoutesAre(paths, m.boxOf, m.openBoxes, Shown(m.openBoxes, m.counted), m.routes)
    && m.routesTotal == HowMany(paths, TouchesAt(m.boxOf, m.openBoxes))
    && AreListed(m.openBoxes, Shown(m.openBoxes, m.counted), m.counted.keys, m.boxes, m.edges)
  }

  method MapEstate(g: Graph, placements: map<string, Placement>, lens: EstateLens, paths: seq<Path>, most: nat)
    returns (r: Option<EstateMap>)
    requires Built(g)
    ensures r.None? <==> !Names(g.ids, placements, lens)
    ensures r.Some? ==> IsMap(g, placements, lens, paths, most, r.value)
  {
    var named := NamesSomething(g.ids, placements, lens);
    if !named {
      return None;
    }
    var reach := CountReach(g);
    var routed := RoutedNodes(paths);
    var candidates := Candidates(g.ids, placements, lens);
    var drawn := First(Sort(Ranking(g.nodes, routed, reach.count), Showable(candidates, g.nodes, routed, reach.count)),
                       most);
    var boxOf := BoxEach(g.ids, placements, lens, drawn);
    var openBoxes := OpenBoxes(g.ids, placements, lens, boxOf);
    var counted := CountCrossings(g, OnRoute(paths), boxOf, openBoxes);
    CrossingsAreShown(g, g.links, OnRoute(paths), boxOf, openBoxes, counted);
    var members := Members(g.ids, boxOf);
    var rows := Rows(g.ids, placements, boxOf, openBoxes, Shown(openBoxes, counted), members);
    var routes, total := CountRoutes(paths, boxOf, openBoxes, Shown(openBoxes, counted));
    var boxes, edges := ListMap(openBoxes, Shown(openBoxes, counted), counted.keys);
    r := Some(EstateMap(rows, boxes, edges, counted, routes, total, |FoldedReach(candidates, drawn, reach.count)|,
                        reach, drawn,
                        boxOf, openBoxes));
  }

  method NamesSomething(ids: seq<string>, placements: map<string, Placement>, lens: EstateLens) returns (named: bool)
    ensures named <==> Names(ids, placements, lens)
  {
    if lens.scope.None? {
      return lens.group.None?;
    }
    if !exists id :: id in ids && PlacedAt(placements, id).scope == lens.scope.value {
      return false;
    }
    if lens.group.Some? {
      return exists id :: id in ids && PlacedAt(placements, id).scope == lens.scope.value
                          && SameGroup(PlacedAt(placements, id).group, lens.group);
    }
    return true;
  }

  ghost predicate HoldsSome(ids: seq<string>, boxOf: map<string, Box>, box: Box) {
    exists id :: id in ids && id in boxOf && boxOf[id] == box
  }

  ghost predicate AllHeld(ids: seq<string>, boxOf: map<string, Box>, boxes: set<Box>) {
    forall box {:trigger HoldsSome(ids, boxOf, box)} :: box in boxes ==> HoldsSome(ids, boxOf, box)
  }

  lemma {:induction false} CrossingsEnds(g: Graph, links: seq<Edge>, onRoute: set<Edge>, boxOf: map<string, Box>,
                                         openBoxes: set<Box>)
    ensures forall c :: c in Crossings(g, links, onRoute, boxOf, openBoxes) ==>
              exists e :: e in links && CrossesAs(boxOf, e, c)
  {
    if links != [] {
      var rest, last := links[..|links| - 1], links[|links| - 1];
      CrossingsEnds(g, rest, onRoute, boxOf, openBoxes);
      forall c | c in Crossings(g, links, onRoute, boxOf, openBoxes)
        ensures exists e :: e in links && CrossesAs(boxOf, e, c)
      {
        if c in Crossings(g, rest, onRoute, boxOf, openBoxes) {
          var e :| e in rest && CrossesAs(boxOf, e, c);
          assert e in links;
        } else {
          assert last in links && CrossesAs(boxOf, last, c);
        }
      }
    }
  }

  ghost predicate CrossesAs(boxOf: map<string, Box>, e: Edge, c: Crossing) {
    e.source in boxOf && e.target in boxOf && c == Between(boxOf, e)
  }

  /** No box is shown with nothing in it. */
  lemma CrossingsAreShown(g: Graph, links: seq<Edge>, onRoute: set<Edge>, boxOf: map<string, Box>, openBoxes: set<Box>,
                          counted: Tally<Crossing>)
    requires Counted(counted, Crossings(g, links, onRoute, boxOf, openBoxes))
    requires forall id :: id in boxOf ==> id in g.ids
    requires AllHeld(g.ids, boxOf, openBoxes)
    ensures AllHeld(g.ids, boxOf, Shown(openBoxes, counted))
  {
    CrossingsEnds(g, links, onRoute, boxOf, openBoxes);
    forall box | box in Shown(openBoxes, counted)
      ensures HoldsSome(g.ids, boxOf, box)
    {
      if box in openBoxes {
        assert HoldsSome(g.ids, boxOf, box);
      } else {
        var c :| c in counted.keys && (c.source == box || c.target == box);
        KeysOccur(counted, Crossings(g, links, onRoute, boxOf, openBoxes), c);
        var e :| e in links && CrossesAs(boxOf, e, c);
        assert e.source in g.ids && e.target in g.ids;
      }
    }
  }

  method Rows(ids: seq<string>, placements: map<string, Placement>, boxOf: map<string, Box>, openBoxes: set<Box>,
              shown: set<Box>, members: map<Box, seq<string>>) returns (rows: map<Box, Row>)
    requires MembersAre(ids, boxOf, members) && AllHeld(ids, boxOf, shown)
    ensures RowsFor(ids, placements, boxOf, openBoxes, shown, rows)
  {
    rows := map[];
    var left := shown;
    while left != {}
      invariant left <= shown
      invariant RowsFor(ids, placements, boxOf, openBoxes, shown - left, rows)
    {
      var box :| box in left;
      assert HoldsSome(ids, boxOf, box);
      var row := RowOf(ids, placements, boxOf, openBoxes, box, members);
      RowOneMore(ids, placements, boxOf, openBoxes, shown - left, rows, box, row);
      assert shown - left + {box} == shown - (left - {box});
      rows := rows[box := row];
      left := left - {box};
    }
    assert shown - left == shown;
  }

  lemma RowOneMore(ids: seq<string>, placements: map<string, Placement>, boxOf: map<string, Box>, openBoxes: set<Box>,
                   done: set<Box>, rows: map<Box, Row>, box: Box, row: Row)
    requires RowsFor(ids, placements, boxOf, openBoxes, done, rows)
             && RowFor(ids, placements, boxOf, openBoxes, box, row)
    ensures RowsFor(ids, placements, boxOf, openBoxes, done + {box}, rows[box := row])
  {
    var next := rows[box := row];
    assert next.Keys == done + {box};
    forall b | b in next
      ensures RowFor(ids, placements, boxOf, openBoxes, b, next[b])
    {
      if b != box { assert next[b] == rows[b] && RowFor(ids, placements, boxOf, openBoxes, b, rows[b]); }
    }
  }

  method RowOf(ids: seq<string>, placements: map<string, Placement>, boxOf: map<string, Box>, openBoxes: set<Box>,
               box: Box, members: map<Box, seq<string>>) returns (row: Row)
    requires MembersAre(ids, boxOf, members)
    requires HoldsSome(ids, boxOf, box)
    ensures RowFor(ids, placements, boxOf, openBoxes, box, row)
  {
    var here := if box in members then members[box] else [];
    assert here == InBox(ids, boxOf, box);
    var held := Sort(TextOrder(), here);
    ghost var id :| id in ids && id in boxOf && boxOf[id] == box;
    assert id in here;
    SameItems(here, held);
    var first := PlacedAt(placements, held[0]);
    row := Row(box in openBoxes, first.scope, if box.ScopeBox? then None else first.group, held);
  }
}
