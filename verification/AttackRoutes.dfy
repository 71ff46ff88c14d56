/** The routes from the ways in to the assets worth taking, and which of them each link holds open. */
module AttackRoutes {
  import opened Wrappers
  import opened Text
  import opened Lists
  import opened Sorting
  import opened Resources
  import opened Access
  import opened Joining
  import opened Severance
  import opened Relabelling
  import opened Searching
  import opened AssetWalks
  import opened AssetPaths

  type Steps = seq<Move<Edge, State>>

  /** A route: where it starts, what it reaches, and the links it takes. */
  datatype Route = Route(entry: string, target: string, steps: Steps)

  type Ends = (string, string)

  function EndsOf(r: Route): Ends {
    (r.entry, r.target)
  }

  function AllEnds(routes: seq<Route>): seq<Ends> {
    Mapped(routes, EndsOf)
  }

  lemma EndsHave(routes: seq<Route>, p: Ends)
    ensures p in AllEnds(routes) <==> exists r :: r in routes && EndsOf(r) == p
  {
    if r :| r in routes && EndsOf(r) == p {
      var i :| 0 <= i < |routes| && routes[i] == r;
      assert AllEnds(routes)[i] == p;
    }
    if p in AllEnds(routes) {
      var i :| 0 <= i < |routes| && AllEnds(routes)[i] == p;
      assert routes[i] in routes;
    }
  }

  lemma EndsGrow(rest: seq<Route>, last: Route)
    ensures AllEnds(rest + [last]) == AllEnds(rest) + [EndsOf(last)]
    ensures forall p :: p in AllEnds(rest + [last]) <==> p in AllEnds(rest) || p == EndsOf(last)
    ensures NoRepeats(AllEnds(rest + [last])) <==> NoRepeats(AllEnds(rest)) && EndsOf(last) !in AllEnds(rest)
  {
    assert AllEnds(rest + [last]) == AllEnds(rest) + [EndsOf(last)];
    OneApart(AllEnds(rest), EndsOf(last));
  }

  // ---------------------------------------------------------------- reach from one asset

  /** `reachable_from`: everything within the bound of one asset, with a shortest route to each. */
  method ReachableFrom(g: Graph, id: string, bound: nat) returns (found: map<string, Steps>)
    ensures
      var start := Resolve(g.aliases, id);
      if start !in g.nodes then found == map[]
      else Finds(Taken(g), ReachedNode(g.nodes), Holding(start), bound, start, found)
           && FoundByPaths(g, start, bound, found)
  {
    var start := Resolve(g.aliases, id);
    if start !in g.nodes {
      return map[];
    }
    found := Search(Taken(g), ReachedNode(g.nodes), Holding(start), bound, start);
    AllFoundByPaths(g, start, bound, found);
  }

  /** Just what some path within the bound reaches, each over a shortest one. */
  ghost predicate FoundByPaths(g: Graph, start: string, bound: nat, found: map<string, Steps>) {
    && (forall n :: n in found <==> n != start && SomePathTo(g, start, bound, n))
    && (forall n :: n in found ==> RunsOver(g, start, bound, found[n], n))
  }

  lemma AllFoundByPaths(g: Graph, start: string, bound: nat, found: map<string, Steps>)
    requires Finds(Taken(g), ReachedNode(g.nodes), Holding(start), bound, start, found)
    ensures FoundByPaths(g, start, bound, found)
  {
    forall n
      ensures n in found <==> n != start && SomePathTo(g, start, bound, n)
      ensures n in found ==> RunsOver(g, start, bound, found[n], n)
    {
      ReachedByPath(g, start, bound, n);
      if n in found { ShortestByPath(g, start, bound, found[n], n); }
    }
  }

  // ---------------------------------------------------------------- the routes

  /** The ways in are nodes of the graph, none twice. */
  ghost predicate AreEntries(g: Graph, entries: seq<string>) {
    NoRepeats(entries) && forall i :: 0 <= i < |entries| ==> entries[i] in g.nodes && entries[i] !in g.aliases
  }

  ghost predicate IsRoute(g: Graph, entries: seq<string>, targets: set<string>, bound: nat, p: Ends) {
    p.0 in entries && p.1 in targets && p.1 != p.0 && IsReached(g, p.0, bound, p.1)
  }

  ghost predicate IsShortest(g: Graph, bound: nat, r: Route) {
    ShortestTo(Taken(g), ReachedNode(g.nodes), Holding(r.entry), bound, r.target, r.steps)
  }

  /** One route between the ends of each pair that has any, a shortest one. */
  ghost predicate ListsRoutes(g: Graph, entries: seq<string>, targets: set<string>, bound: nat, routes: seq<Route>) {
    && (forall p :: p in AllEnds(routes) <==> IsRoute(g, entries, targets, bound, p))
    && NoRepeats(AllEnds(routes))
    && (forall i :: 0 <= i < |routes| ==> IsShortest(g, bound, routes[i]))
  }

  function NameAt(nodes: Nodes, id: string): string {
    if id in nodes then nodes[id].name else ""
  }

  /** Shortest first, then by the name of what is reached. */
  function ByHops(nodes: Nodes): Order<Route> {
    (a: Route, b: Route) =>
      if |a.steps| != |b.steps| then |a.steps| < |b.steps| else TextLe(NameAt(nodes, a.target), NameAt(nodes, b.target))
  }

  lemma ByHopsIsOrder(nodes: Nodes)
    ensures IsOrder(ByHops(nodes))
  {
    forall a: Route, b: Route
      ensures ByHops(nodes)(a, b) || ByHops(nodes)(b, a)
    {
      TextLeTotal(NameAt(nodes, a.target), NameAt(nodes, b.target));
    }
    forall a: Route, b: Route, c: Route | ByHops(nodes)(a, b) && ByHops(nodes)(b, c)
      ensures ByHops(nodes)(a, c)
    {
      if |a.steps| == |b.steps| == |c.steps| {
        TextLeTransitive(NameAt(nodes, a.target), NameAt(nodes, b.target), NameAt(nodes, c.target));
      }
    }
  }

  /** Every route there is to find, shortest first. */
  ghost predicate RoutesAre(g: Graph, entries: seq<string>, targets: set<string>, bound: nat, routes: seq<Route>) {
    ListsRoutes(g, entries, targets, bound, routes) && Sorted(ByHops(g.nodes), routes)
  }

  lemma SortedLists(g: Graph, entries: seq<string>, targets: set<string>, bound: nat, a: seq<Route>, b: seq<Route>)
    requires ListsRoutes(g, entries, targets, bound, a) && multiset(a) == multiset(b)
    ensures ListsRoutes(g, entries, targets, bound, b)
  {
    MappedKeepsItems(a, b, EndsOf);
    PermutationKeepsNoRepeats(AllEnds(a), AllEnds(b));
    SameItems(AllEnds(a), AllEnds(b));
    SameItems(a, b);
    forall i | 0 <= i < |b|
      ensures IsShortest(g, bound, b[i])
    {
      assert b[i] in b;
      var k :| 0 <= k < |a| && a[k] == b[i];
    }
  }

  /** The known routes, and one from the entry to each of some other assets. */
  ghost predicate Added(g: Graph, bound: nat, known: seq<Route>, entry: string, there: set<string>,
                        routes: seq<Route>) {
    && NoRepeats(AllEnds(routes))
    && (forall p :: p in AllEnds(routes) <==> p in AllEnds(known) || (p.0 == entry && p.1 in there))
    && (forall i :: 0 <= i < |routes| ==> IsShortest(g, bound, routes[i]))
  }

  /** What was found is another asset, by a shortest route, and no known route starts here. */
  ghost predicate IsNew(g: Graph, bound: nat, known: seq<Route>, r: Route) {
    r.target != r.entry && EndsOf(r) !in AllEnds(known) && IsShortest(g, bound, r)
  }

  lemma AddedOneMore(g: Graph, bound: nat, known: seq<Route>, there: set<string>, routes: seq<Route>, r: Route)
    requires Added(g, bound, known, r.entry, there, routes) && IsNew(g, bound, known, r) && r.target !in there
    ensures Added(g, bound, known, r.entry, there + {r.target}, routes + [r])
  {
    EndsGrow(routes, r);
  }

  lemma AllAdded(g: Graph, entries: seq<string>, targets: set<string>, bound: nat, known: seq<Route>, entry: string,
                 found: map<string, Steps>, routes: seq<Route>)
    requires ListsRoutes(g, entries, targets, bound, known) && entry !in entries
    requires Finds(Taken(g), ReachedNode(g.nodes), Holding(entry), bound, entry, found)
    requires Added(g, bound, known, entry, found.Keys * targets, routes)
    ensures ListsRoutes(g, entries + [entry], targets, bound, routes)
  {
    forall p
      ensures p in AllEnds(routes) <==> IsRoute(g, entries + [entry], targets, bound, p)
    {
      assert p.0 in entries + [entry] <==> p.0 in entries || p.0 == entry;
      assert p.1 in found <==> p.1 != entry && IsReached(g, entry, bound, p.1);
    }
  }

  lemma FoundAreNew(g: Graph, entries: seq<string>, targets: set<string>, bound: nat, known: seq<Route>, entry: string,
                    found: map<string, Steps>)
    requires ListsRoutes(g, entries, targets, bound, known) && entry !in entries
    requires Finds(Taken(g), ReachedNode(g.nodes), Holding(entry), bound, entry, found)
    ensures Added(g, bound, known, entry, {}, known)
    ensures forall target :: target in found ==> IsNew(g, bound, known, Route(entry, target, found[target]))
  {
    forall target | target in found
      ensures IsNew(g, bound, known, Route(entry, target, found[target]))
    {
      assert ShortestTo(Taken(g), ReachedNode(g.nodes), Holding(entry), bound, target, found[target]);
    }
  }

  /** The routes out of one way in are added. */
  method AddRoutes(g: Graph, ghost entries: seq<string>, targets: set<string>, bound: nat, entry: string,
                   known: seq<Route>) returns (routes: seq<Route>)
    requires ListsRoutes(g, entries, targets, bound, known) && entry !in entries
    requires entry in g.nodes && entry !in g.aliases
    ensures ListsRoutes(g, entries + [entry], targets, bound, routes)
  {
    var found := ReachableFrom(g, entry, bound);
    FoundAreNew(g, entries, targets, bound, known, entry, found);
    routes := AddFound(g, bound, targets, entry, known, found);
    AllAdded(g, entries, targets, bound, known, entry, found, routes);
  }

  lemma OneFewer<T>(all: set<T>, todo: set<T>, x: T)
    requires x in todo
    ensures todo <= all ==> all - todo + {x} == all - (todo - {x})
  {
  }

  method AddFound(ghost g: Graph, ghost bound: nat, targets: set<string>, entry: string, known: seq<Route>,
                  found: map<string, Steps>) returns (routes: seq<Route>)
    requires Added(g, bound, known, entry, {}, known)
    requires forall target :: target in found ==> IsNew(g, bound, known, Route(entry, target, found[target]))
    ensures Added(g, bound, known, entry, found.Keys * targets, routes)
  {
    routes := known;
    var worth := found.Keys * targets;
    var todo := worth;
    while todo != {}
      invariant todo <= worth && Added(g, bound, known, entry, worth - todo, routes)
    {
      var target :| target in todo;
      var r := Route(entry, target, found[target]);
      assert IsNew(g, bound, known, r);
      if target != entry {
        AddedOneMore(g, bound, known, worth - todo, routes, r);
        OneFewer(worth, todo, target);
        routes := routes + [r];
      }
      todo := todo - {target};
    }
    assert worth - todo == worth;
  }

  /** `attack_paths`. */
  method AttackPaths(g: Graph, entries: seq<string>, targets: set<string>, bound: nat) returns (routes: seq<Route>)
    requires AreEntries(g, entries)
    ensures RoutesAre(g, entries, targets, bound, routes)
    ensures RoutesByPaths(g, entries, targets, bound, routes)
  {
    routes := [];
    if targets == {} {
      AllRoutesByPaths(g, entries, targets, bound, routes);
      return;
    }
    for i := 0 to |entries|
      invariant ListsRoutes(g, entries[..i], targets, bound, routes)
    {
      assert entries[..i + 1] == entries[..i] + [entries[i]];
      routes := AddRoutes(g, entries[..i], targets, bound, entries[i], routes);
    }
    assert entries[..|entries|] == entries;
    var sorted := Sort(ByHops(g.nodes), routes);
    SortedLists(g, entries, targets, bound, routes, sorted);
    ByHopsIsOrder(g.nodes);
    SortIsSorted(ByHops(g.nodes), routes);
    routes := sorted;
    AllRoutesByPaths(g, entries, targets, bound, routes);
  }

  /** One route from each way in to each other target that some path within the bound reaches, over a shortest one. */
  ghost predicate RoutesByPaths(g: Graph, entries: seq<string>, targets: set<string>, bound: nat, routes: seq<Route>) {
    && (forall p :: p in AllEnds(routes) <==>
          p.0 in entries && p.1 in targets && p.1 != p.0 && SomePathTo(g, p.0, bound, p.1))
    && (forall i :: 0 <= i < |routes| ==> RunsOver(g, routes[i].entry, bound, routes[i].steps, routes[i].target))
  }

  /** Shorter routes first, and among those of one length by the name of what they reach. */
  lemma ShortestFirst(g: Graph, entries: seq<string>, targets: set<string>, bound: nat, routes: seq<Route>, i: nat,
                      j: nat)
    requires RoutesAre(g, entries, targets, bound, routes) && i < j < |routes|
    ensures |routes[i].steps| <= |routes[j].steps|
    ensures |routes[i].steps| == |routes[j].steps| && routes[i].target in g.nodes && routes[j].target in g.nodes ==>
              TextLe(g.nodes[routes[i].target].name, g.nodes[routes[j].target].name)
  {
  }

  lemma AllRoutesByPaths(g: Graph, entries: seq<string>, targets: set<string>, bound: nat, routes: seq<Route>)
    requires ListsRoutes(g, entries, targets, bound, routes)
    ensures RoutesByPaths(g, entries, targets, bound, routes)
  {
    forall p
      ensures p in AllEnds(routes) <==>
              p.0 in entries && p.1 in targets && p.1 != p.0 && SomePathTo(g, p.0, bound, p.1)
    {
      ReachedByPath(g, p.0, bound, p.1);
    }
    forall i | 0 <= i < |routes|
      ensures RunsOver(g, routes[i].entry, bound, routes[i].steps, routes[i].target)
    {
      ShortestByPath(g, routes[i].entry, bound, routes[i].steps, routes[i].target);
    }
  }

  // ---------------------------------------------------------------- what each link holds open

  /** Only what somebody can remove is ever named by the keyed walk. */
  lemma {:induction false} UsedIsRemovable(g: Graph, start: State, walk: seq<Move<Edge, State>>, key: Edge)
    requires IsWalk(Keyed(g), start, walk) && Uses(walk, key)
    ensures Removable(key.relationship)
  {
    var rest, last := walk[..|walk| - 1], walk[|walk| - 1];
    if Uses(rest, key) {
      UsedIsRemovable(g, start, rest, key);
    } else {
      var i :| 0 <= i < |Keyed(g)(End(start, rest))| && Keyed(g)(End(start, rest))[i] == last;
      assert last == Relabel(KeyOf(g), Taken(g)(End(start, rest))[i]);
    }
  }

  /** A link is needed by a pair that has a route exactly when it can be removed and removing it leaves no route. */
  lemma NeededWhenLost(g: Graph, entry: string, bound: nat, n: string, key: Edge)
    requires IsReached(g, entry, bound, n)
    ensures NodeNeeds(Keyed(g), ReachedNode(g.nodes), Holding(entry), bound, n, key) <==>
            Removable(key.relationship) && !StillReached(g, {key}, entry, bound, n)
  {
    KeyedReaches(g, entry, bound, n);
    if Removable(key.relationship) {
      NeededIsCutOff(g, entry, bound, n, key);
    } else {
      var s :| ReachedNode(g.nodes)(s) == Some(n) && Reaches(Keyed(g), Holding(entry), 0, bound, s);
      var walk :| Leads(Keyed(g), Holding(entry), 0, bound, walk, s);
      if Uses(walk, key) { UsedIsRemovable(g, Holding(entry), walk, key); }
    }
  }

  /** The routes between some of the pairs, in order. */
  function Between(routes: seq<Route>, pairs: set<Ends>): (r: seq<Route>)
    ensures forall x :: x in r <==> x in routes && EndsOf(x) in pairs
  {
    if routes == [] then []
    else
      var last := routes[|routes| - 1];
      Between(routes[..|routes| - 1], pairs) + if EndsOf(last) in pairs then [last] else []
  }

  lemma {:induction false} BetweenEnds(routes: seq<Route>, pairs: set<Ends>)
    ensures EndsBetween(routes, pairs)
  {
    if routes != [] {
      var rest, last := routes[..|routes| - 1], routes[|routes| - 1];
      assert routes == rest + [last];
      BetweenEnds(rest, pairs);
      BetweenOneMore(rest, last, pairs);
    }
  }

  /** Between those pairs are the ends of what is between them, none twice where none was. */
  ghost predicate EndsBetween(routes: seq<Route>, pairs: set<Ends>) {
    && (forall p :: p in AllEnds(Between(routes, pairs)) <==> p in AllEnds(routes) && p in pairs)
    && (NoRepeats(AllEnds(routes)) ==> NoRepeats(AllEnds(Between(routes, pairs))))
  }

  lemma BetweenOneMore(rest: seq<Route>, last: Route, pairs: set<Ends>)
    requires EndsBetween(rest, pairs)
    ensures EndsBetween(rest + [last], pairs)
  {
    assert (rest + [last])[..|rest|] == rest;
    EndsGrow(rest, last);
    if EndsOf(last) in pairs {
      EndsGrow(Between(rest, pairs), last);
    } else {
      assert Between(rest + [last], pairs) == Between(rest, pairs);
    }
  }

  function SeveredBy(severance: map<Edge, seq<Route>>, key: Edge): seq<Route> {
    if key in severance then severance[key] else []
  }

  /** Under each link that can be removed, the routes that removing it loses; no link that loses none. */
  ghost predicate SeveranceIs(g: Graph, bound: nat, routes: seq<Route>, severance: map<Edge, seq<Route>>) {
    && (forall key {:trigger SeveredBy(severance, key)} :: LosesJust(g, bound, routes, key, SeveredBy(severance, key)))
    && (forall key :: key in severance ==> severance[key] != [])
  }

  ghost predicate LosesJust(g: Graph, bound: nat, routes: seq<Route>, key: Edge, severed: seq<Route>) {
    && NoRepeats(AllEnds(severed)) && (forall r :: r in severed ==> r in routes)
    && forall p :: p in AllEnds(severed) <==>
         p in AllEnds(routes) && Removable(key.relationship) && !StillReached(g, {key}, p.0, bound, p.1)
  }

  /** The ways in that have a route, each with the state its walk starts in. */
  function Starts(routes: seq<Route>): (r: seq<(string, State)>)
    ensures forall i :: 0 <= i < |r| ==> r[i].1 == Holding(r[i].0) && IsEntryOf(routes, r[i].0)
    ensures forall x :: x in routes ==> (x.entry, Holding(x.entry)) in r
  {
    if routes == [] then []
    else
      var rest, last := routes[..|routes| - 1], routes[|routes| - 1];
      assert routes == rest + [last];
      MoreEntries(rest, last);
      if (last.entry, Holding(last.entry)) in Starts(rest) then Starts(rest)
      else Starts(rest) + [(last.entry, Holding(last.entry))]
  }

  predicate IsEntryOf(routes: seq<Route>, e: string) {
    exists r :: r in routes && r.entry == e
  }

  lemma MoreEntries(routes: seq<Route>, r: Route)
    ensures forall e :: IsEntryOf(routes + [r], e) <==> IsEntryOf(routes, e) || e == r.entry
  {
    assert forall x :: x in routes + [r] <==> x in routes || x == r;
  }

  /** What the walk from these starts files under a link. */
  ghost predicate Files(g: Graph, bound: nat, routes: seq<Route>, worth: set<string>, key: Edge, p: Ends) {
    SomeSevers(Keyed(g), ReachedNode(g.nodes), Starts(routes), worth, bound, key, p)
  }

  lemma FiledAreRoutes(g: Graph, entries: seq<string>, targets: set<string>, bound: nat, routes: seq<Route>,
                       worth: set<string>, key: Edge, p: Ends)
    requires ListsRoutes(g, entries, targets, bound, routes) && worth <= targets
             && Files(g, bound, routes, worth, key, p)
    ensures p in AllEnds(routes)
  {
    var starts := Starts(routes);
    var i :| 0 <= i < |starts| && starts[i].0 == p.0
             && Severs(Keyed(g), ReachedNode(g.nodes), starts[i], worth, bound, key, p.1);
    var r :| r in routes && r.entry == p.0;
    EndsHave(routes, EndsOf(r));
    KeyedReaches(g, p.0, bound, p.1);
  }

  lemma FiledAreLost(g: Graph, entries: seq<string>, targets: set<string>, bound: nat, routes: seq<Route>,
                     worth: set<string>, key: Edge, p: Ends)
    requires ListsRoutes(g, entries, targets, bound, routes) && p in AllEnds(routes)
    requires forall r :: r in routes ==> r.target in worth
    ensures Files(g, bound, routes, worth, key, p) <==>
            Removable(key.relationship) && !StillReached(g, {key}, p.0, bound, p.1)
  {
    EndsHave(routes, p);
    var r :| r in routes && EndsOf(r) == p;
    var starts := Starts(routes);
    var i :| 0 <= i < |starts| && starts[i] == (r.entry, Holding(r.entry));
    NeededWhenLost(g, p.0, bound, p.1, key);
    KeyedReaches(g, p.0, bound, p.1);
    assert Files(g, bound, routes, worth, key, p) <==>
           Severs(Keyed(g), ReachedNode(g.nodes), starts[i], worth, bound, key, p.1);
  }

  /** `link_severance`: walked from the ways in that lead somewhere, to what they lead to. */
  method LinkSeverance(g: Graph, ghost entries: seq<string>, ghost targets: set<string>, bound: nat, routes: seq<Route>)
    returns (severance: map<Edge, seq<Route>>)
    requires ListsRoutes(g, entries, targets, bound, routes)
    ensures SeveranceIs(g, bound, routes, severance)
  {
    var worth := set r | r in routes :: r.target;
    var closes := SeveredPairs(Keyed(g), ReachedNode(g.nodes), Starts(routes), worth, bound);
    severance := map key | key in closes :: Between(routes, closes[key]);
    TargetsAreWorth(g, entries, targets, bound, routes, worth);
    forall key
      ensures LosesJust(g, bound, routes, key, SeveredBy(severance, key))
      ensures key in severance ==> severance[key] != []
    {
      ClosesAreLost(g, entries, targets, bound, routes, worth, closes, severance, key);
    }
  }

  lemma TargetsAreWorth(g: Graph, entries: seq<string>, targets: set<string>, bound: nat, routes: seq<Route>,
                        worth: set<string>)
    requires ListsRoutes(g, entries, targets, bound, routes) && worth == set r | r in routes :: r.target
    ensures worth <= targets
  {
    forall r | r in routes
      ensures r.target in targets
    {
      EndsHave(routes, EndsOf(r));
    }
  }

  lemma ClosesAreLost(g: Graph, entries: seq<string>, targets: set<string>, bound: nat, routes: seq<Route>,
                      worth: set<string>, closes: map<Edge, set<Ends>>, severance: map<Edge, seq<Route>>, key: Edge)
    requires ListsRoutes(g, entries, targets, bound, routes) && worth <= targets && NoneEmpty(closes)
    requires forall r :: r in routes ==> r.target in worth
    requires forall k, p :: Has(closes, k, p) <==> Files(g, bound, routes, worth, k, p)
    requires severance == map k | k in closes :: Between(routes, closes[k])
    ensures LosesJust(g, bound, routes, key, SeveredBy(severance, key))
    ensures key in severance ==> severance[key] != []
  {
    if key in closes {
      BetweenEnds(routes, closes[key]);
      var p :| p in closes[key];
      assert Has(closes, key, p);
      FiledAreRoutes(g, entries, targets, bound, routes, worth, key, p);
      assert p in AllEnds(Between(routes, closes[key]));
    }
    forall p | p in AllEnds(routes)
      ensures p in AllEnds(SeveredBy(severance, key)) <==>
              Removable(key.relationship) && !StillReached(g, {key}, p.0, bound, p.1)
    {
      FiledAreLost(g, entries, targets, bound, routes, worth, key, p);
      assert Has(closes, key, p) <==> Files(g, bound, routes, worth, key, p);
    }
  }

  // ---------------------------------------------------------------- removing the link and asking again

  lemma RouteOfCut(g: Graph, keys: set<Edge>, h: Graph, entries: seq<string>, targets: set<string>, bound: nat, p: Ends)
    requires IsCut(g, keys, h)
    ensures IsRoute(h, entries, targets, bound, p) <==>
            p.0 in entries && p.1 in targets && p.1 != p.0 && StillReached(g, keys, p.0, bound, p.1)
    ensures IsRoute(h, entries, targets, bound, p) ==> IsRoute(g, entries, targets, bound, p)
  {
    CutReaches(g, keys, h, p.0, bound, p.1);
    NothingGone(g, p.0, bound, p.1);
    if StillReached(g, keys, p.0, bound, p.1) {
      MoreGone(g, {}, keys, p.0, bound, p.1);
    }
  }

  /** What a link is said to hold open is what is lost when the graph is built again without it and asked for its
      routes: the two lists of ends are apart, and together they are the routes there were. */
  lemma SeveranceIsWhatRemovalLoses(g: Graph, entries: seq<string>, targets: set<string>, bound: nat,
                                    routes: seq<Route>, severance: map<Edge, seq<Route>>, key: Edge, h: Graph,
                                    after: seq<Route>)
    requires ListsRoutes(g, entries, targets, bound, routes) && SeveranceIs(g, bound, routes, severance)
    requires Removable(key.relationship) && IsCut(g, {key}, h) && ListsRoutes(h, entries, targets, bound, after)
    ensures multiset(AllEnds(SeveredBy(severance, key)) + AllEnds(after)) == multiset(AllEnds(routes))
    ensures Disjoint(AllEnds(SeveredBy(severance, key)), AllEnds(after))
    ensures |after| == |routes| - |SeveredBy(severance, key)|
  {
    var lost, left := AllEnds(SeveredBy(severance, key)), AllEnds(after);
    assert LosesJust(g, bound, routes, key, SeveredBy(severance, key));
    forall p
      ensures p in lost <==> p in AllEnds(routes) && p !in left
      ensures p in left ==> p in AllEnds(routes)
    {
      RouteOfCut(g, {key}, h, entries, targets, bound, p);
    }
    NoRepeatsConcat(lost, left);
    SameBag(lost + left, AllEnds(routes));
    assert |multiset(lost + left)| == |multiset(AllEnds(routes))|;
  }

  /** A route closes with a link exactly when somebody can remove that link and no path is left within the bound over
      what its removal spares. */
  lemma SeveredByPaths(g: Graph, bound: nat, routes: seq<Route>, severance: map<Edge, seq<Route>>, key: Edge, p: Ends)
    requires SeveranceIs(g, bound, routes, severance) && p in AllEnds(routes)
    ensures p in AllEnds(SeveredBy(severance, key)) <==>
            IsGrip(key.relationship) && !SparedPathTo(g, {key}, p.0, bound, p.1)
  {
    assert LosesJust(g, bound, routes, key, SeveredBy(severance, key));
    ReachIsByPaths(g, {key}, p.0, bound, p.1);
  }

  /** A route that closes with a link is drawn across it: no severed route is missing from those the link sits on. */
  lemma SeveredRoutesCross(g: Graph, entries: seq<string>, targets: set<string>, bound: nat, routes: seq<Route>,
                           severance: map<Edge, seq<Route>>, key: Edge, r: Route)
    requires ListsRoutes(g, entries, targets, bound, routes) && SeveranceIs(g, bound, routes, severance)
    requires r in SeveredBy(severance, key)
    ensures r in routes && Crosses(KeyOf(g), r.steps, key)
  {
    assert LosesJust(g, bound, routes, key, SeveredBy(severance, key));
    EndsHave(SeveredBy(severance, key), EndsOf(r));
    var i :| 0 <= i < |routes| && routes[i] == r;
    assert IsShortest(g, bound, routes[i]);
    assert !AvoidsTo(g, {key}, r.entry, bound, r.target, r.steps);
    CrossingIsGone(g, key, r.steps);
  }

  // ---------------------------------------------------------------- what if one link is removed

  datatype CutOutcome = CutOutcome(key: Edge, closed: seq<Route>, before: nat, after: nat)

  /** `cut`: nothing for a link that is not there or cannot be removed. */
  method Cut(g: Graph, entries: seq<string>, targets: set<string>, bound: nat, source: string, r: Relationship,
             target: string) returns (outcome: Option<CutOutcome>)
    requires AreEntries(g, entries)
    ensures
      var e := Edge(Resolve(g.aliases, source), r, Resolve(g.aliases, target));
      && (outcome.Some? <==> Removable(r) && Link(r, e.target) in LinksAt(g.out, e.source))
      && (outcome.Some? ==>
          outcome.value.key == RemovalKey(g, e) && IsOutcome(g, entries, targets, bound, outcome.value))
  {
    if !Removable(r) {
      return None;
    }
    var e := Edge(Resolve(g.aliases, source), r, Resolve(g.aliases, target));
    if Link(r, e.target) !in LinksAt(g.out, e.source) {
      return None;
    }
    var key := RemovalKey(g, e);
    var routes := AttackPaths(g, entries, targets, bound);
    var severance := LinkSeverance(g, entries, targets, bound, routes);
    var closed := SeveredBy(severance, key);
    OutcomeHolds(g, entries, targets, bound, routes, severance, key);
    outcome := Some(CutOutcome(key, closed, |routes|, |routes| - |closed|));
  }

  /** The counts are those of the graph as it is and as it would be, and what closes is what only the first has. */
  ghost predicate IsOutcome(g: Graph, entries: seq<string>, targets: set<string>, bound: nat, o: CutOutcome) {
    CountsAre(g, entries, targets, bound, o.key, o.before, o.after)
    && ClosedAre(g, entries, targets, bound, o.key, o.closed)
  }

  ghost predicate ClosedAre(g: Graph, entries: seq<string>, targets: set<string>, bound: nat, key: Edge,
                            closed: seq<Route>) {
    && (forall r :: r in closed ==> IsRoute(g, entries, targets, bound, EndsOf(r)))
    && (forall p, h :: IsCut(g, {key}, h) && IsRoute(g, entries, targets, bound, p) ==>
          (p in AllEnds(closed) <==> !IsRoute(h, entries, targets, bound, p)))
  }

  ghost predicate CountsAre(g: Graph, entries: seq<string>, targets: set<string>, bound: nat, key: Edge, before: int,
                            after: int) {
    && (forall routes :: ListsRoutes(g, entries, targets, bound, routes) ==> before == |routes|)
    && (forall h, left :: IsCut(g, {key}, h) && ListsRoutes(h, entries, targets, bound, left) ==> after == |left|)
  }

  lemma SameNumber(g: Graph, entries: seq<string>, targets: set<string>, bound: nat, a: seq<Route>, b: seq<Route>)
    requires ListsRoutes(g, entries, targets, bound, a) && ListsRoutes(g, entries, targets, bound, b)
    ensures |a| == |b|
  {
    SameBag(AllEnds(a), AllEnds(b));
    assert |multiset(AllEnds(a))| == |multiset(AllEnds(b))|;
  }

  lemma ClosedAreLost(g: Graph, entries: seq<string>, targets: set<string>, bound: nat, routes: seq<Route>, key: Edge,
                      closed: seq<Route>)
    requires ListsRoutes(g, entries, targets, bound, routes) && LosesJust(g, bound, routes, key, closed)
    requires Removable(key.relationship)
    ensures ClosedAre(g, entries, targets, bound, key, closed) && |closed| <= |routes|
  {
    NoMoreLost(routes, closed);
    forall r | r in closed
      ensures IsRoute(g, entries, targets, bound, EndsOf(r))
    {
      EndsHave(routes, EndsOf(r));
    }
    forall p, h | IsCut(g, {key}, h) && IsRoute(g, entries, targets, bound, p)
      ensures p in AllEnds(closed) <==> !IsRoute(h, entries, targets, bound, p)
    {
      RouteOfCut(g, {key}, h, entries, targets, bound, p);
    }
  }

  lemma CountsHold(g: Graph, entries: seq<string>, targets: set<string>, bound: nat, routes: seq<Route>,
                   severance: map<Edge, seq<Route>>, key: Edge)
    requires ListsRoutes(g, entries, targets, bound, routes) && SeveranceIs(g, bound, routes, severance)
    requires Removable(key.relationship)
    ensures CountsAre(g, entries, targets, bound, key, |routes|, |routes| - |SeveredBy(severance, key)|)
  {
    forall other | ListsRoutes(g, entries, targets, bound, other)
      ensures |routes| == |other|
    {
      SameNumber(g, entries, targets, bound, routes, other);
    }
    forall h, after | IsCut(g, {key}, h) && ListsRoutes(h, entries, targets, bound, after)
      ensures |routes| - |SeveredBy(severance, key)| == |after|
    {
      SeveranceIsWhatRemovalLoses(g, entries, targets, bound, routes, severance, key, h, after);
    }
  }

  lemma OutcomeHolds(g: Graph, entries: seq<string>, targets: set<string>, bound: nat, routes: seq<Route>,
                     severance: map<Edge, seq<Route>>, key: Edge)
    requires ListsRoutes(g, entries, targets, bound, routes) && SeveranceIs(g, bound, routes, severance)
    requires Removable(key.relationship)
    ensures |SeveredBy(severance, key)| <= |routes|
    ensures
      var closed := SeveredBy(severance, key);
      IsOutcome(g, entries, targets, bound, CutOutcome(key, closed, |routes|, |routes| - |closed|))
  {
    var closed := SeveredBy(severance, key);
    assert LosesJust(g, bound, routes, key, closed);
    ClosedAreLost(g, entries, targets, bound, routes, key, closed);
    CountsHold(g, entries, targets, bound, routes, severance, key);
  }

  lemma NoMoreLost(routes: seq<Route>, closed: seq<Route>)
    requires NoRepeats(AllEnds(routes)) && NoRepeats(AllEnds(closed))
    requires forall p :: p in AllEnds(closed) ==> p in AllEnds(routes)
    ensures |closed| <= |routes|
  {
    var a, b := set p | p in AllEnds(closed), set p | p in AllEnds(routes);
    AsMany(AllEnds(closed), a);
    AsMany(AllEnds(routes), b);
    NoMore(a, b);
  }
}
