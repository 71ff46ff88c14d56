/** The changes that close every route, one at a time, most first. */
module FixPlans {
  import opened Wrappers
  import opened Lists
  import opened Resources
  import opened Access
  import opened Joining
  import opened Searching
  import opened AssetWalks
  import opened AttackRoutes

  datatype PlannedCut = PlannedCut(link: Edge, closes: seq<Route>)

  datatype FixPlan = FixPlan(cuts: seq<PlannedCut>, before: nat, remaining: nat)

  function LinksOf(cuts: seq<PlannedCut>): set<Edge> {
    set c | c in cuts :: c.link
  }

  /** `cut_cost`. */
  function CutCost(r: Relationship): nat {
    if r in {GRANTS_ROLE, CAN_GRANT_ROLES, MEMBER_OF} then 1
    else if r in {CAN_ACT_AS, CAN_TAKE_OVER} then 2
    else 3
  }

  // ---------------------------------------------------------------- what is open

  /** The pairs still joined by a route once some links are removed. */
  ghost function OpenEnds(g: Graph, bound: nat, all: set<Ends>, removed: set<Edge>): set<Ends> {
    set p | p in all && StillReached(g, removed, p.0, bound, p.1)
  }

  /** The pairs that close with one link more. */
  ghost function Closing(g: Graph, bound: nat, all: set<Ends>, removed: set<Edge>, link: Edge): set<Ends> {
    OpenEnds(g, bound, all, removed) - OpenEnds(g, bound, all, removed + {link})
  }

  /** Removing one link more leaves what was open but what closes. */
  lemma OpenOneMore(g: Graph, bound: nat, all: set<Ends>, removed: set<Edge>, link: Edge)
    ensures OpenEnds(g, bound, all, removed + {link}) <= OpenEnds(g, bound, all, removed)
    ensures |OpenEnds(g, bound, all, removed + {link})| + |Closing(g, bound, all, removed, link)| ==
            |OpenEnds(g, bound, all, removed)|
  {
    var was, now := OpenEnds(g, bound, all, removed), OpenEnds(g, bound, all, removed + {link});
    forall p | p in now
      ensures p in was
    {
      MoreGone(g, removed, removed + {link}, p.0, bound, p.1);
    }
    assert was == now + Closing(g, bound, all, removed, link);
  }

  // ---------------------------------------------------------------- a plan

  /** The cut lists what closes with it, each pair once. */
  ghost predicate ClosesJust(g: Graph, bound: nat, all: set<Ends>, removed: set<Edge>, cut: PlannedCut) {
    && NoRepeats(AllEnds(cut.closes))
    && forall p :: p in AllEnds(cut.closes) <==> p in Closing(g, bound, all, removed, cut.link)
  }

  /** Something closes with the cut, and no single other change would close more. */
  ghost predicate IsBest(g: Graph, bound: nat, all: set<Ends>, removed: set<Edge>, cut: PlannedCut) {
    && Removable(cut.link.relationship) && cut.closes != [] && ClosesJust(g, bound, all, removed, cut)
    && forall link: Edge {:trigger Closing(g, bound, all, removed, link)} :: Removable(link.relationship) ==>
         |Closing(g, bound, all, removed, link)| <= |cut.closes|
  }

  /** Each cut is best with those before it made. */
  ghost predicate EachBest(g: Graph, bound: nat, all: set<Ends>, cuts: seq<PlannedCut>) {
    forall i :: 0 <= i < |cuts| ==> IsBest(g, bound, all, LinksOf(cuts[..i]), cuts[i])
  }

  /** No one change closes anything. */
  ghost predicate NoneCloses(g: Graph, bound: nat, all: set<Ends>, removed: set<Edge>) {
    forall link: Edge {:trigger Closing(g, bound, all, removed, link)} :: Removable(link.relationship) ==>
      Closing(g, bound, all, removed, link) == {}
  }

  function TotalClosed(cuts: seq<PlannedCut>): nat {
    if cuts == [] then 0 else TotalClosed(cuts[..|cuts| - 1]) + |cuts[|cuts| - 1].closes|
  }

  ghost predicate PlanHolds(g: Graph, bound: nat, all: set<Ends>, limit: nat, plan: FixPlan) {
    && |plan.cuts| <= limit && EachBest(g, bound, all, plan.cuts)
    && plan.before == |all| && plan.remaining == |OpenEnds(g, bound, all, LinksOf(plan.cuts))|
    && plan.remaining + TotalClosed(plan.cuts) == plan.before
    && (plan.remaining > 0 && |plan.cuts| < limit ==> NoneCloses(g, bound, all, LinksOf(plan.cuts)))
  }

  /** The ends of the routes there are. */
  ghost function RouteEnds(routes: seq<Route>): set<Ends> {
    set p | p in AllEnds(routes)
  }

  lemma LinksOneMore(cuts: seq<PlannedCut>, cut: PlannedCut)
    ensures LinksOf(cuts + [cut]) == LinksOf(cuts) + {cut.link}
    ensures TotalClosed(cuts + [cut]) == TotalClosed(cuts) + |cut.closes|
  {
    assert forall c :: c in cuts + [cut] <==> c in cuts || c == cut;
    assert (cuts + [cut])[..|cuts|] == cuts;
  }

  lemma EachBestOneMore(g: Graph, bound: nat, all: set<Ends>, cuts: seq<PlannedCut>, cut: PlannedCut)
    requires EachBest(g, bound, all, cuts) && IsBest(g, bound, all, LinksOf(cuts), cut)
    ensures EachBest(g, bound, all, cuts + [cut])
  {
    forall i | 0 <= i < |cuts + [cut]|
      ensures IsBest(g, bound, all, LinksOf((cuts + [cut])[..i]), (cuts + [cut])[i])
    {
      if i < |cuts| {
        assert (cuts + [cut])[..i] == cuts[..i];
      } else {
        assert (cuts + [cut])[..i] == cuts;
      }
    }
  }

  // ---------------------------------------------------------------- the graph with the plan so far made

  /** The routes of the graph without the links removed are the pairs still open. */
  lemma OpenAreRoutes(g: Graph, entries: seq<string>, targets: set<string>, bound: nat, before: seq<Route>,
                      removed: set<Edge>, h: Graph, now: seq<Route>)
    requires ListsRoutes(g, entries, targets, bound, before) && IsCut(g, removed, h)
    requires ListsRoutes(h, entries, targets, bound, now)
    ensures RouteEnds(now) == OpenEnds(g, bound, RouteEnds(before), removed)
    ensures |now| == |OpenEnds(g, bound, RouteEnds(before), removed)|
  {
    forall p
      ensures p in AllEnds(now) <==> p in OpenEnds(g, bound, RouteEnds(before), removed)
    {
      RouteOfCut(g, removed, h, entries, targets, bound, p);
    }
    AsMany(AllEnds(now), RouteEnds(now));
  }

  /** What the severance of that graph says a link loses is what closes with it. */
  lemma SeveredAreClosing(g: Graph, entries: seq<string>, targets: set<string>, bound: nat, before: seq<Route>,
                          removed: set<Edge>, h: Graph, now: seq<Route>, severance: map<Edge, seq<Route>>, link: Edge)
    requires ListsRoutes(g, entries, targets, bound, before) && IsCut(g, removed, h)
    requires ListsRoutes(h, entries, targets, bound, now) && SeveranceIs(h, bound, now, severance)
    requires Removable(link.relationship)
    ensures |SeveredBy(severance, link)| == |Closing(g, bound, RouteEnds(before), removed, link)|
  {
    OpenAreRoutes(g, entries, targets, bound, before, removed, h, now);
    assert LosesJust(h, bound, now, link, SeveredBy(severance, link));
    forall p
      ensures p in Closing(g, bound, RouteEnds(before), removed, link) <==> p in AllEnds(SeveredBy(severance, link))
    {
      StillReachedTwice(g, removed, h, {link}, p.0, bound, p.1);
      assert p in RouteEnds(now) <==> p in AllEnds(now);
    }
    AsMany(AllEnds(SeveredBy(severance, link)), Closing(g, bound, RouteEnds(before), removed, link));
  }

  /** The link that loses the most routes, and of those one that costs least to remove. */
  ghost predicate IsPick(severance: map<Edge, seq<Route>>, link: Edge) {
    && link in severance
    && forall other :: other in severance ==>
         |severance[other]| <= |severance[link]|
         && (|severance[other]| == |severance[link]| ==> CutCost(link.relationship) <= CutCost(other.relationship))
  }

  ghost predicate IsAssignment(r: Relationship) {
    r == GRANTS_ROLE || r == CAN_GRANT_ROLES || r == MEMBER_OF
  }

  ghost predicate IsDirectoryReach(r: Relationship) {
    r == CAN_ACT_AS || r == CAN_TAKE_OVER
  }

  /** Nothing closes more than what is picked. Of what closes as much, an assignment or a membership is picked before
      anything else, and what the directory lets an identity do before the rest. */
  lemma PicksTheCheapest(severance: map<Edge, seq<Route>>, link: Edge, other: Edge)
    requires IsPick(severance, link) && other in severance
    ensures |severance[other]| <= |severance[link]|
    ensures |severance[other]| == |severance[link]| ==>
              && (IsAssignment(other.relationship) ==> IsAssignment(link.relationship))
              && (IsDirectoryReach(other.relationship) ==>
                    IsAssignment(link.relationship) || IsDirectoryReach(link.relationship))
  {
  }

  method Pick(severance: map<Edge, seq<Route>>) returns (link: Edge)
    requires severance != map[]
    ensures IsPick(severance, link)
  {
    var todo := severance.Keys;
    link :| link in severance;
    todo := todo - {link};
    while todo != {}
      invariant todo <= severance.Keys && link in severance.Keys - todo
      invariant forall other :: other in severance.Keys - todo ==>
                  |severance[other]| <= |severance[link]|
                  && (|severance[other]| == |severance[link]| ==>
                        CutCost(link.relationship) <= CutCost(other.relationship))
    {
      var other :| other in todo;
      if |severance[other]| > |severance[link]|
         || (|severance[other]| == |severance[link]| && CutCost(other.relationship) < CutCost(link.relationship)) {
        link := other;
      }
      todo := todo - {other};
    }
  }

  /** Where nothing is filed, no one change closes anything. */
  lemma NothingFiled(g: Graph, entries: seq<string>, targets: set<string>, bound: nat, before: seq<Route>,
                     removed: set<Edge>, h: Graph, now: seq<Route>)
    requires ListsRoutes(g, entries, targets, bound, before) && IsCut(g, removed, h)
    requires ListsRoutes(h, entries, targets, bound, now) && SeveranceIs(h, bound, now, map[])
    ensures NoneCloses(g, bound, RouteEnds(before), removed)
  {
    forall link: Edge | Removable(link.relationship)
      ensures Closing(g, bound, RouteEnds(before), removed, link) == {}
    {
      SeveredAreClosing(g, entries, targets, bound, before, removed, h, now, map[], link);
    }
  }

  lemma PickedIsRemovable(h: Graph, bound: nat, now: seq<Route>, severance: map<Edge, seq<Route>>, link: Edge)
    requires SeveranceIs(h, bound, now, severance) && link in severance
    ensures Removable(link.relationship) && severance[link] != []
  {
    assert LosesJust(h, bound, now, link, SeveredBy(severance, link));
    assert AllEnds(severance[link])[0] in AllEnds(severance[link]);
  }

  lemma NoneClosesMore(g: Graph, entries: seq<string>, targets: set<string>, bound: nat, before: seq<Route>,
                       removed: set<Edge>, h: Graph, now: seq<Route>, severance: map<Edge, seq<Route>>, pick: Edge,
                       link: Edge)
    requires ListsRoutes(g, entries, targets, bound, before) && IsCut(g, removed, h)
    requires ListsRoutes(h, entries, targets, bound, now) && SeveranceIs(h, bound, now, severance)
    requires IsPick(severance, pick) && Removable(link.relationship) && Removable(pick.relationship)
    ensures |Closing(g, bound, RouteEnds(before), removed, link)| <=
            |Closing(g, bound, RouteEnds(before), removed, pick)| == |severance[pick]|
  {
    SeveredAreClosing(g, entries, targets, bound, before, removed, h, now, severance, pick);
    SeveredAreClosing(g, entries, targets, bound, before, removed, h, now, severance, link);
  }

  lemma PickedIsBest(g: Graph, entries: seq<string>, targets: set<string>, bound: nat, before: seq<Route>,
                     removed: set<Edge>, h: Graph, now: seq<Route>, severance: map<Edge, seq<Route>>, cut: PlannedCut)
    requires ListsRoutes(g, entries, targets, bound, before) && IsCut(g, removed, h)
    requires ListsRoutes(h, entries, targets, bound, now) && SeveranceIs(h, bound, now, severance)
    requires IsPick(severance, cut.link) && ClosesJust(g, bound, RouteEnds(before), removed, cut)
    ensures IsBest(g, bound, RouteEnds(before), removed, cut)
  {
    var all := RouteEnds(before);
    PickedIsRemovable(h, bound, now, severance, cut.link);
    AsMany(AllEnds(cut.closes), Closing(g, bound, all, removed, cut.link));
    NoneClosesMore(g, entries, targets, bound, before, removed, h, now, severance, cut.link, cut.link);
    forall link: Edge | Removable(link.relationship)
      ensures |Closing(g, bound, all, removed, link)| <= |cut.closes|
    {
      NoneClosesMore(g, entries, targets, bound, before, removed, h, now, severance, cut.link, link);
    }
  }

  // ---------------------------------------------------------------- making the plan

  ghost predicate SoFar(g: Graph, bound: nat, before: seq<Route>, cuts: seq<PlannedCut>, open: set<Ends>,
                        graph: Graph) {
    var all := RouteEnds(before);
    && EachBest(g, bound, all, cuts) && IsCut(g, LinksOf(cuts), graph)
    && open == OpenEnds(g, bound, all, LinksOf(cuts)) && |open| + TotalClosed(cuts) == |all|
  }

  /** One more change, with what closes read off the graph without it. */
  method NextCut(g: Graph, entries: seq<string>, targets: set<string>, bound: nat, before: seq<Route>,
                 cuts: seq<PlannedCut>, open: set<Ends>, graph: Graph)
    returns (cut: Option<PlannedCut>, left: set<Ends>, next: Graph)
    requires AreEntries(g, entries) && ListsRoutes(g, entries, targets, bound, before)
    requires SoFar(g, bound, before, cuts, open, graph) && AreEntries(graph, entries)
    ensures cut.None? ==> NoneCloses(g, bound, RouteEnds(before), LinksOf(cuts))
    ensures cut.Some? ==> SoFar(g, bound, before, cuts + [cut.value], left, next) && AreEntries(next, entries)
  {
    ghost var all, removed := RouteEnds(before), LinksOf(cuts);
    left, next := open, graph;
    var now := AttackPaths(graph, entries, targets, bound);
    var severance := LinkSeverance(graph, entries, targets, bound, now);
    if severance == map[] {
      NothingFiled(g, entries, targets, bound, before, removed, graph, now);
      return None, left, next;
    }
    var link := Pick(severance);
    next := Without(g, LinksOf(cuts) + {link});
    var rest := AttackPaths(next, entries, targets, bound);
    var still := set r | r in rest :: EndsOf(r);
    StillAreOpen(g, entries, targets, bound, before, removed + {link}, next, rest, still);
    left := open * still;
    cut := Some(PlannedCut(link, Between(before, open - still)));
    ListedAreClosing(g, bound, before, removed, open, still, cut.value);
    PickedIsBest(g, entries, targets, bound, before, removed, graph, now, severance, cut.value);
    CutExtends(g, bound, before, cuts, open, graph, cut.value, left, next);
  }

  lemma ListedAreClosing(g: Graph, bound: nat, before: seq<Route>, removed: set<Edge>, open: set<Ends>,
                         still: set<Ends>, cut: PlannedCut)
    requires NoRepeats(AllEnds(before)) && cut.closes == Between(before, open - still)
    requires open == OpenEnds(g, bound, RouteEnds(before), removed)
    requires still == OpenEnds(g, bound, RouteEnds(before), removed + {cut.link})
    ensures ClosesJust(g, bound, RouteEnds(before), removed, cut)
    ensures open * still == still
  {
    BetweenEnds(before, open - still);
    OpenOneMore(g, bound, RouteEnds(before), removed, cut.link);
    forall p
      ensures p in AllEnds(cut.closes) <==> p in Closing(g, bound, RouteEnds(before), removed, cut.link)
    {
      assert p in RouteEnds(before) <==> p in AllEnds(before);
    }
  }

  lemma CutExtends(g: Graph, bound: nat, before: seq<Route>, cuts: seq<PlannedCut>, open: set<Ends>, graph: Graph,
                   cut: PlannedCut, left: set<Ends>, next: Graph)
    requires SoFar(g, bound, before, cuts, open, graph)
    requires IsBest(g, bound, RouteEnds(before), LinksOf(cuts), cut) && IsCut(g, LinksOf(cuts) + {cut.link}, next)
    requires left == OpenEnds(g, bound, RouteEnds(before), LinksOf(cuts) + {cut.link})
    ensures SoFar(g, bound, before, cuts + [cut], left, next)
  {
    var all, removed := RouteEnds(before), LinksOf(cuts);
    OpenOneMore(g, bound, all, removed, cut.link);
    AsMany(AllEnds(cut.closes), Closing(g, bound, all, removed, cut.link));
    EachBestOneMore(g, bound, all, cuts, cut);
    LinksOneMore(cuts, cut);
  }

  lemma StillAreOpen(g: Graph, entries: seq<string>, targets: set<string>, bound: nat, before: seq<Route>,
                     removed: set<Edge>, h: Graph, now: seq<Route>, still: set<Ends>)
    requires ListsRoutes(g, entries, targets, bound, before) && IsCut(g, removed, h)
    requires ListsRoutes(h, entries, targets, bound, now) && still == set r | r in now :: EndsOf(r)
    ensures still == OpenEnds(g, bound, RouteEnds(before), removed)
  {
    OpenAreRoutes(g, entries, targets, bound, before, removed, h, now);
    forall p
      ensures p in still <==> p in RouteEnds(now)
    {
      EndsHave(now, p);
    }
  }

  lemma NothingRemoved(g: Graph, entries: seq<string>, targets: set<string>, bound: nat, before: seq<Route>)
    requires ListsRoutes(g, entries, targets, bound, before)
    ensures SoFar(g, bound, before, [], RouteEnds(before), g) && |RouteEnds(before)| == |before|
  {
    assert LinksOf([]) == {};
    OpenAreRoutes(g, entries, targets, bound, before, {}, g, before);
  }

  lemma SameEnds(g: Graph, entries: seq<string>, targets: set<string>, bound: nat, a: seq<Route>, b: seq<Route>)
    requires ListsRoutes(g, entries, targets, bound, a) && ListsRoutes(g, entries, targets, bound, b)
    ensures RouteEnds(a) == RouteEnds(b)
  {
  }

  lemma EndsAsSet(routes: seq<Route>)
    ensures RouteEnds(routes) == set r | r in routes :: EndsOf(r)
  {
    forall p
      ensures p in RouteEnds(routes) <==> exists r :: r in routes && EndsOf(r) == p
    {
      EndsHave(routes, p);
    }
  }

  /** `fix_plan`: whichever list of the graph's routes it is held against. */
  method MakePlan(g: Graph, entries: seq<string>, targets: set<string>, bound: nat, limit: nat) returns (plan: FixPlan)
    requires AreEntries(g, entries)
    ensures forall routes :: ListsRoutes(g, entries, targets, bound, routes) ==>
              PlanHolds(g, bound, RouteEnds(routes), limit, plan)
  {
    var before := AttackPaths(g, entries, targets, bound);
    plan := PlanFor(g, entries, targets, bound, limit, before);
    forall routes | ListsRoutes(g, entries, targets, bound, routes)
      ensures RouteEnds(routes) == RouteEnds(before)
    {
      SameEnds(g, entries, targets, bound, routes, before);
    }
  }

  method PlanFor(g: Graph, entries: seq<string>, targets: set<string>, bound: nat, limit: nat, before: seq<Route>)
    returns (plan: FixPlan)
    requires AreEntries(g, entries) && ListsRoutes(g, entries, targets, bound, before)
    ensures PlanHolds(g, bound, RouteEnds(before), limit, plan)
  {
    var open := set r | r in before :: EndsOf(r);
    var graph, cuts: seq<PlannedCut> := g, [];
    EndsAsSet(before);
    NothingRemoved(g, entries, targets, bound, before);
    while open != {} && |cuts| < limit
      invariant |cuts| <= limit && SoFar(g, bound, before, cuts, open, graph) && AreEntries(graph, entries)
      decreases limit - |cuts|
    {
      var cut, left, next := NextCut(g, entries, targets, bound, before, cuts, open, graph);
      if cut.None? {
        break;
      }
      cuts, open, graph := cuts + [cut.value], left, next;
    }
    plan := FixPlan(cuts, |before|, |open|);
  }
}
