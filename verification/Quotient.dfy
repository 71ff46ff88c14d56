/** What `join` keeps of the graph it is given. */
module Quotient {
  import opened Wrappers
  import opened Lists
  import opened Resources
  import opened Absorb
  import opened Identity
  import opened Folding
  import opened Conservation
  import opened Derivation
  import opened Joining

  // ---------------------------------------------------------------- ids

  lemma FoldedTableIsProper(t: Table)
    requires Proper(t)
    ensures Proper(FoldedTable(t))
    ensures forall id :: id in FoldedTable(t).at <==> id in t.at && Target(t, id) == id
    ensures forall c :: c in FoldedTable(t).at ==> FoldedTable(t).at[c] == FoldedNode(t, c)
  {
    forall id
      ensures id in FoldedTable(t).at <==> id in t.at && Target(t, id) == id
      ensures id in FoldedTable(t).at ==> FoldedTable(t).at[id] == FoldedNode(t, id)
    {
      FoldedAre(t, id);
    }
  }

  lemma FoldedAre(t: Table, id: string)
    ensures id in FoldedTable(t).at <==> id in t.at && Target(t, id) == id
    ensures id in FoldedTable(t).at ==> FoldedTable(t).at[id] == FoldedNode(t, id)
  {
  }

  /** An id resolves to a node of the graph at once, or to itself when the graph never held it. */
  lemma ResolvesAtOnce(resources: seq<Resource>, relationships: seq<Edge>, derive: bool, j: Joined, id: string)
    requires IsJoin(resources, relationships, derive, j)
    ensures Resolve(j.aliases, Resolve(j.aliases, id)) == Resolve(j.aliases, id)
    ensures Resolve(j.aliases, id) !in j.aliases
    ensures if HasId(resources, id) then Resolve(j.aliases, id) in j.nodes.at
            else Resolve(j.aliases, id) == id && id !in j.nodes.at
  {
    var merged :| CopiesOf(merged, resources) && JoinOf(merged, relationships, derive, j);
    assert Resolve(j.aliases, id) == Target(merged, id);
    assert Resolve(j.aliases, Target(merged, id)) == Target(merged, Target(merged, id));
    TargetTwice(merged, id);
    FoldedTableIsProper(merged);
    assert id in merged.order <==> HasId(resources, id);
  }

  /** No two nodes are the same identity, whatever the case of its id. */
  lemma OneNodePerIdentity(resources: seq<Resource>, relationships: seq<Edge>, derive: bool, j: Joined, a: string,
                           b: string)
    requires IsJoin(resources, relationships, derive, j) && a in j.nodes.at && b in j.nodes.at
    requires NameOneIdentity(j.nodes.at[a], j.nodes.at[b])
    ensures a == b
  {
    OneIdentity(j.nodes.at[a], j.nodes.at[b]);
    var merged :| CopiesOf(merged, resources) && JoinOf(merged, relationships, derive, j);
    FoldedTableIsProper(merged);
    FoldConserves(merged, a);
    FoldConserves(merged, b);
    SameTarget(merged, a, b);
  }

  // ---------------------------------------------------------------- what a node holds

  ghost predicate HeldIn(resources: seq<Resource>, aliases: map<string, string>, c: string, f: Fact) {
    exists r :: r in resources && Resolve(aliases, r.id) == c && f in Facts(r)
  }

  /** A node's roles and powers are those of every record that resolves to it; a stand-in only if they all are. */
  lemma JoinConserves(resources: seq<Resource>, relationships: seq<Edge>, derive: bool, j: Joined, c: string)
    requires IsJoin(resources, relationships, derive, j) && c in j.nodes.at
    ensures forall f :: f in Facts(j.nodes.at[c]) <==> HeldIn(resources, j.aliases, c, f)
    ensures IsStub(j.nodes.at[c]) <==> AllStubsIn(resources, j.aliases, c)
  {
    var merged :| CopiesOf(merged, resources) && JoinOf(merged, relationships, derive, j);
    FoldedTableIsProper(merged);
    FoldConserves(merged, c);
    assert ResolvesAs(merged, j.aliases);
    forall f
      ensures HeldByRecords(merged, c, f) <==> HeldIn(resources, j.aliases, c, f)
    {
      HeldThrough(merged, resources, j.aliases, c, f);
    }
    StubThrough(merged, resources, j.aliases, c);
  }

  ghost predicate HoldsIn(resources: seq<Resource>, aliases: map<string, string>, c: string, list: MetaKey, i: Item) {
    exists r :: r in resources && Resolve(aliases, r.id) == c && Holds(r, list, i)
  }

  /** One entry at a time: a node lists a role, a power or an eligible role exactly when a record that resolves to it
      listed it. */
  lemma JoinKeepsEntries(resources: seq<Resource>, relationships: seq<Edge>, derive: bool, j: Joined, c: string,
                         list: MetaKey, i: Item)
    requires IsJoin(resources, relationships, derive, j) && c in j.nodes.at && Gathered(list, i)
    ensures Holds(j.nodes.at[c], list, i) <==> HoldsIn(resources, j.aliases, c, list, i)
  {
    JoinConserves(resources, relationships, derive, j, c);
    HoldsIsFact(j.nodes.at[c], list, i);
    HeldInIsFact(resources, j.aliases, c, list, i);
  }

  lemma HeldInIsFact(resources: seq<Resource>, aliases: map<string, string>, c: string, list: MetaKey, i: Item)
    requires Gathered(list, i)
    ensures HeldIn(resources, aliases, c, FactOf(list, i)) <==> HoldsIn(resources, aliases, c, list, i)
  {
    forall r | r in resources
      ensures Holds(r, list, i) <==> FactOf(list, i) in Facts(r)
    {
      HoldsIsFact(r, list, i);
    }
  }

  ghost predicate AllStubsIn(resources: seq<Resource>, aliases: map<string, string>, c: string) {
    forall r :: r in resources && Resolve(aliases, r.id) == c ==> IsStub(r)
  }

  ghost predicate ResolvesAs(merged: Table, aliases: map<string, string>) {
    forall id {:trigger Resolve(aliases, id)} :: Resolve(aliases, id) == Target(merged, id)
  }

  lemma CopyIsNode(merged: Table, resources: seq<Resource>, r: Resource)
    requires CopiesOf(merged, resources) && r in resources
    ensures r.id in merged.at && GathersCopies(merged.at[r.id], resources)
  {
    assert HasId(resources, r.id);
    assert r.id in merged.order;
  }

  lemma HeldThrough(merged: Table, resources: seq<Resource>, aliases: map<string, string>, c: string, f: Fact)
    requires CopiesOf(merged, resources) && ResolvesAs(merged, aliases)
    ensures HeldByRecords(merged, c, f) <==> HeldIn(resources, aliases, c, f)
  {
    if id :| FoldsInto(merged, id, c) && f in Facts(merged.at[id]) {
      assert GathersCopies(merged.at[id], resources);
      var r :| r in resources && r.id == id && f in Facts(r);
      assert Resolve(aliases, r.id) == c;
    }
    if HeldIn(resources, aliases, c, f) {
      var r :| r in resources && Resolve(aliases, r.id) == c && f in Facts(r);
      CopyIsNode(merged, resources, r);
      assert HeldBy(resources, r.id, f);
      assert FoldsInto(merged, r.id, c);
    }
  }

  lemma StubThrough(merged: Table, resources: seq<Resource>, aliases: map<string, string>, c: string)
    requires CopiesOf(merged, resources) && ResolvesAs(merged, aliases)
    ensures AllRecordsStubs(merged, c) <==> AllStubsIn(resources, aliases, c)
  {
    if AllRecordsStubs(merged, c) {
      forall r | r in resources && Resolve(aliases, r.id) == c
        ensures IsStub(r)
      {
        CopyIsNode(merged, resources, r);
        assert FoldsInto(merged, r.id, c);
      }
    }
    if AllStubsIn(resources, aliases, c) {
      forall id | FoldsInto(merged, id, c)
        ensures IsStub(merged.at[id])
      {
        assert GathersCopies(merged.at[id], resources);
        forall r | r in resources && r.id == id
          ensures IsStub(r)
        {
          assert Resolve(aliases, r.id) == c;
        }
      }
    }
  }

  // ---------------------------------------------------------------- edges

  ghost predicate Linked(edges: seq<Edge>, a: string, b: string) {
    exists e :: e in edges && e.source == a && e.target == b
  }

  ghost predicate Route(edges: seq<Edge>, path: seq<string>) {
    path != [] && forall i, k :: 0 <= i && k == i + 1 && k < |path| ==> Linked(edges, path[i], path[k])
  }

  ghost predicate Reaches(edges: seq<Edge>, a: string, b: string) {
    exists path :: Route(edges, path) && path[0] == a && path[|path| - 1] == b
  }

  lemma ReachesNext(edges: seq<Edge>, a: string, b: string, c: string)
    requires Reaches(edges, a, b) && Linked(edges, b, c)
    ensures Reaches(edges, a, c)
  {
    var path :| Route(edges, path) && path[0] == a && path[|path| - 1] == b;
    var longer := path + [c];
    assert Route(edges, longer);
  }

  lemma LinkIsKept(resources: seq<Resource>, relationships: seq<Edge>, derive: bool, j: Joined, a: string, b: string)
    requires IsJoin(resources, relationships, derive, j) && Linked(relationships, a, b)
    ensures Resolve(j.aliases, a) == Resolve(j.aliases, b)
            || Linked(j.relationships, Resolve(j.aliases, a), Resolve(j.aliases, b))
  {
    var merged :| CopiesOf(merged, resources) && JoinOf(merged, relationships, derive, j);
    var e :| e in relationships && e.source == a && e.target == b;
    if Resolve(j.aliases, a) != Resolve(j.aliases, b) {
      assert RunsAs(j.aliases, e, Redrawn(j.aliases, e));
      assert IsRedrawn(relationships, j.aliases, Redrawn(j.aliases, e));
    }
  }

  /** Whatever one asset could reach, the node that stands for it still reaches. */
  lemma {:induction false} RouteIsKept(resources: seq<Resource>, relationships: seq<Edge>, derive: bool, j: Joined,
                                       path: seq<string>)
    requires IsJoin(resources, relationships, derive, j) && Route(relationships, path)
    ensures Reaches(j.relationships, Resolve(j.aliases, path[0]), Resolve(j.aliases, path[|path| - 1]))
  {
    if |path| == 1 {
      assert Route(j.relationships, [Resolve(j.aliases, path[0])]);
    } else {
      var rest, b, c := path[..|path| - 1], path[|path| - 2], path[|path| - 1];
      assert Route(relationships, rest) && rest[|rest| - 1] == b;
      RouteIsKept(resources, relationships, derive, j, rest);
      LinkIsKept(resources, relationships, derive, j, b, c);
      if Resolve(j.aliases, b) != Resolve(j.aliases, c) {
        ReachesNext(j.relationships, Resolve(j.aliases, path[0]), Resolve(j.aliases, b), Resolve(j.aliases, c));
      }
    }
  }

  lemma ReachabilityIsKept(resources: seq<Resource>, relationships: seq<Edge>, derive: bool, j: Joined, a: string,
                           b: string)
    requires IsJoin(resources, relationships, derive, j) && Reaches(relationships, a, b)
    ensures Reaches(j.relationships, Resolve(j.aliases, a), Resolve(j.aliases, b))
  {
    var path :| Route(relationships, path) && path[0] == a && path[|path| - 1] == b;
    RouteIsKept(resources, relationships, derive, j, path);
  }

  lemma JoinedNodes(resources: seq<Resource>, relationships: seq<Edge>, derive: bool, j: Joined)
    requires IsJoin(resources, relationships, derive, j)
    ensures Proper(j.nodes) && OnePerIdentity(j.nodes)
  {
    var merged :| CopiesOf(merged, resources) && JoinOf(merged, relationships, derive, j);
    FoldedTableIsProper(merged);
    forall a, b | a in j.nodes.at && b in j.nodes.at && IdentityOf(j.nodes.at[a]).Some?
                  && IdentityOf(j.nodes.at[a]) == IdentityOf(j.nodes.at[b])
      ensures a == b
    {
      OneIdentity(j.nodes.at[a], j.nodes.at[b]);
      OneNodePerIdentity(resources, relationships, derive, j, a, b);
    }
  }

  lemma RedrawnOrDerived(resources: seq<Resource>, relationships: seq<Edge>, derive: bool, j: Joined, e: Edge)
    requires IsJoin(resources, relationships, derive, j)
    ensures e in j.relationships <==>
            IsRedrawn(relationships, j.aliases, e) || e in (if derive then Derived(j.nodes) else [])
  {
    var merged :| CopiesOf(merged, resources) && JoinOf(merged, relationships, derive, j);
  }

  lemma EdgesAre(resources: seq<Resource>, relationships: seq<Edge>, derive: bool, j: Joined, e: Edge)
    requires IsJoin(resources, relationships, derive, j)
    ensures e in j.relationships <==> IsRedrawn(relationships, j.aliases, e) || (derive && Implied(j.nodes, e))
  {
    RedrawnOrDerived(resources, relationships, derive, j, e);
    JoinedNodes(resources, relationships, derive, j);
    DerivedAreImplied(j.nodes, e);
  }

  lemma RedrawnEnds(resources: seq<Resource>, relationships: seq<Edge>, derive: bool, j: Joined, e: Edge)
    requires IsJoin(resources, relationships, derive, j) && IsRedrawn(relationships, j.aliases, e)
    ensures e.source !in j.aliases && e.target !in j.aliases
  {
    var r :| r in relationships && RunsAs(j.aliases, r, e);
    ResolvesAtOnce(resources, relationships, derive, j, r.source);
    ResolvesAtOnce(resources, relationships, derive, j, r.target);
  }

  lemma ImpliedEndsAre(t: Table, e: Edge)
    ensures Implied(t, e) ==> e.source in t.at && e.target in t.at
    ensures Implied(t, e) && e.source == e.target ==> OwnsItself(t, e)
    ensures OwnsItself(t, e) ==> Implied(t, e)
  {
    if Implied(t, e) {
      ImpliedEnds(t, e);
    }
  }

  lemma NodesAreNotAliases(resources: seq<Resource>, relationships: seq<Edge>, derive: bool, j: Joined, id: string)
    requires IsJoin(resources, relationships, derive, j) && id in j.nodes.at
    ensures id !in j.aliases
  {
    var merged :| CopiesOf(merged, resources) && JoinOf(merged, relationships, derive, j);
    FoldedAre(merged, id);
  }

  /** Every edge is an input edge redrawn, or implied by the joined nodes; none touches a folded id. */
  lemma EdgesAreAccountedFor(resources: seq<Resource>, relationships: seq<Edge>, derive: bool, j: Joined, e: Edge)
    requires IsJoin(resources, relationships, derive, j)
    ensures e in j.relationships <==> IsRedrawn(relationships, j.aliases, e) || (derive && Implied(j.nodes, e))
    ensures e in j.relationships ==> e.source !in j.aliases && e.target !in j.aliases
    ensures e in j.relationships && e.source == e.target ==> derive && OwnsItself(j.nodes, e)
    ensures derive && OwnsItself(j.nodes, e) ==> e in j.relationships
  {
    EdgesAre(resources, relationships, derive, j, e);
    JoinedNodes(resources, relationships, derive, j);
    ImpliedEndsAre(j.nodes, e);
    if IsRedrawn(relationships, j.aliases, e) {
      RedrawnEnds(resources, relationships, derive, j, e);
    } else if Implied(j.nodes, e) {
      NodesAreNotAliases(resources, relationships, derive, j, e.source);
      NodesAreNotAliases(resources, relationships, derive, j, e.target);
    }
  }

  // ---------------------------------------------------------------- joining twice

  ghost function NodesOf(t: Table): (r: seq<Resource>)
    requires Proper(t)
    ensures |r| == |t.order|
    ensures forall i :: 0 <= i < |r| ==> r[i].id == t.order[i] && r[i] == t.at[t.order[i]]
  {
    assert forall i :: 0 <= i < |t.order| ==> t.order[i] in t.at;
    seq(|t.order|, i requires 0 <= i < |t.order| => t.at[t.order[i]])
  }

  lemma {:induction false} FirstsOfDistinct(resources: seq<Resource>)
    requires forall i, k :: 0 <= i < k < |resources| ==> resources[i].id != resources[k].id
    ensures |Firsts(resources)| == |resources|
    ensures forall i :: 0 <= i < |resources| ==> Firsts(resources)[i] == resources[i].id
  {
    if resources != [] {
      FirstsOfDistinct(resources[..|resources| - 1]);
    }
  }

  lemma MergingNodes(t: Table, merged: Table)
    requires Proper(t) && CopiesOf(merged, NodesOf(t))
    ensures merged == t
  {
    MergingKeepsOrder(t, merged);
    forall id | id in t.at
      ensures merged.at[id] == t.at[id]
    {
      MergingNode(t, merged.at[id]);
    }
    assert merged.at == t.at;
  }

  lemma MergingKeepsOrder(t: Table, merged: Table)
    requires Proper(t) && CopiesOf(merged, NodesOf(t))
    ensures merged.order == t.order && merged.at.Keys == t.at.Keys
  {
    FirstsOfDistinct(NodesOf(t));
    assert merged.order == t.order;
    assert forall id :: id in merged.at <==> id in merged.order;
  }

  lemma MergingNode(t: Table, node: Resource)
    requires Proper(t) && GathersCopies(node, NodesOf(t))
    ensures node.id in t.at && node == t.at[node.id]
  {
    var i :| 0 <= i < |NodesOf(t)| && NodesOf(t)[i] == node;
    assert t.order[i] in t.at;
  }

  lemma StaysItself(t: Table, id: string)
    requires Proper(t) && OnePerIdentity(t)
    ensures Target(t, id) == id
    ensures id in t.at ==> FoldedNode(t, id) == t.at[id]
  {
    if id in t.at {
      assert Target(t, id) == id;
      forall other | FoldsInto(t, other, id)
        ensures other == id
      {
        SameTarget(t, id, other);
      }
      FoldConserves(t, id);
    }
  }

  lemma NothingFolds(t: Table)
    requires Proper(t) && OnePerIdentity(t)
    ensures FoldedTable(t) == t
  {
    var folded := map id | id in t.at :: FoldedNode(t, id);
    forall id | id in t.at
      ensures Target(t, id) == id && folded[id] == t.at[id]
    {
      StaysItself(t, id);
    }
    assert folded == t.at;
    assert Aliased(t) == {};
    PoppedNone(t);
  }

  lemma NothingRenamed(t: Table, relationships: seq<Edge>, derive: bool, again: Joined)
    requires Proper(t) && OnePerIdentity(t) && JoinOf(t, relationships, derive, again)
    ensures again.aliases == map[]
  {
    forall id | id in again.aliases
      ensures false
    {
      StaysItself(t, id);
    }
  }

  /** Joining a joined graph again changes nothing: the same nodes, nothing folded, the same edges. */
  lemma JoiningTwice(resources: seq<Resource>, relationships: seq<Edge>, derive: bool, j: Joined, again: Joined)
    requires IsJoin(resources, relationships, derive, j)
    requires Proper(j.nodes) && IsJoin(NodesOf(j.nodes), j.relationships, derive, again)
    ensures again.nodes == j.nodes && again.aliases == map[]
    ensures forall e :: e in again.relationships <==> e in j.relationships
  {
    var merged :| CopiesOf(merged, NodesOf(j.nodes)) && JoinOf(merged, j.relationships, derive, again);
    MergingNodes(j.nodes, merged);
    JoinedNodes(resources, relationships, derive, j);
    SettledAgain(j.nodes, j.relationships, derive, again);
    EdgesOfJoined(resources, relationships, derive, j);
    SameEdges(relationships, j.aliases, if derive then Derived(j.nodes) else [], j.relationships, again.relationships);
  }

  lemma SettledAgain(t: Table, relationships: seq<Edge>, derive: bool, again: Joined)
    requires Proper(t) && OnePerIdentity(t) && JoinOf(t, relationships, derive, again)
    ensures again.nodes == t && again.aliases == map[]
    ensures EdgesOfJoin(relationships, map[], if derive then Derived(t) else [], again.relationships)
  {
    NothingFolds(t);
    NothingRenamed(t, relationships, derive, again);
  }

  lemma EdgesOfJoined(resources: seq<Resource>, relationships: seq<Edge>, derive: bool, j: Joined)
    requires IsJoin(resources, relationships, derive, j)
    ensures EdgesOfJoin(relationships, j.aliases, if derive then Derived(j.nodes) else [], j.relationships)
  {
    var merged :| CopiesOf(merged, resources) && JoinOf(merged, relationships, derive, j);
  }

  lemma SameEdges(relationships: seq<Edge>, aliases: map<string, string>, derived: seq<Edge>, once: seq<Edge>,
                  twice: seq<Edge>)
    requires EdgesOfJoin(relationships, aliases, derived, once) && EdgesOfJoin(once, map[], derived, twice)
    ensures forall e :: e in twice <==> e in once
  {
    forall e
      ensures e in twice <==> e in once
    {
      RedrawnByNothing(once, e);
    }
  }

  lemma RedrawnByNothing(relationships: seq<Edge>, e: Edge)
    ensures IsRedrawn(relationships, map[], e) <==> e.source != e.target && e in relationships
  {
    if e in relationships { assert RunsAs(map[], e, e); }
    forall r | r in relationships && RunsAs(map[], r, e)
      ensures r == e
    {
    }
  }
}
