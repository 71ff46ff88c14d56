/** `join`: each identity one node, and every edge drawn from the node that stands for its ends. */
module Joining {
  import opened Lists
  import opened Resources
  import opened Identity
  import opened Folding
  import opened Derivation

  /** The graph's nodes in order, its edges, and the node each folded id ended up in. */
  datatype Joined = Joined(nodes: Table, relationships: seq<Edge>, aliases: map<string, string>)

  function Resolve(aliases: map<string, string>, id: string): string {
    if id in aliases then aliases[id] else id
  }

  function Redrawn(aliases: map<string, string>, e: Edge): Edge {
    Edge(Resolve(aliases, e.source), e.relationship, Resolve(aliases, e.target))
  }

  /** An edge that is some input edge between the nodes its ends ended up in, unless those are one node. */
  ghost predicate IsRedrawn(relationships: seq<Edge>, aliases: map<string, string>, e: Edge) {
    e.source != e.target && exists r :: r in relationships && RunsAs(aliases, r, e)
  }

  /** One edge between the nodes the other's ends ended up in, the same way and of one relationship. */
  ghost predicate RunsAs(aliases: map<string, string>, r: Edge, e: Edge) {
    e.source == Resolve(aliases, r.source) && e.target == Resolve(aliases, r.target) && e.relationship == r.relationship
  }

  /** The order of a dictionary once some keys are popped. */
  function Remaining<K(==, !new)>(order: seq<K>, gone: set<K>): (r: seq<K>)
    ensures forall id :: id in r <==> id in order && id !in gone
    ensures NoRepeats(order) ==> NoRepeats(r)
  {
    if order == [] then []
    else Remaining(order[..|order| - 1], gone) + if order[|order| - 1] in gone then [] else [order[|order| - 1]]
  }

  lemma {:induction false} PoppedOneMore<K(!new)>(order: seq<K>, gone: set<K>, id: K)
    ensures Remaining(Remaining(order, gone), {id}) == Remaining(order, gone + {id})
  {
    if order != [] {
      var rest, last := order[..|order| - 1], order[|order| - 1];
      PoppedOneMore(rest, gone, id);
      if last !in gone {
        assert (Remaining(rest, gone) + [last])[..|Remaining(rest, gone)|] == Remaining(rest, gone);
      } else {
        assert Remaining(rest, gone) + [] == Remaining(rest, gone);
      }
    }
  }

  lemma {:induction false} NoneGone<K(!new)>(order: seq<K>)
    ensures Remaining(order, {}) == order
  {
    if order != [] {
      var rest, last := order[..|order| - 1], order[|order| - 1];
      NoneGone(rest);
      assert Remaining(order, {}) == rest + [last];
      assert order == rest + [last];
    }
  }

  function Popped(t: Table, gone: set<string>): Table {
    Table(Remaining(t.order, gone), t.at - gone)
  }

  /** The input edges between the nodes their ends ended up in, in order, less those that became loops. */
  function Images(relationships: seq<Edge>, aliases: map<string, string>): (r: seq<Edge>)
    ensures forall e :: e in r <==> IsRedrawn(relationships, aliases, e)
  {
    if relationships == [] then []
    else
      var rest, last := relationships[..|relationships| - 1], relationships[|relationships| - 1];
      var image := Redrawn(aliases, last);
      assert relationships == rest + [last];
      RedrawOneMore(rest, aliases, last);
      Images(rest, aliases) + if image.source != image.target then [image] else []
  }

  /** The ids folded into another node. */
  function Aliased(t: Table): set<string> {
    set id | id in t.at && Target(t, id) != id
  }

  /** The nodes a fold leaves, under their ids. */
  function FoldedTable(t: Table): Table {
    Popped(Table(t.order, map id | id in t.at :: FoldedNode(t, id)), Aliased(t))
  }

  /** What a join is, given the copies of each node already merged. */
  ghost predicate JoinOf(merged: Table, relationships: seq<Edge>, derive: bool, j: Joined) {
    && j.nodes == FoldedTable(merged)
    && (forall id {:trigger Resolve(j.aliases, id)} :: Resolve(j.aliases, id) == Target(merged, id))
    && (forall id :: id in j.aliases ==> id in merged.at && Target(merged, id) != id)
    && NoRepeats(j.relationships)
    && EdgesOfJoin(relationships, j.aliases, if derive then Derived(j.nodes) else [], j.relationships)
  }

  /** The edges of a join: those redrawn, and those derived. */
  ghost predicate EdgesOfJoin(relationships: seq<Edge>, aliases: map<string, string>, derived: seq<Edge>,
                              edges: seq<Edge>) {
    forall e :: e in edges <==> IsRedrawn(relationships, aliases, e) || e in derived
  }

  ghost predicate IsJoin(resources: seq<Resource>, relationships: seq<Edge>, derive: bool, j: Joined) {
    exists merged :: CopiesOf(merged, resources) && JoinOf(merged, relationships, derive, j)
  }

  /** The edges redrawn and then those derived, each where it first comes up. */
  ghost predicate EdgesInOrder(relationships: seq<Edge>, derive: bool, j: Joined) {
    j.relationships == Distinct(Images(relationships, j.aliases) + if derive then Derived(j.nodes) else [])
  }

  /** The same, every node being its copies merged one with the next in the order they came, and the edges in order. */
  ghost predicate JoinsInOrder(resources: seq<Resource>, relationships: seq<Edge>, derive: bool, j: Joined) {
    exists merged :: CopiesOf(merged, resources) && AllMerged(merged.at, resources)
                     && JoinOf(merged, relationships, derive, j) && EdgesInOrder(relationships, derive, j)
  }

  method Join(resources: seq<Resource>, relationships: seq<Edge>, derive: bool) returns (j: Joined)
    ensures IsJoin(resources, relationships, derive, j)
    ensures JoinsInOrder(resources, relationships, derive, j)
  {
    var merged := MergeCopies(resources);
    var nodes, aliases := FoldStubs(merged);
    var table := PopAliases(Table(merged.order, nodes), aliases);
    FoldedTableIs(merged, nodes, aliases);
    var edges := Redraw(relationships, aliases);
    if derive {
      edges := AddNew(edges, Derived(table), Images(relationships, aliases));
    } else {
      assert Images(relationships, aliases) + [] == Images(relationships, aliases);
    }
    j := Joined(table, edges, aliases);
    JoinedFrom(merged, nodes, relationships, derive, j);
  }

  lemma JoinedFrom(merged: Table, nodes: map<string, Resource>, relationships: seq<Edge>, derive: bool, j: Joined)
    requires Folded(merged, nodes, j.aliases) && j.nodes == FoldedTable(merged)
    requires EdgesInOrder(relationships, derive, j)
    ensures JoinOf(merged, relationships, derive, j)
  {
    forall id
      ensures Resolve(j.aliases, id) == Target(merged, id)
    {
      ResolveIsTarget(merged, nodes, j.aliases, id);
    }
    EdgesAreOfJoin(relationships, derive, j);
  }

  lemma EdgesAreOfJoin(relationships: seq<Edge>, derive: bool, j: Joined)
    requires EdgesInOrder(relationships, derive, j)
    ensures NoRepeats(j.relationships)
    ensures EdgesOfJoin(relationships, j.aliases, if derive then Derived(j.nodes) else [], j.relationships)
  {
  }

  method PopAliases(t: Table, aliases: map<string, string>) returns (r: Table)
    ensures r == Popped(t, aliases.Keys)
  {
    r := t;
    var left := aliases.Keys;
    PoppedNone(t);
    while left != {}
      invariant left <= aliases.Keys
      invariant r == Popped(t, aliases.Keys - left)
    {
      var alias :| alias in left;
      PoppedAnother(t, aliases.Keys - left, alias);
      assert aliases.Keys - left + {alias} == aliases.Keys - (left - {alias});
      r := Popped(r, {alias});
      left := left - {alias};
    }
    assert aliases.Keys - {} == aliases.Keys;
  }

  lemma PoppedNone(t: Table)
    ensures forall gone: set<string> :: gone == {} ==> Popped(t, gone) == t
  {
    NoneGone(t.order);
  }

  lemma PoppedAnother(t: Table, gone: set<string>, id: string)
    ensures Popped(Popped(t, gone), {id}) == Popped(t, gone + {id})
  {
    PoppedOneMore(t.order, gone, id);
    assert t.at - gone - {id} == t.at - (gone + {id});
  }

  method Redraw(relationships: seq<Edge>, aliases: map<string, string>) returns (edges: seq<Edge>)
    ensures edges == Distinct(Images(relationships, aliases))
  {
    edges := [];
    for i := 0 to |relationships|
      invariant edges == Distinct(Images(relationships[..i], aliases))
    {
      var edge := Redrawn(aliases, relationships[i]);
      assert relationships[..i + 1][..i] == relationships[..i];
      DistinctOneMore(Images(relationships[..i], aliases), edge);
      if edge.source != edge.target && edge !in edges {
        edges := edges + [edge];
      }
    }
    assert relationships[..|relationships|] == relationships;
  }

  lemma DistinctOneMore<T(!new)>(xs: seq<T>, x: T)
    ensures Distinct(xs + [x]) == if x in Distinct(xs) then Distinct(xs) else Distinct(xs) + [x]
    ensures xs + [] == xs
  {
    assert (xs + [x])[..|xs|] == xs;
  }

  lemma RedrawOneMore(relationships: seq<Edge>, aliases: map<string, string>, r: Edge)
    ensures forall e :: IsRedrawn(relationships + [r], aliases, e) <==>
                        IsRedrawn(relationships, aliases, e) || (e.source != e.target && e == Redrawn(aliases, r))
  {
    var all := relationships + [r];
    assert r in all;
    forall x, e | x in all && RunsAs(aliases, x, e)
      ensures x in relationships || e == Redrawn(aliases, r)
    {
    }
    forall x, e | x in relationships && RunsAs(aliases, x, e)
      ensures x in all
    {
    }
    assert RunsAs(aliases, r, Redrawn(aliases, r));
  }

  method AddNew<T(==, !new)>(edges: seq<T>, derived: seq<T>, ghost drawn: seq<T>) returns (all: seq<T>)
    requires edges == Distinct(drawn)
    ensures all == Distinct(drawn + derived)
  {
    all := edges;
    assert drawn + derived[..0] == drawn;
    for i := 0 to |derived|
      invariant all == Distinct(drawn + derived[..i])
    {
      assert drawn + derived[..i + 1] == drawn + derived[..i] + [derived[i]];
      DistinctOneMore(drawn + derived[..i], derived[i]);
      if derived[i] !in all {
        all := all + [derived[i]];
      }
    }
    assert derived[..|derived|] == derived;
  }

  lemma FoldedTableIs(t: Table, nodes: map<string, Resource>, aliases: map<string, string>)
    requires Folded(t, nodes, aliases)
    ensures Popped(Table(t.order, nodes), aliases.Keys) == FoldedTable(t)
  {
    assert aliases.Keys == Aliased(t);
    assert nodes == map id | id in t.at :: FoldedNode(t, id);
  }

  lemma ResolveIsTarget(t: Table, nodes: map<string, Resource>, aliases: map<string, string>, id: string)
    requires Folded(t, nodes, aliases)
    ensures Resolve(aliases, id) == Target(t, id)
  {
  }
}
