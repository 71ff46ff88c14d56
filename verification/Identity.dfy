/** `join`, first half: one node per id, then one node per identity. */
module Identity {
  import opened Lists
  import opened Resources
  import opened Absorb

  /** A dictionary of nodes by id, in the order they were first put. */
  datatype Table = Table(order: seq<string>, at: map<string, Resource>)

  ghost predicate Proper(t: Table) {
    && NoRepeats(t.order)
    && (forall id :: id in t.order <==> id in t.at)
    && (forall id {:trigger t.at[id]} :: id in t.at ==> t.at[id].id == id)
  }

  // ---------------------------------------------------------------- _merge_copies

  ghost predicate HeldBy(resources: seq<Resource>, id: string, f: Fact) {
    exists r :: r in resources && r.id == id && f in Facts(r)
  }

  ghost predicate AllStubs(resources: seq<Resource>, id: string) {
    forall r :: r in resources && r.id == id ==> IsStub(r)
  }

  predicate HasId(resources: seq<Resource>, id: string) {
    exists x :: x in resources && x.id == id
  }

  /** The ids in the order each first appears. */
  function Firsts(resources: seq<Resource>): (r: seq<string>)
    ensures forall id :: id in r <==> HasId(resources, id)
  {
    if resources == [] then []
    else
      var rest, last := resources[..|resources| - 1], resources[|resources| - 1];
      assert resources == rest + [last];
      if last.id in Firsts(rest) then Firsts(rest) else Firsts(rest) + [last.id]
  }

  /** The node of an id holds what all its copies hold, and is a stand-in only if they all are. */
  ghost predicate GathersCopies(node: Resource, resources: seq<Resource>) {
    && (forall f :: f in Facts(node) <==> HeldBy(resources, node.id, f))
    && (IsStub(node) <==> AllStubs(resources, node.id))
    && (OneCopy(resources, node.id) ==> node in resources)
  }

  ghost predicate OneCopy(resources: seq<Resource>, id: string) {
    forall i, j :: 0 <= i < j < |resources| ==> !(resources[i].id == id && resources[j].id == id)
  }

  ghost predicate CopiesOf(t: Table, resources: seq<Resource>) {
    Proper(t) && t.order == Firsts(resources) && AllGather(t.at, resources)
  }

  ghost predicate AllGather(at: map<string, Resource>, resources: seq<Resource>) {
    forall id {:trigger GathersCopies(at[id], resources)} :: id in at ==> GathersCopies(at[id], resources)
  }

  /** The directory's own record keeps its fields over a stand-in, whichever came first. */
  function Merged(existing: Resource, r: Resource): (m: Resource)
    ensures r.id == existing.id ==> m.id == r.id
  {
    if IsStub(existing) && !IsStub(r) then Absorbed(r, existing) else Absorbed(existing, r)
  }

  /** The copies of one id, in the order they came. */
  function CopiesWith(resources: seq<Resource>, id: string): (r: seq<Resource>)
    ensures forall c :: c in r <==> c in resources && c.id == id
  {
    if resources == [] then []
    else
      var last := resources[|resources| - 1];
      assert resources == resources[..|resources| - 1] + [last];
      CopiesWith(resources[..|resources| - 1], id) + if last.id == id then [last] else []
  }

  /** One copy merged with the next, and so on. */
  function MergedAll(copies: seq<Resource>): Resource
    requires copies != []
  {
    if |copies| == 1 then copies[0] else Merged(MergedAll(copies[..|copies| - 1]), copies[|copies| - 1])
  }

  ghost predicate IsMerged(node: Resource, resources: seq<Resource>, id: string) {
    CopiesWith(resources, id) != [] && node == MergedAll(CopiesWith(resources, id))
  }

  /** Every node is its copies merged in order. */
  ghost predicate AllMerged(at: map<string, Resource>, resources: seq<Resource>) {
    forall id {:trigger IsMerged(at[id], resources, id)} :: id in at ==> IsMerged(at[id], resources, id)
  }

  method MergeCopies(resources: seq<Resource>) returns (t: Table)
    ensures CopiesOf(t, resources)
    ensures AllMerged(t.at, resources)
  {
    t := Table([], map[]);
    for i := 0 to |resources|
      invariant CopiesOf(t, resources[..i])
      invariant AllMerged(t.at, resources[..i])
    {
      var r := resources[i];
      assert resources[..i + 1] == resources[..i] + [r];
      MergedOneMore(t, resources[..i], r);
      if r.id !in t.at {
        NewCopy(t, resources[..i], r);
        t := Table(t.order + [r.id], t.at[r.id := r]);
      } else {
        assert GathersCopies(t.at[r.id], resources[..i]);
        NextGathers(t.at[r.id], resources[..i], r);
        AnotherCopy(t, resources[..i], r, Merged(t.at[r.id], r));
        t := Table(t.order, t.at[r.id := Merged(t.at[r.id], r)]);
      }
    }
    assert resources[..|resources|] == resources;
  }

  ghost predicate CopyHolds(resources: seq<Resource>, id: string, list: MetaKey, i: Item) {
    exists r :: r in resources && r.id == id && Holds(r, list, i)
  }

  /** One entry at a time: the node of an id holds it exactly when one of its copies did. */
  lemma CopiesKeepEntries(t: Table, resources: seq<Resource>, id: string, list: MetaKey, i: Item)
    requires CopiesOf(t, resources) && id in t.at && Gathered(list, i)
    ensures Holds(t.at[id], list, i) <==> CopyHolds(resources, id, list, i)
  {
    assert GathersCopies(t.at[id], resources);
    HoldsIsFact(t.at[id], list, i);
    forall r | r in resources
      ensures Holds(r, list, i) <==> FactOf(list, i) in Facts(r)
    {
      HoldsIsFact(r, list, i);
    }
    assert HeldBy(resources, id, FactOf(list, i)) <==> CopyHolds(resources, id, list, i);
  }

  /** The table as the loop leaves it after one more copy. */
  function WithCopy(at: map<string, Resource>, r: Resource): map<string, Resource> {
    at[r.id := if r.id in at then Merged(at[r.id], r) else r]
  }

  lemma MergedOneMore(t: Table, resources: seq<Resource>, r: Resource)
    requires AllMerged(t.at, resources) && t.order == Firsts(resources)
    requires forall id :: id in t.order <==> id in t.at
    ensures AllMerged(WithCopy(t.at, r), resources + [r])
  {
    var next := WithCopy(t.at, r);
    forall id | id in next
      ensures IsMerged(next[id], resources + [r], id)
    {
      if id in t.at { assert IsMerged(t.at[id], resources, id); }
      CopyIsMerged(t.at, resources, r, id);
    }
  }

  lemma CopyIsMerged(at: map<string, Resource>, resources: seq<Resource>, r: Resource, id: string)
    requires id in at ==> IsMerged(at[id], resources, id)
    requires id in at <==> id in Firsts(resources)
    requires id in WithCopy(at, r)
    ensures IsMerged(WithCopy(at, r)[id], resources + [r], id)
  {
    if id != r.id {
      SameCopies(at[id], resources, r, id);
    } else if id in at {
      NextCopy(at[id], resources, r);
    } else {
      FirstCopy(resources, r);
    }
  }

  lemma SameCopies(node: Resource, resources: seq<Resource>, r: Resource, id: string)
    requires IsMerged(node, resources, id) && r.id != id
    ensures IsMerged(node, resources + [r], id)
  {
    CopiesOneMore(resources, r, id);
  }

  lemma NextCopy(node: Resource, resources: seq<Resource>, r: Resource)
    requires IsMerged(node, resources, r.id)
    ensures IsMerged(Merged(node, r), resources + [r], r.id)
  {
    CopiesOneMore(resources, r, r.id);
    MergedAllNext(CopiesWith(resources, r.id), r);
  }

  lemma FirstCopy(resources: seq<Resource>, r: Resource)
    requires r.id !in Firsts(resources)
    ensures IsMerged(r, resources + [r], r.id)
  {
    CopiesOneMore(resources, r, r.id);
    if CopiesWith(resources, r.id) != [] { SomeCopy(resources, r.id); }
  }

  lemma CopiesOneMore(resources: seq<Resource>, r: Resource, id: string)
    ensures CopiesWith(resources + [r], id) ==
            if r.id == id then CopiesWith(resources, id) + [r] else CopiesWith(resources, id)
  {
    assert (resources + [r])[..|resources|] == resources;
  }

  lemma MergedAllNext(copies: seq<Resource>, r: Resource)
    ensures MergedAll(copies + [r]) == if copies == [] then r else Merged(MergedAll(copies), r)
  {
    assert (copies + [r])[..|copies|] == copies;
  }

  lemma SomeCopy(resources: seq<Resource>, id: string)
    requires CopiesWith(resources, id) != []
    ensures id in Firsts(resources)
  {
    var c := CopiesWith(resources, id)[0];
    assert c in CopiesWith(resources, id);
    assert HasId(resources, id);
  }

  lemma OthersUnmoved(node: Resource, resources: seq<Resource>, r: Resource)
    requires GathersCopies(node, resources) && r.id != node.id
    ensures GathersCopies(node, resources + [r])
  {
    var all := resources + [r];
    assert forall x :: x in all <==> x in resources || x == r;
    forall f
      ensures HeldBy(all, node.id, f) <==> HeldBy(resources, node.id, f)
    {
    }
    if OneCopy(all, node.id) {
      forall i, j | 0 <= i < j < |resources|
        ensures !(resources[i].id == node.id && resources[j].id == node.id)
      {
        assert all[i] == resources[i] && all[j] == resources[j];
      }
    }
  }

  lemma FirstsOneMore(resources: seq<Resource>, r: Resource)
    ensures Firsts(resources + [r]) ==
            if r.id in Firsts(resources) then Firsts(resources) else Firsts(resources) + [r.id]
  {
    assert (resources + [r])[..|resources|] == resources;
  }

  lemma NewCopy(t: Table, resources: seq<Resource>, r: Resource)
    requires CopiesOf(t, resources) && r.id !in t.at
    ensures CopiesOf(Table(t.order + [r.id], t.at[r.id := r]), resources + [r])
  {
    FirstsOneMore(resources, r);
    assert !HasId(resources, r.id);
    FirstGathers(resources, r);
    GatherOneMore(t.at, resources, r, r);
  }

  lemma FirstGathers(resources: seq<Resource>, r: Resource)
    requires !HasId(resources, r.id)
    ensures GathersCopies(r, resources + [r])
  {
    var all := resources + [r];
    assert forall x :: x in all <==> x in resources || x == r;
  }

  lemma AnotherCopy(t: Table, resources: seq<Resource>, r: Resource, node: Resource)
    requires CopiesOf(t, resources) && r.id in t.at
    requires node.id == r.id && GathersCopies(node, resources + [r])
    ensures CopiesOf(Table(t.order, t.at[r.id := node]), resources + [r])
  {
    FirstsOneMore(resources, r);
    GatherOneMore(t.at, resources, r, node);
    StaysProper(t, node);
  }

  lemma StaysProper(t: Table, node: Resource)
    requires Proper(t) && node.id in t.at
    ensures Proper(Table(t.order, t.at[node.id := node]))
  {
  }

  lemma GatherOneMore(at: map<string, Resource>, resources: seq<Resource>, r: Resource, node: Resource)
    requires AllGather(at, resources) && (forall id {:trigger at[id]} :: id in at ==> at[id].id == id)
    requires node.id == r.id && GathersCopies(node, resources + [r])
    ensures AllGather(at[r.id := node], resources + [r])
  {
    var next := at[r.id := node];
    forall id | id in next
      ensures GathersCopies(next[id], resources + [r])
    {
      if id != r.id {
        assert GathersCopies(at[id], resources);
        OthersUnmoved(at[id], resources, r);
      }
    }
  }

  lemma NextGathers(existing: Resource, resources: seq<Resource>, r: Resource)
    requires GathersCopies(existing, resources) && existing.id == r.id
    requires HasId(resources, r.id)
    ensures GathersCopies(Merged(existing, r), resources + [r])
  {
    AbsorbKeeps(r, existing);
    AbsorbKeeps(existing, r);
    OneMoreCopy(resources, r);
    forall f
      ensures HeldBy(resources + [r], r.id, f) <==> HeldBy(resources, r.id, f) || f in Facts(r)
    {
      HeldByOneMore(resources, r, f);
    }
  }

  lemma HeldByOneMore(resources: seq<Resource>, r: Resource, f: Fact)
    ensures HeldBy(resources + [r], r.id, f) <==> HeldBy(resources, r.id, f) || f in Facts(r)
  {
    assert forall x :: x in resources + [r] <==> x in resources || x == r;
  }

  lemma OneMoreCopy(resources: seq<Resource>, r: Resource)
    requires HasId(resources, r.id)
    ensures !OneCopy(resources + [r], r.id)
    ensures AllStubs(resources + [r], r.id) <==> AllStubs(resources, r.id) && IsStub(r)
  {
    var all := resources + [r];
    assert forall x :: x in all <==> x in resources || x == r;
    var x :| x in resources && x.id == r.id;
    var i :| 0 <= i < |resources| && resources[i] == x;
    assert all[i].id == r.id && all[|resources|].id == r.id;
  }
}
