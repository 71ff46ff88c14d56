/** What joining nodes keeps: everything any record held, on the one node that stands for it. */
module Conservation {
  import opened Wrappers
  import opened Resources
  import opened Absorb
  import opened Identity
  import opened Folding

  ghost predicate AmongOthers(at: map<string, Resource>, ids: seq<string>, canonical: string, f: Fact) {
    exists id :: id in ids && id != canonical && id in at && f in Facts(at[id])
  }

  lemma {:induction false} AbsorbAllKeeps(node: Resource, at: map<string, Resource>, ids: seq<string>,
                                          canonical: string)
    ensures IsStub(AbsorbAll(node, at, ids, canonical)) <==> IsStub(node)
    ensures IdentityOf(node).Some? ==> IdentityOf(AbsorbAll(node, at, ids, canonical)) == IdentityOf(node)
    ensures forall f :: f in Facts(AbsorbAll(node, at, ids, canonical)) <==>
              f in Facts(node) || AmongOthers(at, ids, canonical, f)
  {
    if ids != [] {
      var rest, last := ids[..|ids| - 1], ids[|ids| - 1];
      AbsorbAllKeeps(node, at, rest, canonical);
      if last != canonical && last in at {
        AbsorbKeeps(AbsorbAll(node, at, rest, canonical), at[last]);
      }
      forall f
        ensures AmongOthers(at, ids, canonical, f) <==>
                AmongOthers(at, rest, canonical, f) || (last != canonical && last in at && f in Facts(at[last]))
      {
        assert forall id :: id in ids <==> id in rest || id == last;
      }
    }
  }

  lemma {:induction false} AbsorbNoOthers(node: Resource, at: map<string, Resource>, ids: seq<string>,
                                          canonical: string)
    requires forall i :: 0 <= i < |ids| ==> ids[i] == canonical
    ensures AbsorbAll(node, at, ids, canonical) == node
  {
    if ids != [] {
      AbsorbNoOthers(node, at, ids[..|ids| - 1], canonical);
    }
  }

  lemma TargetTwice(t: Table, id: string)
    requires Proper(t)
    ensures Target(t, Target(t, id)) == Target(t, id)
  {
    if id in t.at && IdentityOf(t.at[id]).Some? {
      var k := IdentityOf(t.at[id]).value;
      GroupTargets(t, k, id);
      GroupTargets(t, k, Target(t, id));
    }
  }

  /** A record's fellows are the records of its identity: they share its node. */
  lemma SameTarget(t: Table, c: string, id: string)
    requires Proper(t) && c in t.at && Target(t, c) == c && id in t.at
    ensures Target(t, id) == c <==>
            id == c || (IdentityOf(t.at[c]).Some? && IdentityOf(t.at[id]) == IdentityOf(t.at[c]))
  {
    if IdentityOf(t.at[c]).Some? && IdentityOf(t.at[id]) == IdentityOf(t.at[c]) {
      GroupTargets(t, IdentityOf(t.at[c]).value, c);
      GroupTargets(t, IdentityOf(t.at[c]).value, id);
    }
  }

  ghost predicate FoldsInto(t: Table, id: string, c: string) {
    id in t.at && Target(t, id) == c
  }

  ghost predicate HeldByRecords(t: Table, c: string, f: Fact) {
    exists id :: FoldsInto(t, id, c) && f in Facts(t.at[id])
  }

  ghost predicate AllRecordsStubs(t: Table, c: string) {
    forall id :: FoldsInto(t, id, c) ==> IsStub(t.at[id])
  }

  /** The node left for an identity holds what all its records held; it is a stand-in only if they all were. */
  lemma FoldConserves(t: Table, c: string)
    requires Proper(t) && c in t.at && Target(t, c) == c
    ensures forall f :: f in Facts(FoldedNode(t, c)) <==> HeldByRecords(t, c, f)
    ensures IsStub(FoldedNode(t, c)) <==> AllRecordsStubs(t, c)
    ensures IdentityOf(FoldedNode(t, c)) == IdentityOf(t.at[c])
    ensures (forall id :: FoldsInto(t, id, c) ==> id == c) ==> FoldedNode(t, c) == t.at[c]
  {
    assert FoldsInto(t, c, c);
    if IdentityOf(t.at[c]).None? {
      LoneTarget(t, c);
    } else {
      GroupConserves(t, c, IdentityOf(t.at[c]).value);
    }
  }

  ghost predicate RecordHolds(t: Table, c: string, list: MetaKey, i: Item) {
    exists id :: FoldsInto(t, id, c) && Holds(t.at[id], list, i)
  }

  /** One entry at a time: the node left for an identity holds it exactly when one of its records did. */
  lemma FoldKeepsEntries(t: Table, c: string, list: MetaKey, i: Item)
    requires Proper(t) && c in t.at && Target(t, c) == c && Gathered(list, i)
    ensures Holds(FoldedNode(t, c), list, i) <==> RecordHolds(t, c, list, i)
  {
    FoldConserves(t, c);
    HoldsIsFact(FoldedNode(t, c), list, i);
    RecordHoldsFact(t, c, list, i);
  }

  lemma RecordHoldsFact(t: Table, c: string, list: MetaKey, i: Item)
    requires Gathered(list, i)
    ensures HeldByRecords(t, c, FactOf(list, i)) <==> RecordHolds(t, c, list, i)
  {
    forall id | id in t.at
      ensures Holds(t.at[id], list, i) <==> FactOf(list, i) in Facts(t.at[id])
    {
      HoldsIsFact(t.at[id], list, i);
    }
  }

  lemma LoneTarget(t: Table, c: string)
    requires Proper(t) && c in t.at && Target(t, c) == c && IdentityOf(t.at[c]).None?
    ensures forall id :: FoldsInto(t, id, c) ==> id == c
  {
    forall id | FoldsInto(t, id, c)
      ensures id == c
    {
      SameTarget(t, c, id);
    }
  }

  lemma GroupConserves(t: Table, c: string, k: string)
    requires Proper(t) && c in t.at && Target(t, c) == c && IdentityOf(t.at[c]) == Some(k)
    ensures forall f :: f in Facts(FoldedNode(t, c)) <==> HeldByRecords(t, c, f)
    ensures IsStub(FoldedNode(t, c)) <==> AllRecordsStubs(t, c)
    ensures IdentityOf(FoldedNode(t, c)) == IdentityOf(t.at[c])
    ensures (forall id :: FoldsInto(t, id, c) ==> id == c) ==> FoldedNode(t, c) == t.at[c]
  {
    var ids := IdsWith(t.order, t.at, k);
    GroupTargets(t, k, c);
    AbsorbAllKeeps(t.at[c], t.at, ids, c);
    forall id
      ensures FoldsInto(t, id, c) <==> id in ids
    {
      if id in t.at { SameTarget(t, c, id); }
    }
    forall f
      ensures HeldByRecords(t, c, f) <==> f in Facts(t.at[c]) || AmongOthers(t.at, ids, c, f)
    {
      if f in Facts(t.at[c]) { assert FoldsInto(t, c, c); }
    }
    if forall id :: FoldsInto(t, id, c) ==> id == c {
      forall i | 0 <= i < |ids|
        ensures ids[i] == c
      {
        assert FoldsInto(t, ids[i], c);
      }
      AbsorbNoOthers(t.at[c], t.at, ids, c);
    }
  }
}
