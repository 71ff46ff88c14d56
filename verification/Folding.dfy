/** `_fold_stubs`: every record of one identity folded into the one that stands for it. */
module Folding {
  import opened Wrappers
  import opened Lists
  import opened Resources
  import opened Absorb
  import opened Identity

  predicate IsOf(at: map<string, Resource>, id: string, k: string) {
    id in at && IdentityOf(at[id]) == Some(k)
  }

  /** The ids recorded for one identity, in the order of the table. */
  function IdsWith(order: seq<string>, at: map<string, Resource>, k: string): (r: seq<string>)
    ensures forall id :: id in r <==> id in order && IsOf(at, id, k)
    ensures NoRepeats(order) ==> NoRepeats(r)
  {
    if order == [] then []
    else
      var last := order[|order| - 1];
      IdsWith(order[..|order| - 1], at, k) + if IsOf(at, last, k) then [last] else []
  }

  /** The first record that is no stand-in, or the first of all. */
  function Canonical(ids: seq<string>, at: map<string, Resource>): (r: string)
    requires ids != []
    ensures r in ids
    ensures r in at && IsStub(at[r]) ==> forall id :: id in ids && id in at ==> IsStub(at[id])
  {
    CanonicalFrom(ids, at, ids[0])
  }

  function CanonicalFrom(ids: seq<string>, at: map<string, Resource>, otherwise: string): (r: string)
    ensures r in ids || r == otherwise
    ensures (r in at && !IsStub(at[r])) || (r == otherwise && forall id :: id in ids && id in at ==> IsStub(at[id]))
  {
    if ids == [] then otherwise
    else if ids[0] in at && !IsStub(at[ids[0]]) then ids[0]
    else CanonicalFrom(ids[1..], at, otherwise)
  }

  /** The node an id ends up in. */
  function Target(t: Table, id: string): (r: string)
    ensures id in t.at && Proper(t) ==> r in t.at
    ensures Proper(t) && id in t.at && IdentityOf(t.at[id]).Some? ==> IdentityOf(t.at[r]) == IdentityOf(t.at[id])
  {
    if id in t.at && IdentityOf(t.at[id]).Some? then
      var ids := IdsWith(t.order, t.at, IdentityOf(t.at[id]).value);
      if ids != [] then Canonical(ids, t.at) else id
    else id
  }

  /** What the fold makes of one record: the others of its identity absorbed in order. */
  function AbsorbAll(node: Resource, at: map<string, Resource>, ids: seq<string>, canonical: string): (r: Resource)
    ensures r.id == node.id
  {
    if ids == [] then node
    else
      var before, last := AbsorbAll(node, at, ids[..|ids| - 1], canonical), ids[|ids| - 1];
      if last == canonical || last !in at then before else Absorbed(before, at[last])
  }

  function FoldedNode(t: Table, c: string): Resource
    requires c in t.at
  {
    if Target(t, c) == c && IdentityOf(t.at[c]).Some?
    then AbsorbAll(t.at[c], t.at, IdsWith(t.order, t.at, IdentityOf(t.at[c]).value), c)
    else t.at[c]
  }

  // ---------------------------------------------------------------- which record is kept

  /** Where one of the ids stands in the table: only those before it among the ids stand before it there. */
  lemma {:induction false} IdStandsAt(order: seq<string>, at: map<string, Resource>, k: string, i: nat) returns (n: nat)
    requires i < |IdsWith(order, at, k)|
    ensures n < |order| && order[n] == IdsWith(order, at, k)[i]
    ensures forall m :: 0 <= m < n && IsOf(at, order[m], k) ==> order[m] in IdsWith(order, at, k)[..i]
  {
    var rest, last := order[..|order| - 1], order[|order| - 1];
    var ids, before := IdsWith(order, at, k), IdsWith(rest, at, k);
    if i < |before| {
      n := IdStandsAt(rest, at, k, i);
      assert ids[..i] == before[..i];
    } else {
      n := |order| - 1;
      assert ids[..i] == before;
      forall m | 0 <= m < n && IsOf(at, order[m], k)
        ensures order[m] in before
      {
        assert rest[m] == order[m] && order[m] in rest;
      }
    }
  }

  lemma {:induction false} FirstKnown(ids: seq<string>, at: map<string, Resource>, otherwise: string) returns (i: nat)
    requires exists id :: id in ids && id in at && !IsStub(at[id])
    ensures i < |ids| && ids[i] == CanonicalFrom(ids, at, otherwise) && ids[i] in at && !IsStub(at[ids[i]])
    ensures forall j :: 0 <= j < i && ids[j] in at ==> IsStub(at[ids[j]])
  {
    if ids[0] in at && !IsStub(at[ids[0]]) {
      i := 0;
    } else {
      var later := FirstKnown(ids[1..], at, otherwise);
      i := later + 1;
    }
  }

  ghost predicate AllOfAreStubs(t: Table, k: string) {
    forall id :: id in t.order && IsOf(t.at, id, k) ==> IsStub(t.at[id])
  }

  /** The record is the first of its identity in the table that is no stand-in, or the first of all where all are. */
  ghost predicate IsFirstOf(t: Table, k: string, n: int) {
    && 0 <= n < |t.order| && IsOf(t.at, t.order[n], k)
    && (IsStub(t.at[t.order[n]]) ==> AllOfAreStubs(t, k))
    && forall m :: 0 <= m < n && IsOf(t.at, t.order[m], k) ==>
         IsStub(t.at[t.order[m]]) && !IsStub(t.at[t.order[n]])
  }

  lemma CanonicalStandsAt(t: Table, k: string, ids: seq<string>) returns (i: nat)
    requires ids == IdsWith(t.order, t.at, k) != []
    ensures i < |ids| && ids[i] == Canonical(ids, t.at) && ids[i] in t.at
    ensures IsStub(t.at[ids[i]]) ==> i == 0 && AllOfAreStubs(t, k)
    ensures forall j :: 0 <= j < i && ids[j] in t.at ==> IsStub(t.at[ids[j]])
  {
    if exists id :: id in ids && id in t.at && !IsStub(t.at[id]) {
      i := FirstKnown(ids, t.at, ids[0]);
    } else {
      i := 0;
      assert ids[0] in ids;
      assert forall id :: id in t.order && IsOf(t.at, id, k) ==> id in ids;
    }
  }

  /** All records of an identity end up in that one. */
  lemma TheFirstIsKept(t: Table, id: string, k: string) returns (n: nat)
    requires Proper(t) && id in t.at && IdentityOf(t.at[id]) == Some(k)
    ensures IsFirstOf(t, k, n) && Target(t, id) == t.order[n]
  {
    var ids := IdsWith(t.order, t.at, k);
    assert id in ids;
    var i := CanonicalStandsAt(t, k, ids);
    n := IdStandsAt(t.order, t.at, k, i);
    assert ids[i] in ids;
    forall m | 0 <= m < n && IsOf(t.at, t.order[m], k)
      ensures IsStub(t.at[t.order[m]]) && !IsStub(t.at[t.order[n]])
    {
      assert t.order[m] in ids[..i];
      var j :| 0 <= j < i && ids[j] == t.order[m];
    }
  }

  // ---------------------------------------------------------------- the loops

  ghost predicate Grouped(groups: map<string, seq<string>>, order: seq<string>, at: map<string, Resource>) {
    forall k :: GroupedAt(groups, order, at, k)
  }

  ghost predicate GroupedAt(groups: map<string, seq<string>>, order: seq<string>, at: map<string, Resource>,
                            k: string) {
    if k in groups then groups[k] == IdsWith(order, at, k) != [] else IdsWith(order, at, k) == []
  }

  method ByIdentity(t: Table) returns (groups: map<string, seq<string>>)
    requires Proper(t)
    ensures Grouped(groups, t.order, t.at)
  {
    groups := map[];
    for i := 0 to |t.order|
      invariant Grouped(groups, t.order[..i], t.at)
    {
      var id := t.order[i];
      assert t.order[..i + 1] == t.order[..i] + [id] && id in t.at;
      GroupOneMore(groups, t.order[..i], t.at, id);
      var identity := IdentityOf(t.at[id]);
      if identity.Some? {
        groups := groups[identity.value := (if identity.value in groups then groups[identity.value] else []) + [id]];
      }
    }
    assert t.order[..|t.order|] == t.order;
  }

  lemma GroupOneMore(groups: map<string, seq<string>>, order: seq<string>, at: map<string, Resource>, id: string)
    requires Grouped(groups, order, at) && id in at
    ensures
      var identity := IdentityOf(at[id]);
      var next := if identity.None? then groups
                  else groups[identity.value := (if identity.value in groups then groups[identity.value] else [])
                              + [id]];
      Grouped(next, order + [id], at)
  {
    var identity := IdentityOf(at[id]);
    var next := if identity.None? then groups
                else groups[identity.value := (if identity.value in groups then groups[identity.value] else []) + [id]];
    assert (order + [id])[..|order|] == order;
    forall k
      ensures GroupedAt(next, order + [id], at, k)
    {
      assert GroupedAt(groups, order, at, k);
    }
  }

  method FoldStubs(t: Table) returns (nodes: map<string, Resource>, aliases: map<string, string>)
    requires Proper(t)
    ensures Folded(t, nodes, aliases)
  {
    var groups := ByIdentity(t);
    nodes, aliases := t.at, map[];
    var left := groups.Keys;
    FoldStarts(t, groups);
    while left != {}
      invariant left <= groups.Keys
      invariant FoldedSoFar(t, left, nodes, aliases)
    {
      var k :| k in left;
      var ids := groups[k];
      assert GroupedAt(groups, t.order, t.at, k);
      var canonical := Canonical(ids, t.at);
      if |ids| >= 2 {
        GroupIsUntouched(t, left, nodes, aliases, k);
        var next, more := FoldGroup(t.at, ids, canonical, nodes, aliases);
        GroupFolded(t, left, nodes, aliases, k, next, more);
        nodes, aliases := next, more;
      } else {
        LoneRecord(t, left, nodes, aliases, k);
      }
      left := left - {k};
    }
    FoldEnds(t, nodes, aliases);
  }

  /** Every record as the fold leaves it, and every record that is not canonical by the one that is. */
  ghost predicate Folded(t: Table, nodes: map<string, Resource>, aliases: map<string, string>) {
    && nodes.Keys == t.at.Keys
    && (forall c :: c in t.at ==> nodes[c] == FoldedNode(t, c))
    && (forall id :: id in aliases <==> id in t.at && Target(t, id) != id)
    && (forall id :: id in aliases ==> aliases[id] == Target(t, id))
  }

  /** The records of the identities still to fold are untouched; the others are as the fold leaves them. */
  ghost predicate FoldedSoFar(t: Table, left: set<string>, nodes: map<string, Resource>, aliases: map<string, string>) {
    && nodes.Keys == t.at.Keys && aliases.Keys <= t.at.Keys
    && forall id {:trigger FoldedAt(t, left, nodes, aliases, id)} :: id in t.at ==>
       FoldedAt(t, left, nodes, aliases, id)
  }

  ghost predicate FoldedAt(t: Table, left: set<string>, nodes: map<string, Resource>, aliases: map<string, string>,
                           id: string)
    requires id in t.at && id in nodes
  {
    if Untouched(t, left, id) then nodes[id] == t.at[id] && id !in aliases
    else
      && nodes[id] == FoldedNode(t, id)
      && (if Target(t, id) == id then id !in aliases else id in aliases && aliases[id] == Target(t, id))
  }

  ghost predicate Untouched(t: Table, left: set<string>, id: string)
    requires id in t.at
  {
    IdentityOf(t.at[id]).None? || IdentityOf(t.at[id]).value in left
  }

  function AliasesTo(ids: seq<string>, canonical: string): map<string, string> {
    map id | id in ids && id != canonical :: canonical
  }

  method FoldGroup(at: map<string, Resource>, ids: seq<string>, canonical: string, was: map<string, Resource>,
                   known: map<string, string>) returns (nodes: map<string, Resource>, aliases: map<string, string>)
    requires canonical in at && canonical in was && was[canonical] == at[canonical]
    requires forall i :: 0 <= i < |ids| ==> ids[i] in at && ids[i] in was && was[ids[i]] == at[ids[i]]
    ensures nodes == was[canonical := AbsorbAll(at[canonical], at, ids, canonical)]
    ensures aliases == known + AliasesTo(ids, canonical)
  {
    var node := was[canonical];
    aliases := known;
    for i := 0 to |ids|
      invariant node == AbsorbAll(at[canonical], at, ids[..i], canonical)
      invariant aliases == known + AliasesTo(ids[..i], canonical)
    {
      var other := ids[i];
      assert ids[..i + 1] == ids[..i] + [other];
      AbsorbOneMore(at, ids[..i], canonical, other);
      AliasOneMore(known, ids[..i], canonical, other);
      if other == canonical {
        continue;
      }
      node := Absorbed(node, was[other]);
      aliases := aliases[other := canonical];
    }
    assert ids[..|ids|] == ids;
    nodes := was[canonical := node];
  }

  lemma AbsorbOneMore(at: map<string, Resource>, ids: seq<string>, canonical: string, other: string)
    requires canonical in at && other in at
    ensures AbsorbAll(at[canonical], at, ids + [other], canonical) ==
            var before := AbsorbAll(at[canonical], at, ids, canonical);
            if other == canonical then before else Absorbed(before, at[other])
  {
    assert (ids + [other])[..|ids|] == ids;
  }

  lemma AliasOneMore(known: map<string, string>, ids: seq<string>, canonical: string, other: string)
    ensures known + AliasesTo(ids + [other], canonical) ==
            if other == canonical then known + AliasesTo(ids, canonical)
            else (known + AliasesTo(ids, canonical))[other := canonical]
  {
    var all := ids + [other];
    assert forall id :: id in all <==> id in ids || id == other;
    if other == canonical {
      assert AliasesTo(all, canonical) == AliasesTo(ids, canonical);
    } else {
      assert AliasesTo(all, canonical) == AliasesTo(ids, canonical)[other := canonical];
    }
  }

  // ---------------------------------------------------------------- the steps

  lemma FoldStarts(t: Table, groups: map<string, seq<string>>)
    requires Proper(t) && Grouped(groups, t.order, t.at)
    ensures FoldedSoFar(t, groups.Keys, t.at, map[])
  {
    forall id | id in t.at
      ensures Untouched(t, groups.Keys, id)
    {
      if IdentityOf(t.at[id]).Some? {
        assert GroupedAt(groups, t.order, t.at, IdentityOf(t.at[id]).value);
      }
    }
  }

  lemma FoldEnds(t: Table, nodes: map<string, Resource>, aliases: map<string, string>)
    requires Proper(t) && FoldedSoFar(t, {}, nodes, aliases)
    ensures Folded(t, nodes, aliases)
  {
    forall id | id in t.at
      ensures nodes[id] == FoldedNode(t, id)
    {
      FoldEndsAt(t, nodes, aliases, id);
    }
    forall id
      ensures id in aliases <==> id in t.at && Target(t, id) != id
      ensures id in aliases ==> aliases[id] == Target(t, id)
    {
      if id in t.at { FoldEndsAt(t, nodes, aliases, id); }
    }
  }

  lemma FoldEndsAt(t: Table, nodes: map<string, Resource>, aliases: map<string, string>, id: string)
    requires Proper(t) && FoldedSoFar(t, {}, nodes, aliases) && id in t.at
    ensures nodes[id] == FoldedNode(t, id)
    ensures if Target(t, id) == id then id !in aliases else id in aliases && aliases[id] == Target(t, id)
  {
    assert FoldedAt(t, {}, nodes, aliases, id);
    if IdentityOf(t.at[id]).None? { assert Target(t, id) == id; }
  }

  lemma GroupTargets(t: Table, k: string, id: string)
    requires Proper(t) && IsOf(t.at, id, k)
    ensures id in IdsWith(t.order, t.at, k)
    ensures Target(t, id) == Canonical(IdsWith(t.order, t.at, k), t.at)
  {
  }

  lemma GroupIsUntouched(t: Table, left: set<string>, nodes: map<string, Resource>, aliases: map<string, string>,
                         k: string)
    requires Proper(t) && FoldedSoFar(t, left, nodes, aliases) && k in left
    ensures forall id :: id in IdsWith(t.order, t.at, k) ==> id in t.at && nodes[id] == t.at[id]
  {
    forall id | id in IdsWith(t.order, t.at, k)
      ensures id in t.at && nodes[id] == t.at[id]
    {
      assert FoldedAt(t, left, nodes, aliases, id);
    }
  }

  /** The nodes and aliases once the records of one identity are folded. */
  ghost predicate GroupStep(t: Table, k: string, nodes: map<string, Resource>, aliases: map<string, string>,
                            next: map<string, Resource>, more: map<string, string>) {
    var ids := IdsWith(t.order, t.at, k);
    && ids != [] && Canonical(ids, t.at) in t.at
    && next == nodes[Canonical(ids, t.at) := AbsorbAll(t.at[Canonical(ids, t.at)], t.at, ids, Canonical(ids, t.at))]
    && more == aliases + AliasesTo(ids, Canonical(ids, t.at))
  }

  /** Folding one identity's records settles exactly those records. */
  lemma GroupFolded(t: Table, left: set<string>, nodes: map<string, Resource>, aliases: map<string, string>, k: string,
                    next: map<string, Resource>, more: map<string, string>)
    requires Proper(t) && FoldedSoFar(t, left, nodes, aliases) && k in left
    requires GroupStep(t, k, nodes, aliases, next, more)
    ensures FoldedSoFar(t, left - {k}, next, more)
  {
    GroupKeys(t, nodes, aliases, k, next, more);
    forall id | id in t.at
      ensures FoldedAt(t, left - {k}, next, more, id)
    {
      assert FoldedAt(t, left, nodes, aliases, id);
      RecordFolded(t, left, nodes, aliases, k, next, more, id);
    }
  }

  lemma GroupKeys(t: Table, nodes: map<string, Resource>, aliases: map<string, string>, k: string,
                  next: map<string, Resource>, more: map<string, string>)
    requires Proper(t) && nodes.Keys == t.at.Keys && aliases.Keys <= t.at.Keys
    requires GroupStep(t, k, nodes, aliases, next, more)
    ensures next.Keys == t.at.Keys && more.Keys <= t.at.Keys
  {
  }

  lemma RecordFolded(t: Table, left: set<string>, nodes: map<string, Resource>, aliases: map<string, string>, k: string,
                     next: map<string, Resource>, more: map<string, string>, id: string)
    requires Proper(t) && nodes.Keys == t.at.Keys && next.Keys == t.at.Keys && id in t.at && k in left
    requires FoldedAt(t, left, nodes, aliases, id) && GroupStep(t, k, nodes, aliases, next, more)
    ensures FoldedAt(t, left - {k}, next, more, id)
  {
    var ids := IdsWith(t.order, t.at, k);
    var canonical := Canonical(ids, t.at);
    assert canonical in ids;
    if IsOf(t.at, id, k) {
      GroupTargets(t, k, id);
    } else {
      assert id !in ids && id != canonical && id !in AliasesTo(ids, canonical);
    }
  }

  lemma AbsorbLone(node: Resource, at: map<string, Resource>, id: string)
    ensures AbsorbAll(node, at, [id], id) == node
  {
    assert [id][..0] == [];
  }

  lemma LoneRecord(t: Table, left: set<string>, nodes: map<string, Resource>, aliases: map<string, string>, k: string)
    requires Proper(t) && FoldedSoFar(t, left, nodes, aliases) && k in left
    requires |IdsWith(t.order, t.at, k)| == 1
    ensures FoldedSoFar(t, left - {k}, nodes, aliases)
  {
    var ids := IdsWith(t.order, t.at, k);
    forall id | id in t.at
      ensures FoldedAt(t, left - {k}, nodes, aliases, id)
    {
      assert FoldedAt(t, left, nodes, aliases, id);
      if IsOf(t.at, id, k) {
        GroupTargets(t, k, id);
        assert ids == [id];
        AbsorbLone(t.at[id], t.at, id);
      }
    }
  }
}
