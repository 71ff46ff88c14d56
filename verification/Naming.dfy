/** Names made up from an id: which copy of a record names the node, and when a name that was read is lost. */
module Naming {
  import opened Resources
  import opened Absorb
  import opened Identity

  predicate IsUnnamed(r: Resource) {
    Truthy(MetaAt(r.metadata, UNNAMED))
  }

  lemma MarkOfAbsorbed(base: Resource, other: Resource)
    ensures IsUnnamed(Absorbed(base, other)) <==>
            IsUnnamed(other) && (UNNAMED in base.metadata ==> IsUnnamed(base))
    ensures Absorbed(base, other).name == if IsUnnamed(base) && !IsUnnamed(other) then other.name else base.name
    ensures UNNAMED in Absorbed(base, other).metadata <==>
            (UNNAMED in base.metadata || UNNAMED in other.metadata) && !Renamed(base, other)
  {
    AbsorbedAt(base, other, UNNAMED);
  }

  /** A record is left unnamed exactly when both were, unless the base says nothing of its name and the other's was made
      up. */
  lemma UnnamedWhenBothWere(base: Resource, other: Resource)
    ensures (IsUnnamed(Absorbed(base, other)) <==> IsUnnamed(base) && IsUnnamed(other))
            <==> !(UNNAMED !in base.metadata && IsUnnamed(other))
  {
    MarkOfAbsorbed(base, other);
  }

  // ---------------------------------------------------------------- over all copies

  /** The next copy is the directory's own record and everything before it stood in for it. */
  predicate TakesOver(merged: Resource, r: Resource) {
    IsStub(merged) && !IsStub(r)
  }

  /** The copy the merged record has its name from. */
  function Source(copies: seq<Resource>): (i: nat)
    requires copies != []
    ensures i < |copies|
  {
    if |copies| == 1 then 0
    else
      var rest, r := copies[..|copies| - 1], copies[|copies| - 1];
      var merged := MergedAll(rest);
      if TakesOver(merged, r) then if IsUnnamed(r) && !IsUnnamed(merged) then Source(rest) else |rest|
      else if IsUnnamed(merged) && !IsUnnamed(r) then |rest| else Source(rest)
  }

  lemma NameOfTwo(existing: Resource, r: Resource)
    ensures Merged(existing, r).name ==
            if TakesOver(existing, r) then if IsUnnamed(r) && !IsUnnamed(existing) then existing.name else r.name
            else if IsUnnamed(existing) && !IsUnnamed(r) then r.name else existing.name
  {
    if TakesOver(existing, r) { MarkOfAbsorbed(r, existing); } else { MarkOfAbsorbed(existing, r); }
  }

  lemma MergedOneMore(rest: seq<Resource>, r: Resource)
    requires rest != []
    ensures MergedAll(rest + [r]) == Merged(MergedAll(rest), r)
  {
    assert (rest + [r])[..|rest|] == rest;
  }

  lemma SourceOneMore(rest: seq<Resource>, r: Resource)
    requires rest != []
    ensures
      var merged := MergedAll(rest);
      Source(rest + [r]) ==
      if TakesOver(merged, r) then if IsUnnamed(r) && !IsUnnamed(merged) then Source(rest) else |rest|
      else if IsUnnamed(merged) && !IsUnnamed(r) then |rest| else Source(rest)
  {
    assert (rest + [r])[..|rest|] == rest;
  }

  lemma {:induction false} SourceNames(copies: seq<Resource>)
    requires copies != []
    ensures MergedAll(copies).name == copies[Source(copies)].name
    decreases |copies|
  {
    if |copies| > 1 {
      var rest, r := copies[..|copies| - 1], copies[|copies| - 1];
      assert copies == rest + [r];
      SourceNames(rest);
      SourceOneMore(rest, r);
      MergedOneMore(rest, r);
      NameOfTwo(MergedAll(rest), r);
    }
  }

  predicate SomeRead(copies: seq<Resource>) {
    exists i :: 0 <= i < |copies| && !IsUnnamed(copies[i])
  }

  predicate AllStandIns(copies: seq<Resource>) {
    forall i :: 0 <= i < |copies| ==> IsStub(copies[i])
  }

  /** Some copy's name was read, and the merged record has a made-up one. */
  predicate NameIsLost(copies: seq<Resource>)
    requires copies != []
  {
    SomeRead(copies) && IsUnnamed(copies[Source(copies)])
  }

  /** The first copy that is no stand-in is unnamed, stand-ins came before it, one of them read and the merge of them
      marked unnamed all the same, and no copy after it is read. */
  predicate LosesAt(copies: seq<Resource>, k: nat) {
    && 0 < k < |copies| && AllStandIns(copies[..k]) && !IsStub(copies[k]) && IsUnnamed(copies[k])
    && SomeRead(copies[..k]) && IsUnnamed(MergedAll(copies[..k])) && !SomeRead(copies[k + 1..])
  }

  predicate LosesAtSome(copies: seq<Resource>) {
    exists k: nat :: k < |copies| && LosesAt(copies, k)
  }

  lemma SomeReadOneMore(copies: seq<Resource>, r: Resource)
    ensures SomeRead(copies + [r]) <==> SomeRead(copies) || !IsUnnamed(r)
  {
    var all := copies + [r];
    if SomeRead(copies) {
      var i :| 0 <= i < |copies| && !IsUnnamed(copies[i]);
      assert all[i] == copies[i];
    }
    assert all[|copies|] == r;
  }

  lemma MarksOfTwo(existing: Resource, r: Resource)
    ensures IsStub(Merged(existing, r)) <==> IsStub(existing) && IsStub(r)
    ensures IsUnnamed(existing) && IsUnnamed(r) ==> IsUnnamed(Merged(existing, r))
  {
    if TakesOver(existing, r) {
      MarkOfAbsorbed(r, existing);
      AbsorbKeepsMarks(r, existing);
    } else {
      MarkOfAbsorbed(existing, r);
      AbsorbKeepsMarks(existing, r);
    }
  }

  lemma AllStandInsOneMore(rest: seq<Resource>, r: Resource)
    ensures AllStandIns(rest + [r]) <==> AllStandIns(rest) && IsStub(r)
  {
    var all := rest + [r];
    assert all[|rest|] == r;
    assert forall i :: 0 <= i < |rest| ==> all[i] == rest[i];
  }

  /** The merged record stands in only if every copy does. */
  lemma {:induction false} StandsIn(copies: seq<Resource>)
    requires copies != []
    ensures IsStub(MergedAll(copies)) <==> AllStandIns(copies)
    decreases |copies|
  {
    if |copies| > 1 {
      var rest, r := copies[..|copies| - 1], copies[|copies| - 1];
      assert copies == rest + [r];
      StandsIn(rest);
      StandsInOneMore(rest, r);
    }
  }

  lemma StandsInOneMore(rest: seq<Resource>, r: Resource)
    requires rest != [] && (IsStub(MergedAll(rest)) <==> AllStandIns(rest))
    ensures IsStub(MergedAll(rest + [r])) <==> AllStandIns(rest + [r])
  {
    MarksOfTwo(MergedAll(rest), r);
    MergedOneMore(rest, r);
    AllStandInsOneMore(rest, r);
  }

  /** Unless its name was read, the merged record is marked. */
  lemma {:induction false} UnreadIsMarked(copies: seq<Resource>)
    requires copies != []
    ensures IsUnnamed(copies[Source(copies)]) ==> IsUnnamed(MergedAll(copies))
    decreases |copies|
  {
    if |copies| > 1 {
      var rest, r := copies[..|copies| - 1], copies[|copies| - 1];
      assert copies == rest + [r];
      UnreadIsMarked(rest);
      SourceOneMore(rest, r);
      MarksOfTwo(MergedAll(rest), r);
      MergedOneMore(rest, r);
    }
  }

  /** Over any copies, a name that was read is lost exactly where some copy loses it so. */
  lemma {:induction false} LostExactlyThere(copies: seq<Resource>)
    requires copies != []
    ensures NameIsLost(copies) <==> LosesAtSome(copies)
    decreases |copies|
  {
    if |copies| > 1 {
      var rest, r := copies[..|copies| - 1], copies[|copies| - 1];
      assert copies == rest + [r];
      LostExactlyThere(rest);
      LostExactlyThereOneMore(rest, r);
    }
  }

  lemma LostExactlyThereOneMore(rest: seq<Resource>, r: Resource)
    requires rest != [] && (NameIsLost(rest) <==> LosesAtSome(rest))
    ensures NameIsLost(rest + [r]) <==> LosesAtSome(rest + [r])
  {
    if TakesOver(MergedAll(rest), r) {
      LostAtTakeover(rest, r);
    } else {
      LosesOneMore(rest, r);
      LostOneMore(rest, r);
    }
  }

  lemma LostOneMore(rest: seq<Resource>, r: Resource)
    requires rest != [] && !TakesOver(MergedAll(rest), r)
    ensures NameIsLost(rest + [r]) <==> NameIsLost(rest) && IsUnnamed(r)
  {
    SourceOneMore(rest, r);
    SomeReadOneMore(rest, r);
    UnreadIsMarked(rest);
  }

  lemma LostAtTakeover(rest: seq<Resource>, r: Resource)
    requires rest != [] && TakesOver(MergedAll(rest), r)
    ensures NameIsLost(rest + [r]) <==> LosesAtSome(rest + [r])
  {
    var copies := rest + [r];
    assert copies[..|rest|] == rest && copies[|rest| + 1..] == [];
    StandsIn(rest);
    UnreadIsMarked(rest);
    SourceOneMore(rest, r);
    SomeReadOneMore(rest, r);
    forall k: nat | k < |rest|
      ensures !LosesAt(copies, k)
    {
      assert copies[k] == rest[k];
    }
    assert LosesAtSome(copies) <==> LosesAt(copies, |rest|);
  }

  /** Another copy that does not take over leaves a name lost just where it was, unless it is read itself. */
  lemma LosesOneMore(rest: seq<Resource>, r: Resource)
    requires rest != [] && !TakesOver(MergedAll(rest), r)
    ensures LosesAtSome(rest + [r]) <==> LosesAtSome(rest) && IsUnnamed(r)
  {
    var copies := rest + [r];
    StandsIn(rest);
    forall k: nat | k < |rest|
      ensures LosesAt(copies, k) <==> LosesAt(rest, k) && IsUnnamed(r)
    {
      assert copies[..k] == rest[..k] && copies[k] == rest[k] && copies[k + 1..] == rest[k + 1..] + [r];
      SomeReadOneMore(rest[k + 1..], r);
    }
    assert copies[..|rest|] == rest;
    assert !LosesAt(copies, |rest|);
  }

  // ---------------------------------------------------------------- what the connectors write

  lemma {:induction false} MarkNeedsOne(copies: seq<Resource>)
    requires copies != [] && forall i :: 0 <= i < |copies| ==> !IsUnnamed(copies[i])
    ensures !IsUnnamed(MergedAll(copies))
    decreases |copies|
  {
    if |copies| > 1 {
      var rest, r := copies[..|copies| - 1], copies[|copies| - 1];
      MarkNeedsOne(rest);
      MarkOfAbsorbed(MergedAll(rest), r);
      MarkOfAbsorbed(r, MergedAll(rest));
    }
  }

  /** Where only the directory's own records are ever marked, as the connectors mark them, no read name is lost. */
  lemma UnmarkedStandInsLoseNothing(copies: seq<Resource>)
    requires copies != [] && forall i :: 0 <= i < |copies| && IsStub(copies[i]) ==> !IsUnnamed(copies[i])
    ensures SomeRead(copies) ==> !IsUnnamed(copies[Source(copies)])
  {
    LostExactlyThere(copies);
    forall k: nat | k < |copies|
      ensures !LosesAt(copies, k)
    {
      NotLostAt(copies, k);
    }
  }

  lemma NotLostAt(copies: seq<Resource>, k: nat)
    requires k < |copies| && forall i :: 0 <= i < |copies| && IsStub(copies[i]) ==> !IsUnnamed(copies[i])
    ensures !LosesAt(copies, k)
  {
    if k > 0 && AllStandIns(copies[..k]) {
      assert forall i :: 0 <= i < k ==> copies[..k][i] == copies[i];
      MarkNeedsOne(copies[..k]);
    }
  }

  /** A copy that mentions its mark has it. */
  predicate PlainMark(r: Resource) {
    UNNAMED in r.metadata ==> IsUnnamed(r)
  }

  lemma {:induction false} StandInsMarkedAsTheLast(copies: seq<Resource>)
    requires copies != [] && AllStandIns(copies) && forall i :: 0 <= i < |copies| ==> PlainMark(copies[i])
    ensures PlainMark(MergedAll(copies)) && (IsUnnamed(MergedAll(copies)) <==> IsUnnamed(copies[|copies| - 1]))
    decreases |copies|
  {
    if |copies| > 1 {
      var rest, r := copies[..|copies| - 1], copies[|copies| - 1];
      StandInsMarkedAsTheLast(rest);
      assert PlainMark(r) && IsStub(r);
      MarkOfAbsorbed(MergedAll(rest), r);
    }
  }

  /** A name is lost where, no stand-in recording a mark that is not set, the stand-in just before the first record is
      unnamed too. */
  predicate LosesAfterLast(copies: seq<Resource>, k: nat) {
    && 0 < k < |copies| && AllStandIns(copies[..k]) && !IsStub(copies[k]) && IsUnnamed(copies[k])
    && SomeRead(copies[..k]) && IsUnnamed(copies[k - 1]) && !SomeRead(copies[k + 1..])
  }

  /** The same by the copies alone. */
  lemma LostByTheCopies(copies: seq<Resource>, k: nat)
    requires forall i :: 0 <= i < |copies| && IsStub(copies[i]) ==> PlainMark(copies[i])
    ensures LosesAt(copies, k) <==> LosesAfterLast(copies, k)
  {
    if 0 < k < |copies| && AllStandIns(copies[..k]) {
      StandInsMarkedAsTheLast(copies[..k]);
      assert copies[..k][k - 1] == copies[k - 1];
    }
  }

  /** Every node of the merge has the name of one of its copies; it is made up although one was read exactly when the
      first record of its id is unnamed and takes over from stand-ins that were read and marked, no later copy being
      read. */
  lemma NodesLoseNames(t: Table, resources: seq<Resource>, id: string)
    requires AllMerged(t.at, resources) && id in t.at
    ensures
      var copies := CopiesWith(resources, id);
      && copies != [] && t.at[id].name == copies[Source(copies)].name
      && (NameIsLost(copies) <==> LosesAtSome(copies))
  {
    assert IsMerged(t.at[id], resources, id);
    SourceNames(CopiesWith(resources, id));
    LostExactlyThere(CopiesWith(resources, id));
  }

  /** A stand-in that was named, one that was not, and a directory record with a made-up name, in that order: the name
      that was read is lost. */
  lemma MadeUpNameWins(read: string, madeUp: string, id: string)
    ensures
      var named := Resource(id, OTHER("identity"), read, map[STUB := Flag(true)]);
      var stub := Resource(id, OTHER("identity"), madeUp, map[STUB := Flag(true), UNNAMED := Flag(true)]);
      var record := Resource(id, OTHER("identity"), madeUp, map[UNNAMED := Flag(true)]);
      NameIsLost([named, stub, record]) && MergedAll([named, stub, record]).name == madeUp
  {
    var named := Resource(id, OTHER("identity"), read, map[STUB := Flag(true)]);
    var stub := Resource(id, OTHER("identity"), madeUp, map[STUB := Flag(true), UNNAMED := Flag(true)]);
    var record := Resource(id, OTHER("identity"), madeUp, map[UNNAMED := Flag(true)]);
    var copies := [named, stub, record];
    assert copies[..2] == [named, stub] && copies[3..] == [];
    assert SomeRead(copies[..2]) by { assert !IsUnnamed(copies[..2][0]); }
    assert LosesAfterLast(copies, 2);
    LostByTheCopies(copies, 2);
    LostExactlyThere(copies);
    SourceNames(copies);
    assert !IsUnnamed(copies[0]);
  }
}
