/** The capture and the report a run fills in place, and the lists they share. */
module Report {
  import opened Wrappers
  import opened Lists
  import opened Capture
  import opened Coverage
  import opened Execution

  /** The merged `data`, the report's `results` and `payloads`, and which payload each list in `data` is still shared
      with. */
  class Collected {
    var data: Payload
    var results: seq<TaskResult>
    var payloads: map<string, Payload>
    var owner: map<string, string>

    constructor (initial: Payload)
      ensures data == initial && Empty()
    {
      data, results, payloads, owner := initial, [], map[], map[];
    }

    ghost predicate Empty()
      reads this
    {
      results == [] && payloads == map[] && owner == map[]
    }

    ghost function Held(): Ledger<string>
      reads this
    {
      Ledger(data, payloads, owner)
    }

    /** The state a run has reached: the results so far, and what posting their payloads one by one gives. */
    ghost predicate Reached(initial: Payload, s: RunState)
      reads this
    {
      results == s.results && Held() == PostAll(initial, s.log)
    }

    /** `_merge`, one data key at a time, in whatever order the payload lists them. */
    method Merge(e: Entry<string>)
      modifies this
      ensures Held() == Merged(old(Held()), e) && results == old(results)
    {
      if e.region.None? {
        data := data + e.payload;
        owner := owner + map k | k in e.payload :: e.scope;
        return;
      }
      ghost var l := Held();
      var left := e.payload.Keys;
      ghost var part := e.(payload := map[]);
      MergedNothing(l, part);
      while left != {}
        invariant results == old(results)
        invariant PartOf(part, e, left)
        invariant Held() == Merged(l, part)
      {
        var k :| k in left;
        ghost var before := part;
        part := e.(payload := part.payload[k := e.payload[k]]);
        PartGrows(before, part, e, left, k);
        MergedOneMore(l, before, part, k);
        Append(k, Block(e.region.value, e.payload[k]));
        left := left - {k};
      }
      PartIsAll(part, e);
      MergedScope(l, part, e);
    }

    /** Appends in place to the list at `k`, wherever else that list is held; or starts a new one. */
    method Append(k: string, block: Value)
      modifies this
      ensures results == old(results)
      ensures Held() == Appended(old(Held()), k, block)
    {
      if k in data && data[k].List? {
        var grown := List(data[k].items + [block]);
        if k in owner && owner[k] in payloads && k in payloads[owner[k]] {
          payloads := payloads[owner[k] := payloads[owner[k]][k := grown]];
        }
        data := data[k := grown];
      } else {
        assert [] + [block] == [block];
        data := data[k := List([block])];
        owner := owner - {k};
      }
    }

    method Record(r: Reading)
      modifies this
      ensures results == Put(old(results), r.result)
      ensures Held() == Recorded(old(Held()), Entry(NameOf(r.result), r.result.region, r.payload))
    {
      results := Put(results, r.result);
      if r.payload != map[] {
        payloads := payloads[NameOf(r.result) := r.payload];
      }
    }

    method MergeAndRecord(r: Reading, ghost initial: Payload, ghost s: RunState)
      requires Reached(initial, s)
      modifies this
      ensures Reached(initial, Execution.Record(s, r))
    {
      ghost var e := Entry(NameOf(r.result), r.result.region, r.payload);
      Merge(Entry(NameOf(r.result), r.result.region, r.payload));
      Record(r);
      PostSnoc(initial, s.log, e);
    }
  }

  /** `part` is `e` restricted to the data keys already merged. */
  ghost predicate PartOf(part: Entry<string>, e: Entry<string>, left: set<string>) {
    && left <= e.payload.Keys && part.region == e.region && part.payload.Keys == e.payload.Keys - left
    && forall k :: k in part.payload ==> part.payload[k] == e.payload[k]
  }

  lemma PartGrows(before: Entry<string>, part: Entry<string>, e: Entry<string>, left: set<string>, k: string)
    requires PartOf(before, e, left) && k in left && e.region.Some?
    requires part == e.(payload := before.payload[k := e.payload[k]])
    ensures PartOf(part, e, left - {k}) && OneMore(before, part, k) && part.payload[k] == e.payload[k]
  {
  }

  lemma PartIsAll(part: Entry<string>, e: Entry<string>)
    requires PartOf(part, e, {})
    ensures part.payload == e.payload
  {
  }

  predicate ListAt(data: Payload, k: string) {
    k in data && data[k].List?
  }

  function Appended(l: Ledger<string>, k: string, block: Value): Ledger<string> {
    var grown := Extended(Get(l.data, k), [block]).value;
    Ledger(l.data[k := grown],
           if ListAt(l.data, k) && k in l.owner && l.owner[k] in l.payloads && k in l.payloads[l.owner[k]]
           then l.payloads[l.owner[k] := l.payloads[l.owner[k]][k := grown]] else l.payloads,
           if ListAt(l.data, k) then l.owner else l.owner - {k})
  }

  lemma PostSnoc(initial: Payload, log: seq<Entry<string>>, e: Entry<string>)
    ensures PostAll(initial, log + [e]) == Post(PostAll(initial, log), e)
  {
    assert (log + [e])[..|log|] == log;
  }

  lemma SamePayloads(a: map<string, Payload>, b: map<string, Payload>)
    requires a.Keys == b.Keys
    requires forall s, k :: s in a ==> Get(a[s], k) == Get(b[s], k)
    ensures a == b
  {
    forall s | s in a
      ensures a[s] == b[s]
    {
      SameAtEveryKey(a[s], b[s]);
    }
  }

  /** What one merge does to each recorded value and each owner. */
  lemma MergedPointwise(l: Ledger<string>, e: Entry<string>, s: string, k: string)
    requires e.region.Some?
    ensures Merged(l, e).payloads.Keys == l.payloads.Keys
    ensures s in l.payloads ==>
              Get(Merged(l, e).payloads[s], k) ==
              if k in l.payloads[s] && Shows(l, e, s, k) then Get(Merged(l, e).data, k) else Get(l.payloads[s], k)
    ensures Get(Merged(l, e).owner, k) ==
            if k in e.payload && !(k in l.data && l.data[k].List?) then None else Get(l.owner, k)
  {
  }

  lemma SameOwner(a: map<string, string>, b: map<string, string>)
    requires forall k :: Get(a, k) == Get(b, k)
    ensures a == b
  {
    forall k
      ensures k in a <==> k in b
      ensures k in a ==> a[k] == b[k]
    {
      assert Get(a, k) == Get(b, k);
    }
  }

  lemma MergedNothing(l: Ledger<string>, e: Entry<string>)
    requires e.payload == map[] && e.region.Some?
    ensures Merged(l, e) == l
  {
    forall s, k
      ensures s in l.payloads ==> Get(Merged(l, e).payloads[s], k) == Get(l.payloads[s], k)
      ensures Get(Merged(l, e).owner, k) == Get(l.owner, k)
    {
      MergedPointwise(l, e, s, k);
    }
    MergedPointwise(l, e, "", "");
    SamePayloads(Merged(l, e).payloads, l.payloads);
    SameOwner(Merged(l, e).owner, l.owner);
    assert Merged(l, e).data == l.data;
  }

  lemma MergedScope(l: Ledger<string>, part: Entry<string>, e: Entry<string>)
    requires part.region == e.region && e.region.Some? && part.payload == e.payload
    ensures Merged(l, part) == Merged(l, e)
  {
    assert Merged(l, part).data == Merged(l, e).data;
    forall k
      ensures Get(Merged(l, part).owner, k) == Get(Merged(l, e).owner, k)
    {
      MergedPointwise(l, e, "", k);
      MergedPointwise(l, part, "", k);
    }
    MergedScopePayloads(l, part, e);
    SameOwner(Merged(l, part).owner, Merged(l, e).owner);
  }

  lemma MergedScopePayloads(l: Ledger<string>, part: Entry<string>, e: Entry<string>)
    requires part.region == e.region && e.region.Some? && part.payload == e.payload
    ensures Merged(l, part).payloads == Merged(l, e).payloads
  {
    MergedPointwise(l, e, "", "");
    MergedPointwise(l, part, "", "");
    forall s, k
      ensures s in l.payloads ==> Get(Merged(l, part).payloads[s], k) == Get(Merged(l, e).payloads[s], k)
    {
      MergedPointwise(l, e, s, k);
      MergedPointwise(l, part, s, k);
    }
    SamePayloads(Merged(l, part).payloads, Merged(l, e).payloads);
  }

  ghost predicate OneMore(before: Entry<string>, part: Entry<string>, k: string) {
    && before.region.Some? && part.region == before.region
    && k !in before.payload && k in part.payload && part.payload == before.payload[k := part.payload[k]]
  }

  /** Merging one more data key is appending its block to what the others left. */
  lemma MergedOneMore(l: Ledger<string>, before: Entry<string>, part: Entry<string>, k: string)
    requires OneMore(before, part, k)
    ensures Merged(l, part) == Appended(Merged(l, before), k, Block(part.region.value, part.payload[k]))
  {
    OneMoreDatas(l, before, part, k);
    OneMorePayloads(l, before, part, k);
    OneMoreOwners(l, before, part, k);
  }

  lemma OneMoreDatas(l: Ledger<string>, before: Entry<string>, part: Entry<string>, k: string)
    requires OneMore(before, part, k)
    ensures Merged(l, part).data == Appended(Merged(l, before), k, Block(part.region.value, part.payload[k])).data
  {
    var now, want := Merged(l, part).data,
        Appended(Merged(l, before), k, Block(part.region.value, part.payload[k])).data;
    forall x
      ensures Get(now, x) == Get(want, x)
    {
      OneMoreData(l, before, part, k, x);
    }
    SameAtEveryKey(now, want);
  }

  lemma OneMorePayloads(l: Ledger<string>, before: Entry<string>, part: Entry<string>, k: string)
    requires OneMore(before, part, k)
    ensures
      Merged(l, part).payloads == Appended(Merged(l, before), k, Block(part.region.value, part.payload[k])).payloads
  {
    var now, want :=
      Merged(l, part).payloads, Appended(Merged(l, before), k, Block(part.region.value, part.payload[k])).payloads;
    OneMoreScopes(l, before, part, k);
    forall s, x | s in now
      ensures Get(now[s], x) == Get(want[s], x)
    {
      OneMorePayload(l, before, part, k, s, x);
    }
    SamePayloads(now, want);
  }

  lemma OneMoreScopes(l: Ledger<string>, before: Entry<string>, part: Entry<string>, k: string)
    requires OneMore(before, part, k)
    ensures Merged(l, part).payloads.Keys ==
            Appended(Merged(l, before), k, Block(part.region.value, part.payload[k])).payloads.Keys
  {
  }

  lemma OneMoreOwners(l: Ledger<string>, before: Entry<string>, part: Entry<string>, k: string)
    requires OneMore(before, part, k)
    ensures Merged(l, part).owner == Appended(Merged(l, before), k, Block(part.region.value, part.payload[k])).owner
  {
    var now, want := Merged(l, part).owner,
        Appended(Merged(l, before), k, Block(part.region.value, part.payload[k])).owner;
    forall x
      ensures Get(now, x) == Get(want, x)
    {
      OneMoreOwner(l, before, part, k, x);
    }
    SameOwner(now, want);
  }

  lemma OneMoreData(l: Ledger<string>, before: Entry<string>, part: Entry<string>, k: string, x: string)
    requires OneMore(before, part, k)
    ensures
      var block := Block(part.region.value, part.payload[k]);
      Get(Merged(l, part).data, x) == Get(Appended(Merged(l, before), k, block).data, x)
    ensures Get(Merged(l, before).data, x) == if x == k then Get(l.data, x) else Get(Merged(l, part).data, x)
  {
    MergeAt(l.data, before, x);
    MergeAt(l.data, part, x);
    MergeAt(l.data, before, k);
  }

  lemma AppendedPointwise(l: Ledger<string>, k: string, block: Value, s: string, x: string)
    ensures Appended(l, k, block).payloads.Keys == l.payloads.Keys
    ensures s in l.payloads ==>
              Get(Appended(l, k, block).payloads[s], x) ==
              if x == k && k in l.payloads[s] && ListAt(l.data, k) && Get(l.owner, k) == Some(s)
              then Get(Appended(l, k, block).data, k) else Get(l.payloads[s], x)
    ensures Get(Appended(l, k, block).owner, x) ==
            if x == k && !ListAt(l.data, k) then None else Get(l.owner, x)
  {
  }

  lemma OneMoreOwner(l: Ledger<string>, before: Entry<string>, part: Entry<string>, k: string, x: string)
    requires OneMore(before, part, k)
    ensures Get(Merged(l, part).owner, x) ==
            Get(Appended(Merged(l, before), k, Block(part.region.value, part.payload[k])).owner, x)
  {
    OneMoreData(l, before, part, k, k);
    ListAtUnmoved(Merged(l, before).data, l.data, k);
    MergedPointwise(l, before, "", x);
    MergedPointwise(l, part, "", x);
    AppendedPointwise(Merged(l, before), k, Block(part.region.value, part.payload[k]), "", x);
  }

  lemma OneMorePayload(l: Ledger<string>, before: Entry<string>, part: Entry<string>, k: string, s: string, x: string)
    requires OneMore(before, part, k) && s in l.payloads
    ensures Get(Merged(l, part).payloads[s], x) ==
            Get(Appended(Merged(l, before), k, Block(part.region.value, part.payload[k])).payloads[s], x)
  {
    var was := Merged(l, before);
    OneMoreData(l, before, part, k, x);
    OneMoreData(l, before, part, k, k);
    ListAtUnmoved(was.data, l.data, k);
    MergedPointwise(l, before, s, x);
    MergedPointwise(l, before, s, k);
    MergedPointwise(l, part, s, x);
    AppendedPointwise(was, k, Block(part.region.value, part.payload[k]), s, x);
    assert Shows(l, part, s, x) <==>
           if x == k then ListAt(l.data, k) && Get(l.owner, k) == Some(s) else Shows(l, before, s, x);
  }

  lemma ListAtUnmoved(a: Payload, b: Payload, k: string)
    requires Get(a, k) == Get(b, k)
    ensures ListAt(a, k) == ListAt(b, k)
  {
  }
}
