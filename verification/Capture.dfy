/** What a run collects: the merged capture, the payloads recorded beside it, and the lists they share.
    `data.update(payload)` stores the payload's own objects in the capture, and a later regional task appends to
    whatever list it finds there. So a list a global task returned is one object with two names: the capture's and the
    recorded payload's. `owner` keeps which payload a data key's value still belongs to, which is what makes an append
    visible through both. */
module Capture {
  import opened Wrappers

  datatype Value = Scalar(text: string) | List(items: seq<Value>) | Dict(entries: map<string, Value>)

  type Payload = map<string, Value>

  /** One task's output on its way into the capture, under the name of its reading. */
  datatype Entry<S> = Entry(scope: S, region: Option<string>, payload: Payload)

  datatype Ledger<S(==)> = Ledger(data: Payload, payloads: map<S, Payload>, owner: map<string, S>)

  function Block(region: string, items: Value): Value {
    Dict(map["region" := Scalar(region), "items" := items])
  }

  function Get<V>(m: map<string, V>, key: string): Option<V> {
    if key in m then Some(m[key]) else None
  }

  /** A value with blocks appended: to its list if it is one, to a new list otherwise. */
  function Extended(base: Option<Value>, blocks: seq<Value>): Option<Value> {
    if blocks == [] then base
    else Some(List((if base.Some? && base.value.List? then base.value.items else []) + blocks))
  }

  /** `_merge`, as a function of the capture's value. */
  function Merge<S(==)>(data: Payload, e: Entry<S>): (r: Payload)
    ensures r.Keys == data.Keys + e.payload.Keys
  {
    match e.region
    case None => data + e.payload
    case Some(region) =>
      data + map k | k in e.payload :: Extended(Get(data, k), [Block(region, e.payload[k])]).value
  }

  /** Whether appending `e`'s block for `k` changes the payload recorded under `scope` as well. */
  predicate Shows<S(==)>(l: Ledger<S>, e: Entry<S>, scope: S, k: string) {
    k in e.payload && k in l.owner && l.owner[k] == scope && k in l.data && l.data[k].List?
  }

  /** `_merge` with the sharing it causes: an append shows in the payload that owns the list. */
  function Merged<S(==)>(l: Ledger<S>, e: Entry<S>): Ledger<S> {
    var data := Merge(l.data, e);
    match e.region
    case None => Ledger(data, l.payloads, l.owner + map k | k in e.payload :: e.scope)
    case Some(_) =>
      Ledger(data,
             map s | s in l.payloads ::
               map k | k in l.payloads[s] :: if Shows(l, e, s, k) then data[k] else l.payloads[s][k],
             map k | k in l.owner && (k in e.payload ==> k in l.data && l.data[k].List?) :: l.owner[k])
  }

  /** `record` keeps a payload that is not empty. */
  function Recorded<S(==)>(l: Ledger<S>, e: Entry<S>): Ledger<S> {
    if e.payload == map[] then l else l.(payloads := l.payloads[e.scope := e.payload])
  }

  function Post<S(==)>(l: Ledger<S>, e: Entry<S>): Ledger<S> {
    Recorded(Merged(l, e), e)
  }

  function PostAll<S(==)>(data: Payload, log: seq<Entry<S>>): Ledger<S> {
    if log == [] then Ledger(data, map[], map[])
    else Post(PostAll(data, log[..|log| - 1]), log[|log| - 1])
  }

  /** Folding `_merge` over a list of outputs. */
  function Rebuild<S(==)>(data: Payload, log: seq<Entry<S>>): Payload {
    if log == [] then data
    else Merge(Rebuild(data, log[..|log| - 1]), log[|log| - 1])
  }

  /** The outputs of a log as they stand recorded now. */
  function Refiled<S(==)>(log: seq<Entry<S>>, payloads: map<S, Payload>): (r: seq<Entry<S>>)
    ensures |r| == |log|
  {
    seq(|log|, i requires 0 <= i < |log| =>
      log[i].(payload := if log[i].scope in payloads then payloads[log[i].scope] else map[]))
  }

  // ---------------------------------------------------------------- one data key at a time

  /** The last output that replaced a data key whole, or -1. */
  function LastWhole<S(==)>(log: seq<Entry<S>>, k: string): (i: int)
    ensures -1 <= i < |log|
    ensures i >= 0 ==> log[i].region.None? && k in log[i].payload
  {
    if log == [] then -1
    else if log[|log| - 1].region.None? && k in log[|log| - 1].payload then |log| - 1
    else LastWhole(log[..|log| - 1], k)
  }

  /** The regional blocks a data key received since it was last replaced whole. */
  function Blocks<S(==)>(log: seq<Entry<S>>, k: string): seq<Value> {
    if log == [] then []
    else
      var e := log[|log| - 1];
      if k !in e.payload then Blocks(log[..|log| - 1], k)
      else match e.region
        case None => []
        case Some(region) => Blocks(log[..|log| - 1], k) + [Block(region, e.payload[k])]
  }

  function Base<S(==)>(data: Payload, log: seq<Entry<S>>, k: string): Option<Value> {
    if LastWhole(log, k) >= 0 then Some(log[LastWhole(log, k)].payload[k]) else Get(data, k)
  }

  lemma ExtendedTwice(base: Option<Value>, blocks: seq<Value>, more: seq<Value>)
    ensures Extended(Extended(base, blocks), more) == Extended(base, blocks + more)
  {
    var items := if base.Some? && base.value.List? then base.value.items else [];
    assert (items + blocks) + more == items + (blocks + more);
    assert blocks + [] == blocks && [] + more == more;
  }

  lemma MergeAt<S>(data: Payload, e: Entry<S>, k: string)
    ensures Get(Merge(data, e), k) ==
            if k !in e.payload then Get(data, k)
            else if e.region.None? then Some(e.payload[k])
            else Extended(Get(data, k), [Block(e.region.value, e.payload[k])])
  {
  }

  /** What a reading leaves in the capture: a global one its value as it is; a regional one a block of its own, naming
      the region, at the end of the list there or of a new one. No other data key changes. */
  lemma MergeLeaves<S>(data: Payload, e: Entry<S>, k: string)
    ensures k in Merge(data, e) <==> k in data || k in e.payload
    ensures k !in e.payload && k in data ==> Merge(data, e)[k] == data[k]
    ensures k in e.payload && e.region == None ==> Merge(data, e)[k] == e.payload[k]
    ensures k in e.payload && e.region.Some? ==>
              var block := Dict(map["region" := Scalar(e.region.value), "items" := e.payload[k]]);
              Merge(data, e)[k] == List(if k in data && data[k].List? then data[k].items + [block] else [block])
  {
    if k in e.payload && e.region.Some? {
      var block := Block(e.region.value, e.payload[k]);
      assert [] + [block] == [block];
      MergeAt(data, e, k);
    }
  }

  /** Folding keeps the last whole value of each data key and the blocks added since. */
  lemma {:induction false} RebuildAt<S>(data: Payload, log: seq<Entry<S>>, k: string)
    ensures Get(Rebuild(data, log), k) == Extended(Base(data, log, k), Blocks(log, k))
  {
    if log != [] {
      var rest := log[..|log| - 1];
      var e := log[|log| - 1];
      RebuildAt(data, rest, k);
      MergeAt(Rebuild(data, rest), e, k);
      assert LastWhole(rest, k) >= 0 ==> rest[LastWhole(rest, k)] == log[LastWhole(rest, k)];
      if k in e.payload && e.region.Some? {
        ExtendedTwice(Base(data, rest, k), Blocks(rest, k), [Block(e.region.value, e.payload[k])]);
      }
    }
  }

  ghost predicate DistinctEntries<S>(log: seq<Entry<S>>) {
    forall i, j :: 0 <= i < j < |log| ==> log[i].scope != log[j].scope
  }

  /** A recorded payload holds its task's data keys; a regional one exactly as the task returned it. */
  ghost predicate FiledAt<S>(payloads: map<S, Payload>, e: Entry<S>) {
    && (e.scope in payloads <==> e.payload != map[])
    && (e.scope in payloads ==> payloads[e.scope].Keys == e.payload.Keys)
    && (e.scope in payloads && e.region.Some? ==> payloads[e.scope] == e.payload)
  }

  /** Every entry is filed so, and nothing else is. */
  ghost predicate Filed<S>(log: seq<Entry<S>>, payloads: map<S, Payload>) {
    && (forall i :: 0 <= i < |log| ==> FiledAt(payloads, log[i]))
    && (forall s {:trigger Names(log, s)} :: s in payloads ==> Names(log, s))
  }

  ghost predicate Names<S>(log: seq<Entry<S>>, scope: S) {
    exists i :: 0 <= i < |log| && log[i].scope == scope
  }

  /** What the record of a data key's last whole value shows: the capture's value while they share it. */
  ghost predicate Shared<S>(log: seq<Entry<S>>, l: Ledger<S>, k: string) {
    var i := LastWhole(log, k);
    && (k in l.owner ==> i >= 0 && l.owner[k] == log[i].scope)
    && (i >= 0 ==> log[i].scope in l.payloads && k in l.payloads[log[i].scope] && k in l.data)
    && (i >= 0 ==> Some(l.data[k]) == Extended(Some(log[i].payload[k]), Blocks(log, k)))
    && (i >= 0 ==> l.payloads[log[i].scope][k] == if log[i].payload[k].List? then l.data[k] else log[i].payload[k])
    && (i >= 0 && log[i].payload[k].List? ==> k in l.owner)
    && (i >= 0 && k in l.owner && Blocks(log, k) != [] ==> log[i].payload[k].List?)
  }

  ghost predicate AllShared<S>(log: seq<Entry<S>>, l: Ledger<S>) {
    forall k :: Shared(log, l, k)
  }

  ghost predicate Kept<S>(data: Payload, log: seq<Entry<S>>) {
    var l := PostAll(data, log);
    l.data == Rebuild(data, log) && Filed(log, l.payloads) && AllShared(log, l)
  }

  /** Whatever was posted, the capture is the fold of the outputs, and the records say what they should. */
  lemma {:induction false} LedgerKeeps<S>(data: Payload, log: seq<Entry<S>>)
    requires DistinctEntries(log)
    ensures Kept(data, log)
  {
    if log == [] {
      assert AllShared(log, PostAll(data, log));
    } else {
      LedgerKeeps(data, log[..|log| - 1]);
      assert log == log[..|log| - 1] + [log[|log| - 1]];
      PostKeeps(data, log[..|log| - 1], log[|log| - 1]);
    }
  }

  lemma PostKeeps<S>(data: Payload, rest: seq<Entry<S>>, e: Entry<S>)
    requires DistinctEntries(rest + [e]) && Kept(data, rest)
    ensures Kept(data, rest + [e])
  {
    var log := rest + [e];
    assert log[..|log| - 1] == rest && log[|log| - 1] == e;
    NewScope(rest, e);
    PostFiles(rest, e, PostAll(data, rest));
    PostAllShares(rest, e, PostAll(data, rest));
  }

  lemma NewScope<S>(rest: seq<Entry<S>>, e: Entry<S>)
    requires DistinctEntries(rest + [e])
    ensures DistinctEntries(rest)
    ensures forall i :: 0 <= i < |rest| ==> rest[i].scope != e.scope
  {
    var log := rest + [e];
    assert log[|rest|] == e && forall i :: 0 <= i < |rest| ==> log[i] == rest[i];
  }

  lemma PostAllShares<S>(rest: seq<Entry<S>>, e: Entry<S>, l: Ledger<S>)
    requires forall i :: 0 <= i < |rest| ==> rest[i].scope != e.scope
    requires AllShared(rest, l)
    ensures AllShared(rest + [e], Post(l, e))
  {
    forall k
      ensures Shared(rest + [e], Post(l, e), k)
    {
      PostShares(rest, e, l, k);
    }
  }

  /** What one post does to the payload recorded under another scope. */
  lemma PostPayload<S>(l: Ledger<S>, e: Entry<S>, s: S)
    requires s in l.payloads && s != e.scope
    ensures s in Post(l, e).payloads && Post(l, e).payloads[s].Keys == l.payloads[s].Keys
    ensures forall k :: k in l.payloads[s] ==>
              Post(l, e).payloads[s][k] ==
              if e.region.Some? && Shows(l, e, s, k) then Post(l, e).data[k] else l.payloads[s][k]
  {
  }

  lemma PostOwner<S>(l: Ledger<S>, e: Entry<S>, k: string)
    ensures k in e.payload && e.region.None? ==> k in Post(l, e).owner && Post(l, e).owner[k] == e.scope
    ensures k !in e.payload ==> Get(Post(l, e).owner, k) == Get(l.owner, k)
    ensures k in e.payload && e.region.Some? ==>
              Get(Post(l, e).owner, k) ==
              if k in l.data && l.data[k].List? then Get(l.owner, k) else None
  {
  }

  lemma PostFiles<S>(rest: seq<Entry<S>>, e: Entry<S>, l: Ledger<S>)
    requires forall i :: 0 <= i < |rest| ==> rest[i].scope != e.scope
    requires DistinctEntries(rest) && Filed(rest, l.payloads) && AllShared(rest, l)
    ensures Filed(rest + [e], Post(l, e).payloads)
  {
    var log := rest + [e];
    var next := Post(l, e);
    PostScopes(rest, e, l);
    forall i | 0 <= i < |log|
      ensures FiledAt(next.payloads, log[i])
    {
      if i < |rest| {
        PostFilesAt(rest, e, l, i);
      } else {
        PostFilesNew(l, e);
      }
    }
    forall s | s in next.payloads
      ensures Names(log, s)
    {
      NamesGrow(rest, e, s);
    }
  }

  lemma PostScopes<S>(rest: seq<Entry<S>>, e: Entry<S>, l: Ledger<S>)
    requires forall i :: 0 <= i < |rest| ==> rest[i].scope != e.scope
    requires Filed(rest, l.payloads)
    ensures e.scope !in l.payloads
    ensures Post(l, e).payloads.Keys == l.payloads.Keys + if e.payload == map[] then {} else {e.scope}
  {
    assert !Names(rest, e.scope);
  }

  lemma PostFilesNew<S>(l: Ledger<S>, e: Entry<S>)
    requires e.scope !in l.payloads
    ensures FiledAt(Post(l, e).payloads, e)
  {
  }

  lemma PostFilesAt<S>(rest: seq<Entry<S>>, e: Entry<S>, l: Ledger<S>, i: nat)
    requires i < |rest| && rest[i].scope != e.scope && FiledAt(l.payloads, rest[i])
    requires DistinctEntries(rest) && AllShared(rest, l)
    requires Post(l, e).payloads.Keys == l.payloads.Keys + if e.payload == map[] then {} else {e.scope}
    ensures FiledAt(Post(l, e).payloads, rest[i])
  {
    if rest[i].scope in l.payloads {
      PostPayload(l, e, rest[i].scope);
      if rest[i].region.Some? {
        RegionalUntouched(rest, e, l, i);
      }
    }
  }

  lemma NamesGrow<S>(rest: seq<Entry<S>>, e: Entry<S>, s: S)
    ensures s == e.scope || Names(rest, s) ==> Names(rest + [e], s)
  {
    var log := rest + [e];
    if s == e.scope {
      assert log[|rest|].scope == s;
    } else if Names(rest, s) {
      var i :| 0 <= i < |rest| && rest[i].scope == s;
      assert log[i].scope == s;
    }
  }

  lemma RegionalUntouched<S>(rest: seq<Entry<S>>, e: Entry<S>, l: Ledger<S>, i: nat)
    requires i < |rest| && rest[i].scope in l.payloads && rest[i].scope != e.scope
    requires rest[i].region.Some? && l.payloads[rest[i].scope] == rest[i].payload
    requires DistinctEntries(rest)
    requires AllShared(rest, l)
    ensures rest[i].scope in Post(l, e).payloads && Post(l, e).payloads[rest[i].scope] == rest[i].payload
  {
    var s := rest[i].scope;
    PostPayload(l, e, s);
    forall k | k in l.payloads[s]
      ensures !Shows(l, e, s, k)
    {
      assert Shared(rest, l, k);
      assert k in l.owner ==> LastWhole(rest, k) != i;
    }
  }

  lemma PostShares<S>(rest: seq<Entry<S>>, e: Entry<S>, l: Ledger<S>, k: string)
    requires forall i :: 0 <= i < |rest| ==> rest[i].scope != e.scope
    requires Shared(rest, l, k)
    ensures Shared(rest + [e], Post(l, e), k)
  {
    var log := rest + [e];
    assert log[..|log| - 1] == rest && log[|log| - 1] == e;
    MergeAt(l.data, e, k);
    PostOwner(l, e, k);
    var i := LastWhole(rest, k);
    if k in e.payload && e.region.None? {
      assert LastWhole(log, k) == |rest|;
    } else {
      assert LastWhole(log, k) == i;
      if i >= 0 {
        assert log[i] == rest[i];
        PostPayload(l, e, rest[i].scope);
        if k in e.payload {
          ExtendedTwice(Some(log[i].payload[k]), Blocks(rest, k), [Block(e.region.value, e.payload[k])]);
        }
      }
    }
  }

  // ---------------------------------------------------------------- when the capture can be rebuilt

  /** Some data key's last whole value is a list that regional blocks were then appended to. */
  ghost predicate Tangled<S>(log: seq<Entry<S>>) {
    exists k :: TangledAt(log, k)
  }

  ghost predicate TangledAt<S>(log: seq<Entry<S>>, k: string) {
    LastWhole(log, k) >= 0 && log[LastWhole(log, k)].payload[k].List? && Blocks(log, k) != []
  }

  lemma {:induction false} RefiledAlike<S>(log: seq<Entry<S>>, payloads: map<S, Payload>, k: string)
    requires Filed(log, payloads)
    ensures LastWhole(Refiled(log, payloads), k) == LastWhole(log, k)
    ensures Blocks(Refiled(log, payloads), k) == Blocks(log, k)
  {
    AlikeLogs(log, Refiled(log, payloads), k);
  }

  lemma {:induction false} AlikeLogs<S>(log: seq<Entry<S>>, other: seq<Entry<S>>, k: string)
    requires |log| == |other|
    requires forall i :: 0 <= i < |log| ==>
               log[i].region == other[i].region && log[i].payload.Keys == other[i].payload.Keys
    requires forall i :: 0 <= i < |log| && log[i].region.Some? ==> log[i].payload == other[i].payload
    ensures LastWhole(other, k) == LastWhole(log, k)
    ensures Blocks(other, k) == Blocks(log, k)
  {
    if log != [] {
      AlikeLogs(log[..|log| - 1], other[..|log| - 1], k);
    }
  }

  /** Folding `_merge` over the recorded payloads gives the capture back exactly when no list was both returned whole by
      one task and appended to by a later regional one. */
  lemma RebuildsUnlessTangled<S>(data: Payload, log: seq<Entry<S>>)
    requires DistinctEntries(log)
    ensures Rebuild(data, Refiled(log, PostAll(data, log).payloads)) == PostAll(data, log).data <==> !Tangled(log)
  {
    var l := PostAll(data, log);
    LedgerKeeps(data, log);
    var again := Rebuild(data, Refiled(log, l.payloads));
    forall k
      ensures Get(again, k) == Get(l.data, k) <==> !TangledAt(log, k)
    {
      assert Shared(log, l, k);
      RebuildKey(data, log, l, k);
    }
    SameAtEveryKey(again, l.data);
  }

  lemma SameAtEveryKey(a: Payload, b: Payload)
    ensures a == b <==> forall k :: Get(a, k) == Get(b, k)
  {
    if forall k :: Get(a, k) == Get(b, k) {
      forall k
        ensures k in a <==> k in b
        ensures k in a ==> a[k] == b[k]
      {
        assert Get(a, k) == Get(b, k);
      }
    }
  }

  lemma RebuildKey<S>(data: Payload, log: seq<Entry<S>>, l: Ledger<S>, k: string)
    requires l.data == Rebuild(data, log) && Filed(log, l.payloads) && Shared(log, l, k)
    ensures Get(Rebuild(data, Refiled(log, l.payloads)), k) == Get(l.data, k) <==> !TangledAt(log, k)
  {
    var other := Refiled(log, l.payloads);
    RebuildAt(data, log, k);
    RebuildAt(data, other, k);
    RefiledAlike(log, l.payloads, k);
    var i := LastWhole(log, k);
    if i >= 0 {
      assert Base(data, log, k) == Some(log[i].payload[k]);
      var v, blocks := l.payloads[log[i].scope][k], Blocks(log, k);
      assert Base(data, other, k) == Some(v);
      if v.List? && blocks != [] {
        assert |Extended(Some(v), blocks).value.items| == |v.items| + |blocks|;
      }
    }
  }

  /** Where no data key is written both whole and by region, nothing tangles. */
  lemma SeparateKeysNeverTangle<S>(log: seq<Entry<S>>)
    requires forall i, j, k :: 0 <= i < |log| && 0 <= j < |log| && k in log[i].payload && k in log[j].payload ==>
                                 (log[i].region.None? <==> log[j].region.None?)
    ensures !Tangled(log)
  {
    forall k
      ensures !TangledAt(log, k)
    {
      if Blocks(log, k) != [] {
        var j := BlockFrom(log, k);
      }
    }
  }

  lemma {:induction false} BlockFrom<S>(log: seq<Entry<S>>, k: string) returns (j: nat)
    requires Blocks(log, k) != []
    ensures j < |log| && k in log[j].payload && log[j].region.Some?
  {
    if k in log[|log| - 1].payload {
      j := |log| - 1;
    } else {
      j := BlockFrom(log[..|log| - 1], k);
    }
  }

  /** A list returned whole, then appended to: the record shows the block, and merging counts it twice. */
  lemma SharedListIsCountedTwice<S>(a: S, b: S, k: string, items: seq<Value>, region: string, v: Value)
    requires a != b
    ensures
      var log := [Entry(a, None, map[k := List(items)]), Entry(b, Some(region), map[k := v])];
      var l := PostAll(map[], log);
      && a in l.payloads && k in l.payloads[a] && l.payloads[a][k] == List(items + [Block(region, v)])
      && Rebuild(map[], Refiled(log, l.payloads)) != l.data
  {
    var first, second := Entry(a, None, map[k := List(items)]), Entry(b, Some(region), map[k := v]);
    var log := [first, second];
    var l := PostAll(map[], log);
    assert DistinctEntries(log);
    LedgerKeeps(map[], log);
    TwoEntries(first, second, k);
    assert Shared(log, l, k);
    assert Filed(log, l.payloads);
    assert TangledAt(log, k);
    RebuildsUnlessTangled(map[], log);
  }

  lemma TwoEntries<S>(first: Entry<S>, second: Entry<S>, k: string)
    requires first.region.None? && second.region.Some? && k in first.payload && k in second.payload
    ensures LastWhole([first, second], k) == 0
    ensures Blocks([first, second], k) == [Block(second.region.value, second.payload[k])]
  {
    var log := [first, second];
    assert log[..1] == [first] && [first][..0] == [];
    assert LastWhole([first], k) == 0 && Blocks([first], k) == [];
  }
}
