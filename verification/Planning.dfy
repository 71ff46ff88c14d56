/** `connectors/planning.py`: which evidence to read now, and which to carry forward. */
module Planning {
  import opened Tasks
  import opened Capture

  /** A complete reading of an earlier scan. The carried mapping is an ordered list with distinct keys. */
  datatype Carried = Carried(key: Key, payload: Payload, collectedAt: int, itemCount: nat)

  function KeysOf(carried: seq<Carried>): set<Key> {
    set c | c in carried :: c.key
  }

  datatype Plan = Plan(collect: set<Key>, carried: seq<Carried>) {
    /** Carried wins over collected wherever both are claimed. */
    predicate Wants(key: Key) {
      key in collect && key !in KeysOf(carried)
    }

    /** The same plan seen through what one provider can produce. */
    function Restrict(offered: set<Key>): Plan {
      Plan(collect * offered, OnlyOffered(carried, offered))
    }
  }

  function OnlyOffered(carried: seq<Carried>, offered: set<Key>): (r: seq<Carried>)
    ensures forall c :: c in r <==> c in carried && c.key in offered
    ensures KeysOf(r) == KeysOf(carried) * offered
  {
    if carried == [] then []
    else if carried[0].key in offered then [carried[0]] + OnlyOffered(carried[1..], offered)
    else OnlyOffered(carried[1..], offered)
  }

  /** Each reading offered keeps its place: what comes before it is what was offered before it. */
  lemma {:induction false} OfferedInOrder(carried: seq<Carried>, offered: set<Key>, i: nat)
    requires i < |carried|
    ensures
      var before := OnlyOffered(carried[..i], offered);
      before + (if carried[i].key in offered then [carried[i]] else []) <= OnlyOffered(carried, offered)
    ensures |OnlyOffered(carried, offered)| <= |carried|
  {
    if i > 0 {
      assert carried[..i][0] == carried[0] && carried[..i][1..] == carried[1..][..i - 1];
      OfferedInOrder(carried[1..], offered, i - 1);
    } else {
      OfferedAtMost(carried[1..], offered);
    }
  }

  lemma {:induction false} OfferedAtMost(carried: seq<Carried>, offered: set<Key>)
    ensures |OnlyOffered(carried, offered)| <= |carried|
  {
    if carried != [] { OfferedAtMost(carried[1..], offered); }
  }
}
