/** The order the estate map lists its boxes and the links between them in. */
module EstateListing {
  import opened Text
  import opened Lists
  import opened Resources
  import opened Sorting
  import opened Boxes
  import opened Estate

  function RelationshipText(r: Relationship): string {
    match r
    case CONTAINS => "contains"
    case HAS_IDENTITY => "has_identity"
    case GRANTS_ROLE => "grants_role"
    case CAN_GRANT_ROLES => "can_grant_roles"
    case MEMBER_OF => "member_of"
    case CAN_ACT_AS => "can_act_as"
    case CAN_TAKE_OVER => "can_take_over"
    case ELIGIBLE_FOR => "eligible_for"
    case ANOTHER(name) => name
  }

  /** Texts compared one after the other. */
  predicate TextsLe(a: seq<string>, b: seq<string>) {
    a == [] || (b != [] && if a[0] == b[0] then TextsLe(a[1..], b[1..]) else TextLe(a[0], b[0]))
  }

  lemma {:induction false} TextsLeTotal(a: seq<string>, b: seq<string>)
    ensures TextsLe(a, b) || TextsLe(b, a)
  {
    if a != [] && b != [] {
      TextsLeTotal(a[1..], b[1..]);
      TextLeTotal(a[0], b[0]);
    }
  }

  lemma {:induction false} TextsLeTransitive(a: seq<string>, b: seq<string>, c: seq<string>)
    requires TextsLe(a, b) && TextsLe(b, c)
    ensures TextsLe(a, c)
  {
    if a != [] {
      TextLeTotal(a[0], b[0]);
      TextLeTotal(b[0], c[0]);
      if a[0] == b[0] == c[0] {
        TextsLeTransitive(a[1..], b[1..], c[1..]);
      } else if a[0] != b[0] && b[0] != c[0] {
        TextLeTransitive(a[0], b[0], c[0]);
      }
    }
  }

  /** What is opened first, then by kind and id. */
  function BoxKey(openBoxes: set<Box>, b: Box): seq<string> {
    [if b in openBoxes then "0" else "1", KindText(BoxText(b)), BoxText(b)]
  }

  /** By the ids of both ends, then by relationship. */
  function CrossingKey(c: Crossing): seq<string> {
    [BoxText(c.source), BoxText(c.target), RelationshipText(c.relationship)]
  }

  function ByKey<T(!new)>(key: T -> seq<string>): Order<T> {
    (a: T, b: T) => TextsLe(key(a), key(b))
  }

  lemma ByKeyIsOrder<T(!new)>(key: T -> seq<string>)
    ensures IsOrder(ByKey(key))
  {
    forall a: T, b: T
      ensures ByKey(key)(a, b) || ByKey(key)(b, a)
    {
      TextsLeTotal(key(a), key(b));
    }
    forall a: T, b: T, c: T | ByKey(key)(a, b) && ByKey(key)(b, c)
      ensures ByKey(key)(a, c)
    {
      TextsLeTransitive(key(a), key(b), key(c));
    }
  }

  /** Each item once, in the order of the keys. */
  ghost predicate InKeyOrder<T(!new)>(key: T -> seq<string>, items: set<T>, list: seq<T>) {
    NoRepeats(list) && Sorted(ByKey(key), list) && forall x :: x in list <==> x in items
  }

  method Listed<T(!new, ==)>(key: T -> seq<string>, items: set<T>) returns (list: seq<T>)
    ensures InKeyOrder(key, items, list)
  {
    list := [];
    var todo := items;
    while todo != {}
      invariant todo <= items && NoRepeats(list) && forall x :: x in list <==> x in items - todo
    {
      var x :| x in todo;
      OneApart(list, x);
      list := list + [x];
      todo := todo - {x};
    }
    var sorted := Sort(ByKey(key), list);
    ByKeyIsOrder(key);
    SortIsSorted(ByKey(key), list);
    SameItems(list, sorted);
    PermutationKeepsNoRepeats(list, sorted);
    list := sorted;
  }

  /** The boxes shown and the crossings counted, as the map lists them. */
  ghost predicate AreListed(openBoxes: set<Box>, shown: set<Box>, crossings: seq<Crossing>, boxes: seq<Box>,
                            edges: seq<Crossing>) {
    && InKeyOrder((b: Box) => BoxKey(openBoxes, b), shown, boxes)
    && InKeyOrder(CrossingKey, (set c | c in crossings), edges)
  }

  method ListMap(openBoxes: set<Box>, shown: set<Box>, crossings: seq<Crossing>)
    returns (boxes: seq<Box>, edges: seq<Crossing>)
    ensures AreListed(openBoxes, shown, crossings, boxes, edges)
  {
    boxes := Listed((b: Box) => BoxKey(openBoxes, b), shown);
    edges := Listed(CrossingKey, set c | c in crossings);
  }

  /** No neighbour is listed before a box the lens opened. */
  lemma OpenedComeFirst(openBoxes: set<Box>, shown: set<Box>, crossings: seq<Crossing>, boxes: seq<Box>,
                        edges: seq<Crossing>, i: nat, j: nat)
    requires AreListed(openBoxes, shown, crossings, boxes, edges) && i < j < |boxes| && boxes[j] in openBoxes
    ensures boxes[i] in openBoxes
  {
    var key := (b: Box) => BoxKey(openBoxes, b);
    assert ByKey(key)(boxes[i], boxes[j]);
    assert TextsLe(BoxKey(openBoxes, boxes[i]), BoxKey(openBoxes, boxes[j]));
    OneNotBeforeNought(BoxKey(openBoxes, boxes[i]), BoxKey(openBoxes, boxes[j]));
  }

  lemma OneNotBeforeNought(a: seq<string>, b: seq<string>)
    requires a != [] && b != []
    ensures a[0] == "1" && b[0] == "0" ==> !TextsLe(a, b)
  {
    assert "1"[0] > "0"[0];
  }
}
