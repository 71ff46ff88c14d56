/** `_absorb`: one record of an identity with what another knows about it added. */
module Absorb {
  import opened Lists
  import opened Text
  import opened Resources

  /** What tells two role entries apart. */
  datatype RoleKey = RoleKey(role: string, target: string, inheritedFrom: string, conditional: string)
                   | OtherRole(text: string)

  function KeyOf(i: Item): RoleKey {
    match i
    case Bare(text) => OtherRole(text)
    case Mapping(fields, _) =>
      var target := Field(fields, "target");
      RoleKey(Field(fields, "role"), Lower(if target != "" then target else Field(fields, "scope")),
              Field(fields, "inherited_from"), Field(fields, "conditional"))
  }

  /** `_listed`: the mappings of a metadata list. */
  function Listed(r: Resource, key: MetaKey): seq<Item> {
    Mappings(ItemsAt(r.metadata, key))
  }

  function Mappings(items: seq<Item>): (r: seq<Item>)
    ensures forall i :: i in r <==> i in items && i.Mapping?
  {
    if items == [] then []
    else Mappings(items[..|items| - 1]) + if items[|items| - 1].Mapping? then [items[|items| - 1]] else []
  }

  function Combined(metadata: Metadata, base: Resource, other: Resource, key: MetaKey): Metadata {
    var all := Listed(base, key) + Listed(other, key);
    if all == [] then metadata else metadata[key := Entries(Distinct(all))]
  }

  function RoleKeys(items: seq<Item>): set<RoleKey> {
    set i | i in items :: KeyOf(i)
  }

  /** Roles appended where their key is new. */
  function WithExtra(held: seq<Item>, extra: seq<Item>): (r: seq<Item>)
    ensures RoleKeys(r) == RoleKeys(held) + RoleKeys(extra)
    ensures held <= r
    ensures forall i :: |held| <= i < |r| ==> r[i] in extra && KeyOf(r[i]) !in RoleKeys(r[..i])
  {
    if extra == [] then held
    else
      var before := WithExtra(held, extra[..|extra| - 1]);
      var last := extra[|extra| - 1];
      assert extra == extra[..|extra| - 1] + [last];
      RoleKeysConcat(extra[..|extra| - 1], [last]);
      RoleKeysConcat(before, [last]);
      if KeyOf(last) in RoleKeys(before) then before else before + [last]
  }

  lemma RoleKeysConcat(a: seq<Item>, b: seq<Item>)
    ensures RoleKeys(a + b) == RoleKeys(a) + RoleKeys(b)
  {
    forall k
      ensures k in RoleKeys(a + b) <==> k in RoleKeys(a) || k in RoleKeys(b)
    {
      if k in RoleKeys(a) { var i :| i in a && KeyOf(i) == k; assert i in a + b; }
      if k in RoleKeys(b) { var i :| i in b && KeyOf(i) == k; assert i in a + b; }
    }
  }

  // ---------------------------------------------------------------- which role entries are one

  /** Two entries stand for one role: the same role at the same target, or scope where there is none, whatever the case,
      by way of the same group and under the same condition. Entries that are no mappings are one where they read the
      same. */
  ghost predicate SameRole(a: Item, b: Item) {
    match (a, b)
    case (Bare(s), Bare(t)) => s == t
    case (Mapping(f, _), Mapping(g, _)) =>
      && Field(f, "role") == Field(g, "role")
      && Lower(if Field(f, "target") != "" then Field(f, "target") else Field(f, "scope")) ==
         Lower(if Field(g, "target") != "" then Field(g, "target") else Field(g, "scope"))
      && Field(f, "inherited_from") == Field(g, "inherited_from")
      && Field(f, "conditional") == Field(g, "conditional")
    case (_, _) => false
  }

  ghost predicate Among(items: seq<Item>, i: Item) {
    exists h :: h in items && SameRole(h, i)
  }

  lemma OneKeyEach(a: Item, b: Item)
    ensures KeyOf(a) == KeyOf(b) <==> SameRole(a, b)
  {
  }

  lemma KeyIsAmong(items: seq<Item>, i: Item)
    ensures KeyOf(i) in RoleKeys(items) <==> Among(items, i)
  {
    if Among(items, i) {
      var h :| h in items && SameRole(h, i);
      OneKeyEach(h, i);
    }
    if h :| h in items && KeyOf(h) == KeyOf(i) {
      OneKeyEach(h, i);
    }
  }

  lemma ExtraIsPrefix(held: seq<Item>, extra: seq<Item>, k: nat)
    requires k <= |extra|
    ensures WithExtra(held, extra[..k]) <= WithExtra(held, extra)
    decreases |extra| - k
  {
    if k < |extra| {
      assert extra[..k + 1][..k] == extra[..k];
      ExtraIsPrefix(held, extra, k + 1);
    } else {
      assert extra[..k] == extra;
    }
  }

  /** An extra role is appended exactly when no role held and none of the extra ones before it is the same; what is
      appended stays where it is. */
  lemma ExtraRoleAt(held: seq<Item>, extra: seq<Item>, k: nat)
    requires k < |extra|
    ensures
      var before := WithExtra(held, extra[..k]);
      WithExtra(held, extra[..k + 1]) == if Among(held + extra[..k], extra[k]) then before else before + [extra[k]]
    ensures WithExtra(held, []) == held && WithExtra(held, extra[..k + 1]) <= WithExtra(held, extra)
  {
    assert extra[..k + 1][..k] == extra[..k];
    RoleKeysConcat(held, extra[..k]);
    KeyIsAmong(held + extra[..k], extra[k]);
    ExtraIsPrefix(held, extra, k + 1);
  }

  function WithRoles(metadata: Metadata, extra: seq<Item>): Metadata {
    if extra == [] then metadata else metadata[ROLES := Entries(WithExtra(ItemsAt(metadata, ROLES), extra))]
  }

  predicate Renamed(base: Resource, other: Resource) {
    Truthy(MetaAt(base.metadata, UNNAMED)) && !Truthy(MetaAt(other.metadata, UNNAMED))
  }

  /** The base's metadata over the other's, without a stand-in's mark or a made-up name's. */
  function Overlaid(base: Resource, other: Resource): Metadata {
    var joined := other.metadata + base.metadata;
    var known := if IsStub(base) then joined else joined - {STUB};
    if Renamed(base, other) then known - {UNNAMED} else known
  }

  function Absorbed(base: Resource, other: Resource): (r: Resource)
    ensures r.id == base.id && r.kind == base.kind
  {
    var one := Combined(Overlaid(base, other), base, other, POWERS);
    var two := Combined(one, base, other, ELIGIBLE_POWERS);
    var all := Combined(two, base, other, ELIGIBLE_ROLES);
    Resource(base.id, base.kind, if Renamed(base, other) then other.name else base.name,
             WithRoles(all, ItemsAt(other.metadata, ROLES)))
  }

  // ---------------------------------------------------------------- what absorbing keeps

  /** What a record says an identity holds: its roles, and its powers and eligible roles. */
  datatype Fact = HasRole(key: RoleKey) | IsListed(list: MetaKey, entry: Item)

  function Facts(r: Resource): set<Fact> {
    (set i | i in ItemsAt(r.metadata, ROLES) :: HasRole(KeyOf(i)))
    + (set i | i in Listed(r, POWERS) :: IsListed(POWERS, i))
    + (set i | i in Listed(r, ELIGIBLE_POWERS) :: IsListed(ELIGIBLE_POWERS, i))
    + (set i | i in Listed(r, ELIGIBLE_ROLES) :: IsListed(ELIGIBLE_ROLES, i))
  }

  lemma CombinedAt(metadata: Metadata, base: Resource, other: Resource, key: MetaKey, k: MetaKey)
    ensures MetaAt(Combined(metadata, base, other, key), k) ==
            if k == key && Listed(base, key) + Listed(other, key) != []
            then Entries(Distinct(Listed(base, key) + Listed(other, key))) else MetaAt(metadata, k)
  {
  }

  lemma OverlaidAt(base: Resource, other: Resource, k: MetaKey)
    ensures k != STUB && k != UNNAMED ==>
              MetaAt(Overlaid(base, other), k) ==
              if k in base.metadata then base.metadata[k] else MetaAt(other.metadata, k)
    ensures Truthy(MetaAt(Overlaid(base, other), STUB)) <==> IsStub(base)
  {
  }

  /** Every metadata value of the result, but the two marks. */
  lemma AbsorbedAt(base: Resource, other: Resource, k: MetaKey)
    ensures
      var m := MetaAt(Absorbed(base, other).metadata, k);
      if k == ROLES && ItemsAt(other.metadata, ROLES) != [] then
        m == Entries(WithExtra(ItemsAt(Overlaid(base, other), ROLES), ItemsAt(other.metadata, ROLES)))
      else if k in {POWERS, ELIGIBLE_POWERS, ELIGIBLE_ROLES} && Listed(base, k) + Listed(other, k) != [] then
        m == Entries(Distinct(Listed(base, k) + Listed(other, k)))
      else m == MetaAt(Overlaid(base, other), k)
  {
    var one := Combined(Overlaid(base, other), base, other, POWERS);
    var two := Combined(one, base, other, ELIGIBLE_POWERS);
    CombinedAt(Overlaid(base, other), base, other, POWERS, k);
    CombinedAt(Overlaid(base, other), base, other, POWERS, ROLES);
    CombinedAt(one, base, other, ELIGIBLE_POWERS, k);
    CombinedAt(one, base, other, ELIGIBLE_POWERS, ROLES);
    CombinedAt(two, base, other, ELIGIBLE_ROLES, k);
    CombinedAt(two, base, other, ELIGIBLE_ROLES, ROLES);
  }

  lemma {:induction false} MappingsDistinct(items: seq<Item>)
    requires forall i :: i in items ==> i.Mapping?
    ensures forall i :: i in Mappings(Distinct(items)) <==> i in items
  {
  }

  lemma ListsAddUp(base: Resource, other: Resource, key: MetaKey)
    requires key in {POWERS, ELIGIBLE_POWERS, ELIGIBLE_ROLES}
    ensures forall i :: i in Listed(Absorbed(base, other), key) <==> i in Listed(base, key) || i in Listed(other, key)
  {
    var all := Listed(base, key) + Listed(other, key);
    AbsorbedAt(base, other, key);
    OverlaidAt(base, other, key);
    if all != [] {
      MappingsDistinct(all);
    }
  }

  lemma RolesAddUp(base: Resource, other: Resource)
    ensures RoleKeys(ItemsAt(Absorbed(base, other).metadata, ROLES)) ==
            RoleKeys(ItemsAt(base.metadata, ROLES)) + RoleKeys(ItemsAt(other.metadata, ROLES))
  {
    AbsorbedAt(base, other, ROLES);
    OverlaidAt(base, other, ROLES);
  }

  lemma FactsAre(r: Resource, f: Fact)
    ensures f in Facts(r) <==>
            match f
            case HasRole(key) => key in RoleKeys(ItemsAt(r.metadata, ROLES))
            case IsListed(list, entry) => list in {POWERS, ELIGIBLE_POWERS, ELIGIBLE_ROLES} && entry in Listed(r, list)
  {
  }

  /** Absorbing adds up what both records hold, and leaves who the base is and whether it is a stand-in. */
  lemma AbsorbKeeps(base: Resource, other: Resource)
    ensures Facts(Absorbed(base, other)) == Facts(base) + Facts(other)
    ensures IsStub(Absorbed(base, other)) <==> IsStub(base)
    ensures IdentityOf(base).Some? ==> IdentityOf(Absorbed(base, other)) == IdentityOf(base)
  {
    var r := Absorbed(base, other);
    forall f
      ensures f in Facts(r) <==> f in Facts(base) || f in Facts(other)
    {
      FactsAre(r, f);
      FactsAre(base, f);
      FactsAre(other, f);
      RolesAddUp(base, other);
      if f.IsListed? && f.list in {POWERS, ELIGIBLE_POWERS, ELIGIBLE_ROLES} { ListsAddUp(base, other, f.list); }
    }
    AbsorbKeepsMarks(base, other);
  }

  /** A record lists an entry: among its roles, one that is the same role. */
  ghost predicate Holds(r: Resource, list: MetaKey, i: Item) {
    && list in r.metadata && r.metadata[list].Entries?
    && if list == ROLES then Among(r.metadata[list].items, i) else i in r.metadata[list].items
  }

  /** The entries that are gathered: roles of any form, and the mappings of the other lists. */
  ghost predicate Gathered(list: MetaKey, i: Item) {
    list == ROLES || (list in {POWERS, ELIGIBLE_POWERS, ELIGIBLE_ROLES} && i.Mapping?)
  }

  ghost function FactOf(list: MetaKey, i: Item): Fact {
    if list == ROLES then HasRole(KeyOf(i)) else IsListed(list, i)
  }

  lemma HoldsIsFact(r: Resource, list: MetaKey, i: Item)
    requires Gathered(list, i)
    ensures Holds(r, list, i) <==> FactOf(list, i) in Facts(r)
  {
    FactsAre(r, FactOf(list, i));
    KeyIsAmong(ItemsAt(r.metadata, ROLES), i);
  }

  /** One entry at a time: what is absorbed holds it exactly when one of the two records did. */
  lemma AbsorbKeepsEntries(base: Resource, other: Resource, list: MetaKey, i: Item)
    requires Gathered(list, i)
    ensures Holds(Absorbed(base, other), list, i) <==> Holds(base, list, i) || Holds(other, list, i)
  {
    AbsorbKeeps(base, other);
    HoldsIsFact(Absorbed(base, other), list, i);
    HoldsIsFact(base, list, i);
    HoldsIsFact(other, list, i);
  }

  lemma AbsorbKeepsMarks(base: Resource, other: Resource)
    ensures IsStub(Absorbed(base, other)) <==> IsStub(base)
    ensures IdentityOf(base).Some? ==> IdentityOf(Absorbed(base, other)) == IdentityOf(base)
  {
    AbsorbedAt(base, other, STUB);
    OverlaidAt(base, other, STUB);
    AbsorbedAt(base, other, IDENTITY_ID);
    OverlaidAt(base, other, IDENTITY_ID);
  }
}
