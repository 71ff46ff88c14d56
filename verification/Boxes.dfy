/** Where an asset sits, and the box it is drawn in under a lens. */
module Boxes {
  import opened Wrappers
  import opened Text

  const DIRECTORY_SCOPE := "directory"

  datatype Placement = Placement(scope: string, group: Option<string>)

  /** What is opened: nothing, one scope, or one resource group in a scope. */
  datatype EstateLens = EstateLens(scope: Option<string>, group: Option<string>)

  datatype Box = ScopeBox(scope: string) | GroupBox(scope: string, group: string) | AssetBox(id: string) | FoldBox

  function GroupName(group: Option<string>): string {
    if group.Some? then group.value else ""
  }

  predicate SameGroup(a: Option<string>, b: Option<string>) {
    Lower(GroupName(a)) == Lower(GroupName(b))
  }

  predicate Inside(lens: EstateLens, p: Placement) {
    || lens.scope.None?
    || (p.scope == lens.scope.value && (lens.group.None? || SameGroup(p.group, lens.group)))
  }

  /** `group_box`: group names are one whatever their case. */
  function GroupBoxOf(p: Placement): Box {
    GroupBox(p.scope, Lower(GroupName(p.group)))
  }

  /** `coarse`: the box an asset lands in before any are folded. */
  function Coarse(lens: EstateLens, p: Placement, id: string): Box {
    if lens.scope.None? || p.scope != lens.scope.value then ScopeBox(p.scope)
    else if lens.group.None? then if GroupName(p.group) != "" then GroupBoxOf(p) else AssetBox(id)
    else if SameGroup(p.group, lens.group) then AssetBox(id)
    else GroupBoxOf(p)
  }

  /** The box an asset is drawn in, once the assets not drawn are folded. */
  function BoxOf(lens: EstateLens, p: Placement, id: string, drawn: bool): Box {
    var box := Coarse(lens, p, id);
    if box.AssetBox? && !drawn then FoldBox else box
  }

  /** No box mixes what the lens opened with what it did not, and an asset drawn by itself or folded is opened. */
  lemma BoxesDoNotMix(lens: EstateLens, p: Placement, a: string, aDrawn: bool, q: Placement, b: string, bDrawn: bool)
    ensures BoxOf(lens, p, a, aDrawn) == BoxOf(lens, q, b, bDrawn) ==> (Inside(lens, p) <==> Inside(lens, q))
    ensures Coarse(lens, p, a).AssetBox? ==> Inside(lens, p)
  {
  }

  /** All that shares a box shares its scope, and its resource group unless the box is a whole scope. */
  lemma BoxesAreUniform(lens: EstateLens, p: Placement, a: string, aDrawn: bool, q: Placement, b: string, bDrawn: bool)
    requires BoxOf(lens, p, a, aDrawn) == BoxOf(lens, q, b, bDrawn)
    ensures p.scope == q.scope
    ensures !BoxOf(lens, p, a, aDrawn).ScopeBox? ==> SameGroup(p.group, q.group)
  {
  }

  // ---------------------------------------------------------------- box ids

  function BoxText(b: Box): string {
    match b
    case ScopeBox(scope) => "scope:" + scope
    case GroupBox(scope, group) => "group:" + scope + ":" + group
    case AssetBox(id) => "asset:" + id
    case FoldBox => "fold"
  }

  /** The text before the first colon. */
  function UpToColon(text: string): string {
    if text == "" || text[0] == ':' then "" else [text[0]] + UpToColon(text[1..])
  }

  /** `box_kind`. */
  function KindText(text: string): string {
    if text == "fold" then "fold" else UpToColon(text)
  }

  lemma {:induction false} UpToColonOf(head: string, rest: string)
    requires forall i :: 0 <= i < |head| ==> head[i] != ':'
    ensures UpToColon(head + ":" + rest) == head
  {
    if head == "" {
      assert head + ":" + rest == ":" + rest;
    } else {
      assert (head + ":" + rest)[1..] == head[1..] + ":" + rest;
      UpToColonOf(head[1..], rest);
    }
  }

  /** The kind read back off a box's id is the kind it was made as. */
  lemma KindSurvives(b: Box)
    ensures KindText(BoxText(b)) ==
            match b
            case ScopeBox(_) => "scope"
            case GroupBox(_, _) => "group"
            case AssetBox(_) => "asset"
            case FoldBox => "fold"
  {
    match b
    case ScopeBox(scope) =>
      UpToColonOf("scope", scope);
      assert BoxText(b) == "scope" + ":" + scope && BoxText(b)[0] == 's';
    case GroupBox(scope, group) =>
      UpToColonOf("group", scope + ":" + group);
      assert BoxText(b) == "group" + ":" + (scope + ":" + group) && BoxText(b)[0] == 'g';
    case AssetBox(id) =>
      UpToColonOf("asset", id);
      assert BoxText(b) == "asset" + ":" + id && BoxText(b)[0] == 'a';
    case FoldBox =>
  }

  /** Two boxes of one map have one id only if they are one box: its groups all lie in the lens's scope. */
  lemma IdsTellBoxesApart(lens: EstateLens, p: Placement, a: string, aDrawn: bool, q: Placement, b: string,
                          bDrawn: bool)
    requires BoxText(BoxOf(lens, p, a, aDrawn)) == BoxText(BoxOf(lens, q, b, bDrawn))
    ensures BoxOf(lens, p, a, aDrawn) == BoxOf(lens, q, b, bDrawn)
  {
    var x, y := BoxOf(lens, p, a, aDrawn), BoxOf(lens, q, b, bDrawn);
    KindSurvives(x);
    KindSurvives(y);
    if x.GroupBox? && y.GroupBox? {
      SameTail("group:" + p.scope + ":", x.group, y.group);
    } else if x.ScopeBox? && y.ScopeBox? {
      SameTail("scope:", x.scope, y.scope);
    } else if x.AssetBox? && y.AssetBox? {
      SameTail("asset:", x.id, y.id);
    }
  }

  lemma SameTail(head: string, a: string, b: string)
    requires head + a == head + b
    ensures a == b
  {
    assert (head + a)[|head|..] == a;
    assert (head + b)[|head|..] == b;
  }
}
