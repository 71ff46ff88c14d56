/** The archive accounts for everything it was given. */
module ArchiveLaws {
  import opened Wrappers
  import opened Lists
  import opened Archive

  // ---------------------------------------------------------------- payloads

  lemma HashesAre(items: seq<Item>)
    ensures NoRepeats(Hashes(items))
    ensures forall h :: h in Hashes(items) <==> exists i :: i in items && i.hash == h && h != ""
  {
    var distinct := Distinct(HashesOf(items));
    SameItems(distinct, Hashes(items));
    PermutationKeepsNoRepeats(distinct, Hashes(items));
  }

  lemma {:induction false} StatusesAddUp(hashes: seq<string>, status: map<string, Status>)
    requires forall i :: 0 <= i < |hashes| ==> hashes[i] in status
    ensures CountStatus(hashes, status, INCLUDED) + CountStatus(hashes, status, PRUNED)
            + CountStatus(hashes, status, CORRUPT)
            == |hashes|
  {
    if hashes != [] {
      StatusesAddUp(hashes[..|hashes| - 1], status);
    }
  }

  lemma {:induction false} IncludedAre(tools: Tools, stored: map<string, string>, hashes: seq<string>)
    ensures |Included(tools, stored, hashes)| == CountStatus(hashes, Statuses(tools, stored, hashes), INCLUDED)
  {
    if hashes != [] {
      var rest, last := hashes[..|hashes| - 1], hashes[|hashes| - 1];
      IncludedAre(tools, stored, rest);
      SameCount(tools, stored, rest, hashes);
    }
  }

  predicate IsIncluded(tools: Tools, stored: map<string, string>, e: Entry) {
    && e.file.PayloadFile? && StatusOf(tools, stored, e.file.hash) == INCLUDED
    && e.content == Bytes(tools.inflate(stored[e.file.hash]).value)
  }

  lemma PayloadEntryIs(tools: Tools, stored: map<string, string>, hash: string, e: Entry)
    ensures e in PayloadEntry(tools, stored, hash) <==> IsIncluded(tools, stored, e) && e.file.hash == hash
  {
  }

  lemma {:induction false} InIncluded(tools: Tools, stored: map<string, string>, hashes: seq<string>, e: Entry)
    ensures e in Included(tools, stored, hashes) <==> IsIncluded(tools, stored, e) && e.file.hash in hashes
  {
    if hashes != [] {
      var rest, last := hashes[..|hashes| - 1], hashes[|hashes| - 1];
      InIncluded(tools, stored, rest, e);
      PayloadEntryIs(tools, stored, last, e);
      assert hashes == rest + [last];
    }
  }

  lemma {:induction false} SameCount(tools: Tools, stored: map<string, string>, some: seq<string>, all: seq<string>)
    requires forall i :: 0 <= i < |some| ==> some[i] in all
    ensures CountStatus(some, Statuses(tools, stored, some), INCLUDED) ==
            CountStatus(some, Statuses(tools, stored, all), INCLUDED)
  {
    Agreeing(some, Statuses(tools, stored, some), Statuses(tools, stored, all));
  }

  lemma {:induction false} Agreeing(hashes: seq<string>, a: map<string, Status>, b: map<string, Status>)
    requires forall i :: 0 <= i < |hashes| ==> hashes[i] in a && hashes[i] in b && a[hashes[i]] == b[hashes[i]]
    ensures CountStatus(hashes, a, INCLUDED) == CountStatus(hashes, b, INCLUDED)
  {
    if hashes != [] {
      Agreeing(hashes[..|hashes| - 1], a, b);
    }
  }

  /** Every distinct hash has one of the three statuses, so the counts add up to the hashes; and the included ones are
      the payload files. */
  lemma EveryHashIsCounted(tools: Tools, package: Package, items: seq<Item>, stored: map<string, string>)
    ensures
      var s := SummaryOf(tools, package, items, stored);
      && s.included + s.pruned + s.corrupt == |Hashes(items)| && NoRepeats(Hashes(items))
      && s.included == |Included(tools, stored, Hashes(items))|
    ensures forall h :: h in Hashes(items) <==> exists i :: i in items && i.hash == h && h != ""
  {
    HashesAre(items);
    StatusesAddUp(Hashes(items), Statuses(tools, stored, Hashes(items)));
    IncludedAre(tools, stored, Hashes(items));
  }

  /** Sixty-four lower-case hexadecimal digits. */
  ghost predicate IsHexHash(text: string) {
    |text| == 64 && forall i :: 0 <= i < 64 ==> text[i] in "0123456789abcdef"
  }

  lemma HexDigit(c: char)
    ensures '0' <= c <= '9' || 'a' <= c <= 'f' <==> c in "0123456789abcdef"
  {
    var digits := "0123456789abcdef";
    if '0' <= c <= '9' { assert digits[c as int - '0' as int] == c; }
    if 'a' <= c <= 'f' { assert digits[10 + c as int - 'a' as int] == c; }
  }

  lemma HexHash(text: string)
    ensures IsHash(text) <==> IsHexHash(text)
  {
    forall c: char
      ensures '0' <= c <= '9' || 'a' <= c <= 'f' <==> c in "0123456789abcdef"
    {
      HexDigit(c);
    }
  }

  /** A payload file holds what some reading names, and its content hashes to its name; every payload that is stored
      whole under a hash some reading names is there. */
  lemma PayloadFilesEarnTheirNames(tools: Tools, package: Package, items: seq<Item>, stored: map<string, string>,
                                   e: Entry)
    requires e.file.PayloadFile?
    ensures e in ArchiveEntries(tools, package, items, stored) <==>
            && (exists i :: i in items && i.hash == e.file.hash && i.hash != "") && IsHexHash(e.file.hash)
            && e.file.hash in stored && e.content.Bytes? && tools.inflate(stored[e.file.hash]) == Some(e.content.text)
            && tools.sha(e.content) == e.file.hash
  {
    HashNamed(items, e.file.hash);
    HexHash(e.file.hash);
    InIncluded(tools, stored, Hashes(items), e);
    IncludedMeans(tools, stored, e);
    PayloadsAreFirst(tools, package, items, stored, e);
  }

  lemma HashNamed(items: seq<Item>, h: string)
    ensures h in Hashes(items) <==> exists i :: i in items && i.hash == h && i.hash != ""
  {
    HashesAre(items);
  }

  lemma IncludedMeans(tools: Tools, stored: map<string, string>, e: Entry)
    requires e.file.PayloadFile?
    ensures IsIncluded(tools, stored, e) <==>
            && IsHash(e.file.hash) && e.file.hash in stored && e.content.Bytes?
            && tools.inflate(stored[e.file.hash]) == Some(e.content.text) && tools.sha(e.content) == e.file.hash
  {
  }

  lemma PayloadsInBody(tools: Tools, package: Package, items: seq<Item>, stored: map<string, string>, e: Entry)
    requires e.file.PayloadFile?
    ensures e in BodyEntries(tools, package, items, stored) <==> e in Included(tools, stored, Hashes(items))
  {
    var status := Statuses(tools, stored, Hashes(items));
    var gaps := AllGaps(package.controls, items, status);
    NoPayloadListed(tools, gaps, status, e);
    NoPayloadControls(tools, package.frameworks, e);
    InThree(Included(tools, stored, Hashes(items)), ControlEntries(tools, package.frameworks),
            Listings(tools, gaps, status), e);
  }

  lemma PayloadsAreFirst(tools: Tools, package: Package, items: seq<Item>, stored: map<string, string>, e: Entry)
    requires e.file.PayloadFile?
    ensures e in ArchiveEntries(tools, package, items, stored) <==> e in Included(tools, stored, Hashes(items))
  {
    var readme := Entry(ReadmeFile, Bytes(tools.readme(SummaryOf(tools, package, items, stored))));
    var body := BodyEntries(tools, package, items, stored);
    PayloadsInBody(tools, package, items, stored, e);
    InThree(body, [readme], [SumsEntry(tools, body + [readme])], e);
  }

  lemma NoPayloadControls(tools: Tools, frameworks: seq<string>, e: Entry)
    requires e.file.PayloadFile?
    ensures e !in ControlEntries(tools, frameworks)
  {
  }

  lemma InThree<T>(a: seq<T>, b: seq<T>, c: seq<T>, x: T)
    ensures x in a + b + c <==> x in a || x in b || x in c
  {
  }

  lemma NoPayloadListed(tools: Tools, gaps: seq<Gap>, status: map<string, Status>, e: Entry)
    requires e.file.PayloadFile?
    ensures e !in Listings(tools, gaps, status)
  {
  }

  // ---------------------------------------------------------------- gaps

  function Where<T>(rows: seq<T>, keep: T -> bool): seq<T> {
    if rows == [] then []
    else Where(rows[..|rows| - 1], keep) + if keep(rows[|rows| - 1]) then [rows[|rows| - 1]] else []
  }

  lemma {:induction false} WhereConcat<T>(a: seq<T>, b: seq<T>, keep: T -> bool)
    ensures Where(a + b, keep) == Where(a, keep) + Where(b, keep)
    decreases |b|
  {
    if b == [] {
      assert a + b == a;
    } else {
      WhereConcat(a, b[..|b| - 1], keep);
      assert (a + b)[..|a + b| - 1] == a + b[..|b| - 1];
    }
  }

  lemma {:induction false} WhereNone<T>(rows: seq<T>, keep: T -> bool)
    requires forall i :: 0 <= i < |rows| ==> !keep(rows[i])
    ensures Where(rows, keep) == []
  {
    if rows != [] { WhereNone(rows[..|rows| - 1], keep); }
  }

  lemma {:induction false} WhereAll<T>(rows: seq<T>, keep: T -> bool)
    requires forall i :: 0 <= i < |rows| ==> keep(rows[i])
    ensures Where(rows, keep) == rows
  {
    if rows != [] {
      WhereAll(rows[..|rows| - 1], keep);
      assert rows == rows[..|rows| - 1] + [rows[|rows| - 1]];
    }
  }

  predicate IsPayloadGap(g: Gap) {
    g.kind == PAYLOAD_PRUNED || g.kind == PAYLOAD_CORRUPT
  }

  /** A row saying a control could not be reached, concluded on or observed. */
  predicate IsControlGap(g: Gap) {
    g.kind in {CONTROL_INCONCLUSIVE, CONTROL_NOT_ASSESSED, CONTROL_NOT_COVERED, CONTROL_NOT_ASSESSABLE}
  }

  predicate IsSettled(c: Control) {
    c.status == PASSING || c.status == FAILING
  }

  predicate IsUnsettled(c: Control) {
    !IsSettled(c)
  }

  /** The row of a control that is not settled. */
  function ControlGapOf(c: Control): Gap {
    Gap(c.framework, c.id,
        match c.status
          case INCONCLUSIVE => CONTROL_INCONCLUSIVE
          case NOT_ASSESSED => CONTROL_NOT_ASSESSED
          case _ => if c.assessable then CONTROL_NOT_COVERED else CONTROL_NOT_ASSESSABLE,
        "", if c.status == INCONCLUSIVE then c.reasons else [])
  }

  lemma StatusGapIs(c: Control)
    ensures StatusGap(c) == if IsSettled(c) then [] else [ControlGapOf(c)]
    ensures forall i :: 0 <= i < |StatusGap(c)| ==> IsControlGap(StatusGap(c)[i])
  {
  }

  lemma ControlRowsOf(c: Control)
    ensures Where(StatusGap(c) + UnreadGaps(c, c.readings), IsControlGap) ==
            if IsSettled(c) then [] else [ControlGapOf(c)]
  {
    WhereConcat(StatusGap(c), UnreadGaps(c, c.readings), IsControlGap);
    WhereNone(UnreadGaps(c, c.readings), IsControlGap);
    StatusGapIs(c);
    WhereAll(StatusGap(c), IsControlGap);
  }

  lemma {:induction false} ControlRowsAre(controls: seq<Control>)
    ensures Where(ControlGaps(controls), IsControlGap) == Mapped(Where(controls, IsUnsettled), ControlGapOf)
  {
    if controls != [] {
      var rest, last := controls[..|controls| - 1], controls[|controls| - 1];
      assert controls == rest + [last];
      ControlRowsAre(rest);
      ControlRowsOneMore(rest, last);
    }
  }

  lemma ControlRowsOneMore(rest: seq<Control>, last: Control)
    requires Where(ControlGaps(rest), IsControlGap) == Mapped(Where(rest, IsUnsettled), ControlGapOf)
    ensures Where(ControlGaps(rest + [last]), IsControlGap) == Mapped(Where(rest + [last], IsUnsettled), ControlGapOf)
  {
    ControlRowsGrow(rest, last);
    UnsettledGrow(rest, last);
    MappedOneMore(Where(rest, IsUnsettled), last, ControlGapOf);
  }

  lemma MappedOneMore<A, B>(xs: seq<A>, x: A, f: A -> B)
    ensures Mapped(xs + [x], f) == Mapped(xs, f) + [f(x)]
    ensures xs + [] == xs && Mapped(xs, f) + [] == Mapped(xs, f)
  {
  }

  lemma ControlRowsGrow(rest: seq<Control>, last: Control)
    ensures Where(ControlGaps(rest + [last]), IsControlGap) ==
            Where(ControlGaps(rest), IsControlGap) + if IsSettled(last) then [] else [ControlGapOf(last)]
  {
    assert (rest + [last])[..|rest|] == rest;
    ControlRowsOf(last);
    Associates(ControlGaps(rest), StatusGap(last), UnreadGaps(last, last.readings));
    WhereConcat(ControlGaps(rest), StatusGap(last) + UnreadGaps(last, last.readings), IsControlGap);
  }

  lemma UnsettledGrow(rest: seq<Control>, last: Control)
    ensures Where(rest + [last], IsUnsettled) ==
            Where(rest, IsUnsettled) + if IsSettled(last) then [] else [last]
  {
    assert (rest + [last])[..|rest|] == rest;
  }

  lemma {:induction false} ItemsHaveNoControlGaps(items: seq<Item>, status: map<string, Status>)
    ensures Where(ItemGaps(items, status), IsControlGap) == []
  {
    if items != [] {
      var rest, last := items[..|items| - 1], items[|items| - 1];
      ItemsHaveNoControlGaps(rest, status);
      WhereNone(OutcomeGap(last), IsControlGap);
      WhereNone(PayloadGap(last, status), IsControlGap);
      WhereConcat(ItemGaps(rest, status) + OutcomeGap(last), PayloadGap(last, status), IsControlGap);
      WhereConcat(ItemGaps(rest, status), OutcomeGap(last), IsControlGap);
    }
  }

  /** The control rows of the gaps are exactly one for each control that is neither passing nor failing, in order. */
  lemma EveryUnsettledControlIsListed(controls: seq<Control>, items: seq<Item>, status: map<string, Status>)
    ensures Where(AllGaps(controls, items, status), IsControlGap) == Mapped(Where(controls, IsUnsettled), ControlGapOf)
  {
    ControlRowsAre(controls);
    ItemsHaveNoControlGaps(items, status);
    WhereConcat(ControlGaps(controls), ItemGaps(items, status), IsControlGap);
  }

  /** The payload is stored, inflates, and hashes to its name. */
  predicate IsWhole(tools: Tools, stored: map<string, string>, hash: string) {
    && IsHash(hash) && hash in stored && tools.inflate(stored[hash]).Some?
    && tools.sha(Bytes(tools.inflate(stored[hash]).value)) == hash
  }

  /** The readings whose payload was named and left out, in order. */
  function LeftOut(tools: Tools, stored: map<string, string>, items: seq<Item>): seq<Item> {
    if items == [] then []
    else
      var last := items[|items| - 1];
      LeftOut(tools, stored, items[..|items| - 1])
      + if last.hash != "" && !IsWhole(tools, stored, last.hash) then [last] else []
  }

  function GapOf(tools: Tools, stored: map<string, string>, item: Item): Gap {
    Gap("", "", if item.hash in stored && IsHash(item.hash) then PAYLOAD_CORRUPT else PAYLOAD_PRUNED, item.evidenceKey,
        [item.hash])
  }

  function GapsOf(tools: Tools, stored: map<string, string>, items: seq<Item>): seq<Gap> {
    seq(|items|, i requires 0 <= i < |items| => GapOf(tools, stored, items[i]))
  }

  lemma {:induction false} ControlsHaveNoPayloadGaps(controls: seq<Control>)
    ensures Where(ControlGaps(controls), IsPayloadGap) == []
  {
    if controls != [] {
      var rest, last := controls[..|controls| - 1], controls[|controls| - 1];
      ControlsHaveNoPayloadGaps(rest);
      WhereNone(StatusGap(last), IsPayloadGap);
      WhereNone(UnreadGaps(last, last.readings), IsPayloadGap);
      WhereConcat(ControlGaps(rest) + StatusGap(last), UnreadGaps(last, last.readings), IsPayloadGap);
      WhereConcat(ControlGaps(rest), StatusGap(last), IsPayloadGap);
    }
  }

  /** A status recorded for each hash that is not empty, as its payload has it. */
  ghost predicate Tells(tools: Tools, stored: map<string, string>, status: map<string, Status>, item: Item) {
    && (item.hash in status <==> item.hash != "")
    && (item.hash in status ==> status[item.hash] == StatusOf(tools, stored, item.hash))
  }

  lemma PayloadGapIs(tools: Tools, stored: map<string, string>, item: Item, status: map<string, Status>)
    requires Tells(tools, stored, status, item)
    ensures PayloadGap(item, status) == GapsOf(tools, stored, LeftOut(tools, stored, [item]))
    ensures Where(PayloadGap(item, status), IsPayloadGap) == PayloadGap(item, status)
  {
    var gap := PayloadGap(item, status);
    assert [item][..0] == [];
    if gap != [] {
      assert gap[..0] == [] && Where(gap, IsPayloadGap) == Where([], IsPayloadGap) + [gap[0]];
    }
  }

  lemma ItemPayloadGap(tools: Tools, stored: map<string, string>, item: Item, status: map<string, Status>)
    requires Tells(tools, stored, status, item)
    ensures Where(OutcomeGap(item) + PayloadGap(item, status), IsPayloadGap) ==
            GapsOf(tools, stored, LeftOut(tools, stored, [item]))
  {
    WhereNone(OutcomeGap(item), IsPayloadGap);
    WhereConcat(OutcomeGap(item), PayloadGap(item, status), IsPayloadGap);
    PayloadGapIs(tools, stored, item, status);
  }

  lemma LeftOutOneMore(tools: Tools, stored: map<string, string>, items: seq<Item>)
    requires items != []
    ensures GapsOf(tools, stored, LeftOut(tools, stored, items)) ==
            GapsOf(tools, stored, LeftOut(tools, stored, items[..|items| - 1]))
            + GapsOf(tools, stored, LeftOut(tools, stored, [items[|items| - 1]]))
  {
    var rest, last := items[..|items| - 1], items[|items| - 1];
    LeftOutOne(tools, stored, last);
    GapsConcat(tools, stored, LeftOut(tools, stored, rest), LeftOut(tools, stored, [last]));
  }

  lemma LeftOutOne(tools: Tools, stored: map<string, string>, item: Item)
    ensures LeftOut(tools, stored, [item]) ==
            if item.hash != "" && !IsWhole(tools, stored, item.hash) then [item] else []
  {
    assert [item][..0] == [];
  }

  lemma GapsConcat(tools: Tools, stored: map<string, string>, a: seq<Item>, b: seq<Item>)
    ensures GapsOf(tools, stored, a + b) == GapsOf(tools, stored, a) + GapsOf(tools, stored, b)
  {
  }

  lemma {:induction false} ItemPayloadGaps(tools: Tools, stored: map<string, string>, items: seq<Item>,
                                           status: map<string, Status>)
    requires forall i :: 0 <= i < |items| ==> Tells(tools, stored, status, items[i])
    ensures Where(ItemGaps(items, status), IsPayloadGap) == GapsOf(tools, stored, LeftOut(tools, stored, items))
  {
    if items != [] {
      var rest, last := items[..|items| - 1], items[|items| - 1];
      ItemPayloadGaps(tools, stored, rest, status);
      ItemPayloadGap(tools, stored, last, status);
      Associates(ItemGaps(rest, status), OutcomeGap(last), PayloadGap(last, status));
      WhereConcat(ItemGaps(rest, status), OutcomeGap(last) + PayloadGap(last, status), IsPayloadGap);
      LeftOutOneMore(tools, stored, items);
    }
  }

  lemma StatusesTell(tools: Tools, stored: map<string, string>, items: seq<Item>, i: nat)
    requires i < |items|
    ensures Tells(tools, stored, Statuses(tools, stored, Hashes(items)), items[i])
  {
    HashesAre(items);
    assert items[i] in items;
  }

  /** The payload rows of the gaps are exactly one for each reading whose payload was left out, in order, naming it. */
  lemma EveryLeftOutPayloadIsListed(tools: Tools, package: Package, items: seq<Item>, stored: map<string, string>)
    ensures Where(AllGaps(package.controls, items, Statuses(tools, stored, Hashes(items))), IsPayloadGap) ==
            GapsOf(tools, stored, LeftOut(tools, stored, items))
  {
    var status := Statuses(tools, stored, Hashes(items));
    ControlsHaveNoPayloadGaps(package.controls);
    WhereConcat(ControlGaps(package.controls), ItemGaps(items, status), IsPayloadGap);
    forall i | 0 <= i < |items|
      ensures Tells(tools, stored, status, items[i])
    {
      StatusesTell(tools, stored, items, i);
    }
    ItemPayloadGaps(tools, stored, items, status);
  }
}
