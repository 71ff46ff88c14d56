/** What is in the archive, row by row and file by file, said of the package and the stored payloads alone. */
module ArchiveContents {
  import opened Wrappers
  import opened Text
  import opened Lists
  import opened Sorting
  import opened Archive
  import opened ArchiveLaws

  // ---------------------------------------------------------------- rows for readings

  /** How many of a control's readings were never taken and are what a row names. */
  ghost function NumberUnread(c: Control, readings: seq<ControlReading>, g: Gap): nat {
    if readings == [] then 0
    else
      var last := readings[|readings| - 1];
      NumberUnread(c, readings[..|readings| - 1], g)
      + if last.outcome.None? && g == Gap(c.framework, c.id, READING_NOT_READ, last.evidenceKey, []) then 1 else 0
  }

  ghost function NumberUnreadOf(controls: seq<Control>, g: Gap): nat {
    if controls == [] then 0
    else
      var last := controls[|controls| - 1];
      NumberUnreadOf(controls[..|controls| - 1], g) + NumberUnread(last, last.readings, g)
  }

  /** How many of the package's readings came out other than complete, as a row says. */
  ghost function NumberIncomplete(items: seq<Item>, g: Gap): nat {
    if items == [] then 0
    else
      var last := items[|items| - 1];
      NumberIncomplete(items[..|items| - 1], g)
      + if last.outcome != ReadingOutcome.COMPLETE && g == Gap("", "", READING_WAS(last.outcome), last.evidenceKey, [])
        then 1 else 0
  }

  lemma TimesConcat<T>(a: seq<T>, b: seq<T>, x: T)
    ensures multiset(a + b)[x] == multiset(a)[x] + multiset(b)[x]
  {
  }

  lemma TimesThree<T>(a: seq<T>, b: seq<T>, c: seq<T>, x: T)
    ensures multiset(a + b + c)[x] == multiset(a)[x] + multiset(b)[x] + multiset(c)[x]
  {
    TimesConcat(a + b, c, x);
  }

  lemma NoTimes<T>(a: seq<T>, x: T)
    requires x !in a
    ensures multiset(a)[x] == 0
  {
  }

  lemma {:induction false} UnreadTimes(c: Control, readings: seq<ControlReading>, g: Gap)
    ensures multiset(UnreadGaps(c, readings))[g] == NumberUnread(c, readings, g)
  {
    if readings != [] {
      UnreadTimes(c, readings[..|readings| - 1], g);
    }
  }

  lemma {:induction false} ControlTimes(controls: seq<Control>, g: Gap)
    requires g.kind == READING_NOT_READ
    ensures multiset(ControlGaps(controls))[g] == NumberUnreadOf(controls, g)
  {
    if controls != [] {
      var rest, last := controls[..|controls| - 1], controls[|controls| - 1];
      assert controls == rest + [last];
      ControlTimes(rest, g);
      ControlTimesOneMore(rest, last, g);
    }
  }

  lemma ControlTimesOneMore(rest: seq<Control>, last: Control, g: Gap)
    requires g.kind == READING_NOT_READ && multiset(ControlGaps(rest))[g] == NumberUnreadOf(rest, g)
    ensures multiset(ControlGaps(rest + [last]))[g] == NumberUnreadOf(rest + [last], g)
  {
    assert (rest + [last])[..|rest|] == rest;
    UnreadTimes(last, last.readings, g);
    NoStatusTimes(last, g);
    TimesThree(ControlGaps(rest), StatusGap(last), UnreadGaps(last, last.readings), g);
  }

  lemma NoStatusTimes(c: Control, g: Gap)
    requires g.kind == READING_NOT_READ
    ensures multiset(StatusGap(c))[g] == 0
  {
    assert g !in StatusGap(c);
  }

  lemma PayloadTimes(item: Item, status: map<string, Status>, g: Gap)
    requires g.kind == READING_NOT_READ || g.kind.READING_WAS?
    ensures multiset(PayloadGap(item, status))[g] == 0
  {
    assert g !in PayloadGap(item, status);
  }

  lemma OutcomeTimes(item: Item, g: Gap)
    ensures multiset(OutcomeGap(item))[g] ==
            if item.outcome != ReadingOutcome.COMPLETE
               && g == Gap("", "", READING_WAS(item.outcome), item.evidenceKey, []) then 1 else 0
  {
  }

  lemma {:induction false} ItemTimes(items: seq<Item>, status: map<string, Status>, g: Gap)
    requires g.kind == READING_NOT_READ || g.kind.READING_WAS?
    ensures multiset(ItemGaps(items, status))[g] == NumberIncomplete(items, g)
  {
    if items != [] {
      var rest, last := items[..|items| - 1], items[|items| - 1];
      assert items == rest + [last];
      ItemTimes(rest, status, g);
      ItemTimesOneMore(rest, last, status, g);
    }
  }

  lemma ItemTimesOneMore(rest: seq<Item>, last: Item, status: map<string, Status>, g: Gap)
    requires g.kind == READING_NOT_READ || g.kind.READING_WAS?
    requires multiset(ItemGaps(rest, status))[g] == NumberIncomplete(rest, g)
    ensures multiset(ItemGaps(rest + [last], status))[g] == NumberIncomplete(rest + [last], g)
  {
    assert (rest + [last])[..|rest|] == rest;
    OutcomeTimes(last, g);
    PayloadTimes(last, status, g);
    TimesThree(ItemGaps(rest, status), OutcomeGap(last), PayloadGap(last, status), g);
  }

  lemma {:induction false} ControlsAllComplete(controls: seq<Control>, g: Gap)
    requires g.kind.READING_WAS?
    ensures g !in ControlGaps(controls)
  {
    if controls != [] {
      var last := controls[|controls| - 1];
      ControlsAllComplete(controls[..|controls| - 1], g);
      assert g !in UnreadGaps(last, last.readings) && g !in StatusGap(last);
    }
  }

  lemma {:induction false} NoneIncomplete(items: seq<Item>, g: Gap)
    requires g.kind == READING_NOT_READ
    ensures NumberIncomplete(items, g) == 0
  {
    if items != [] { NoneIncomplete(items[..|items| - 1], g); }
  }

  /** A row about a reading is there as often as a control rests on one that was never taken, or as the package has one
      that came out other than complete; and no more often. */
  lemma EveryIncompleteReadingIsListed(controls: seq<Control>, items: seq<Item>, status: map<string, Status>, g: Gap)
    ensures g.kind == READING_NOT_READ ==>
              multiset(AllGaps(controls, items, status))[g] == NumberUnreadOf(controls, g)
    ensures g.kind.READING_WAS? ==> multiset(AllGaps(controls, items, status))[g] == NumberIncomplete(items, g)
  {
    TimesConcat(ControlGaps(controls), ItemGaps(items, status), g);
    if g.kind == READING_NOT_READ {
      ControlTimes(controls, g);
      ItemTimes(items, status, g);
      NoneIncomplete(items, g);
    }
    if g.kind.READING_WAS? {
      ControlsAllComplete(controls, g);
      ItemTimes(items, status, g);
      NoTimes(ControlGaps(controls), g);
    }
  }

  ghost predicate OfPackage(g: Gap) {
    g.framework == "" && g.control == "" && (g.kind.READING_WAS? || IsPayloadGap(g))
  }

  lemma {:induction false} ItemRowsAre(items: seq<Item>, status: map<string, Status>, i: nat)
    requires i < |ItemGaps(items, status)|
    ensures OfPackage(ItemGaps(items, status)[i])
  {
    var rest, last := items[..|items| - 1], items[|items| - 1];
    if i < |ItemGaps(rest, status)| {
      ItemRowsAre(rest, status, i);
    }
  }

  lemma {:induction false} ControlRowsName(controls: seq<Control>, i: nat)
    requires i < |ControlGaps(controls)|
    ensures IsControlGap(ControlGaps(controls)[i]) || ControlGaps(controls)[i].kind == READING_NOT_READ
  {
    var rest, last := controls[..|controls| - 1], controls[|controls| - 1];
    if i < |ControlGaps(rest)| {
      ControlRowsName(rest, i);
    } else {
      StatusGapIs(last);
    }
  }

  /** Rows of controls come before rows of the package's readings, which name no control. */
  lemma ControlRowsComeFirst(controls: seq<Control>, items: seq<Item>, status: map<string, Status>, i: nat, j: nat)
    requires i < j < |AllGaps(controls, items, status)|
    ensures
      var a, b := AllGaps(controls, items, status)[i], AllGaps(controls, items, status)[j];
      && (IsControlGap(b) || b.kind == READING_NOT_READ ==> IsControlGap(a) || a.kind == READING_NOT_READ)
      && (IsControlGap(b) || b.kind == READING_NOT_READ || OfPackage(b))
  {
    var first := |ControlGaps(controls)|;
    if i < first { ControlRowsName(controls, i); } else { ItemRowsAre(items, status, i - first); }
    if j < first { ControlRowsName(controls, j); } else { ItemRowsAre(items, status, j - first); }
  }

  // ---------------------------------------------------------------- what is counted

  /** A stored payload was found under a hash in form. */
  ghost predicate Found(stored: map<string, string>, hash: string) {
    hash in stored && IsHexHash(hash)
  }

  ghost predicate Whole(tools: Tools, stored: map<string, string>, hash: string) {
    && Found(stored, hash) && tools.inflate(stored[hash]).Some?
    && tools.sha(Bytes(tools.inflate(stored[hash]).value)) == hash
  }

  lemma {:induction false} StatusesNumber(tools: Tools, stored: map<string, string>, hashes: seq<string>,
                                          all: seq<string>)
    requires forall i :: 0 <= i < |hashes| ==> hashes[i] in all
    ensures
      var status := Statuses(tools, stored, all);
      && CountStatus(hashes, status, INCLUDED) == |Where(hashes, (h: string) => Whole(tools, stored, h))|
      && CountStatus(hashes, status, PRUNED) == |Where(hashes, (h: string) => !Found(stored, h))|
  {
    if hashes != [] {
      var rest, last := hashes[..|hashes| - 1], hashes[|hashes| - 1];
      StatusesNumber(tools, stored, rest, all);
      HexHash(last);
    }
  }

  /** The summary counts as included what is stored whole under its hash, as pruned what is not found, and every row of
      the gaps. */
  lemma SummaryCounts(tools: Tools, package: Package, items: seq<Item>, stored: map<string, string>)
    ensures
      var s, status := SummaryOf(tools, package, items, stored), Statuses(tools, stored, Hashes(items));
      && s.included == |Where(Hashes(items), (h: string) => Whole(tools, stored, h))|
      && s.pruned == |Where(Hashes(items), (h: string) => !Found(stored, h))|
      && s.gaps == |AllGaps(package.controls, items, status)|
  {
    StatusesNumber(tools, stored, Hashes(items), Hashes(items));
  }

  // ---------------------------------------------------------------- which files there are

  lemma InControls(tools: Tools, frameworks: seq<string>, e: Entry)
    ensures e in ControlEntries(tools, frameworks) <==>
            exists f :: f in frameworks && e == Entry(ControlsFile(Slug(f, "framework")), Bytes(tools.controls(f)))
  {
    var all := ControlEntries(tools, frameworks);
    if f :| f in frameworks && e == Entry(ControlsFile(Slug(f, "framework")), Bytes(tools.controls(f))) {
      var i :| 0 <= i < |frameworks| && frameworks[i] == f;
      assert all[i] == e;
    }
    if e in all {
      var i :| 0 <= i < |all| && all[i] == e;
      assert frameworks[i] in frameworks;
    }
  }

  lemma InListings(tools: Tools, gaps: seq<Gap>, status: map<string, Status>, e: Entry)
    ensures e in Listings(tools, gaps, status) <==>
            || e == Entry(GapsFile, Bytes(tools.gaps(gaps)))
            || (tools.fixes.Some? && e == Entry(FixesFile, Bytes(tools.fixes.value)))
            || e == Entry(ReadingsFile, Bytes(tools.readings(status)))
            || e == Entry(ManifestFile, Bytes(tools.manifest))
  {
  }

  lemma PayloadsArePayloads(tools: Tools, stored: map<string, string>, hashes: seq<string>, e: Entry)
    requires !e.file.PayloadFile?
    ensures e !in Included(tools, stored, hashes)
  {
    InIncluded(tools, stored, hashes, e);
  }

  /** Beside the payloads and before SHA256SUMS: the controls of each framework, the gaps, the fixes where the package
      has any, the readings, the manifest and the README. */
  lemma EveryFileIsThere(tools: Tools, package: Package, items: seq<Item>, stored: map<string, string>, e: Entry)
    requires !e.file.PayloadFile? && e.file != SumsFile
    ensures
      var status := Statuses(tools, stored, Hashes(items));
      e in ArchiveEntries(tools, package, items, stored) <==>
      || (exists f :: f in package.frameworks
                      && e == Entry(ControlsFile(Slug(f, "framework")), Bytes(tools.controls(f))))
      || e == Entry(GapsFile, Bytes(tools.gaps(AllGaps(package.controls, items, status))))
      || (tools.fixes.Some? && e == Entry(FixesFile, Bytes(tools.fixes.value)))
      || e == Entry(ReadingsFile, Bytes(tools.readings(status))) || e == Entry(ManifestFile, Bytes(tools.manifest))
      || e == Entry(ReadmeFile, Bytes(tools.readme(SummaryOf(tools, package, items, stored))))
  {
    var status := Statuses(tools, stored, Hashes(items));
    var gaps := AllGaps(package.controls, items, status);
    var body := BodyEntries(tools, package, items, stored);
    var readme := Entry(ReadmeFile, Bytes(tools.readme(SummaryOf(tools, package, items, stored))));
    InControls(tools, package.frameworks, e);
    InListings(tools, gaps, status, e);
    PayloadsArePayloads(tools, stored, Hashes(items), e);
    InThree(Included(tools, stored, Hashes(items)), ControlEntries(tools, package.frameworks),
            Listings(tools, gaps, status), e);
    InThree(body, [readme], [SumsEntry(tools, body + [readme])], e);
  }

  /** What the readings file is told of each payload: whether it is there whole, gone, or no longer what its hash
      says. */
  lemma StatusesSay(tools: Tools, stored: map<string, string>, items: seq<Item>, h: string)
    ensures
      var status := Statuses(tools, stored, Hashes(items));
      && (h in status <==> h != "" && exists i :: i in items && i.hash == h)
      && (h in status ==>
            status[h] == if Whole(tools, stored, h) then INCLUDED else if Found(stored, h) then CORRUPT else PRUNED)
  {
    HashesAre(items);
    HexHash(h);
  }

  lemma ByPathIsOrder()
    ensures IsOrder(ByPath())
  {
    forall a: File, b: File
      ensures ByPath()(a, b) || ByPath()(b, a)
    {
      TextLeTotal(PathText(a), PathText(b));
    }
    forall a: File, b: File, c: File | ByPath()(a, b) && ByPath()(b, c)
      ensures ByPath()(a, c)
    {
      TextLeTransitive(PathText(a), PathText(b), PathText(c));
    }
  }

  /** The lines of SHA256SUMS come in the order of their paths. */
  lemma LinesAreSorted(tools: Tools, package: Package, items: seq<Item>, stored: map<string, string>, i: nat, j: nat)
    ensures
      var entries := ArchiveEntries(tools, package, items, stored);
      var last := entries[|entries| - 1];
      last.content.SumLines? && (i < j < |last.content.lines| ==>
        TextLe(last.content.lines[i].path, last.content.lines[j].path))
  {
    var readme := Entry(ReadmeFile, Bytes(tools.readme(SummaryOf(tools, package, items, stored))));
    var listed := BodyEntries(tools, package, items, stored) + [readme];
    ByPathIsOrder();
    SortIsSorted(ByPath(), Distinct(FilesOf(listed)));
  }

  // ---------------------------------------------------------------- names of control files

  /** A letter, a digit, a dot, an underscore or a dash, by their codes. */
  ghost predicate KeptChar(c: char) {
    var code := c as int;
    65 <= code <= 90 || 97 <= code <= 122 || 48 <= code <= 57 || code == 45 || code == 46 || code == 95
  }

  ghost predicate AllKept(text: string) {
    forall i :: 0 <= i < |text| ==> KeptChar(text[i])
  }

  ghost predicate NoneKept(text: string) {
    forall i :: 0 <= i < |text| ==> !KeptChar(text[i])
  }

  lemma KeptIsSafe(c: char)
    ensures KeptChar(c) <==> SafeChar(c)
  {
  }

  lemma {:induction false} RunIsOneDash(run: string, rest: string, inRun: bool)
    requires NoneKept(run) && (rest == "" || KeptChar(rest[0]))
    ensures Dashed(run + rest, inRun) == (if inRun || run == "" then "" else "-") + Dashed(rest, false)
    decreases |run|
  {
    if run == "" {
      assert run + rest == rest;
      if rest != "" { KeptIsSafe(rest[0]); }
    } else {
      KeptIsSafe(run[0]);
      assert (run + rest)[0] == run[0] && (run + rest)[1..] == run[1..] + rest;
      RunIsOneDash(run[1..], rest, true);
    }
  }

  lemma KeptOne(c: char, rest: string, inRun: bool)
    requires KeptChar(c)
    ensures Dashed([c] + rest, inRun) == [c] + Dashed(rest, false)
  {
    KeptIsSafe(c);
    assert ([c] + rest)[1..] == rest;
  }

  lemma {:induction false} KeptStays(text: string, rest: string, inRun: bool)
    requires AllKept(text)
    ensures Dashed(text + rest, inRun) == text + Dashed(rest, text == "" && inRun)
    decreases |text|
  {
    if text == "" {
      assert text + rest == rest;
    } else {
      var c, tail := text[0], text[1..];
      KeptOne(c, tail + rest, inRun);
      KeptStays(tail, rest, false);
      assert text + rest == [c] + (tail + rest);
      assert [c] + (tail + Dashed(rest, false)) == text + Dashed(rest, false);
    }
  }

  lemma AllKeptStays(text: string)
    requires AllKept(text)
    ensures Dashed(text, false) == text
  {
    KeptStays(text, "", false);
    assert text + "" == text;
  }

  /** Letters, digits, dots, underscores and dashes are kept, and each run of anything else between them is one dash. */
  lemma NamesAreDashed(text: string, run: string, rest: string)
    requires AllKept(text) && run != "" && NoneKept(run) && (rest == "" || KeptChar(rest[0]))
    ensures Dashed(text + run + rest, false) == text + "-" + Dashed(rest, false)
  {
    var tail := run + rest;
    Associates(text, run, rest);
    Associates(text, "-", Dashed(rest, false));
    KeptStays(text, tail, false);
    RunIsOneDash(run, rest, false);
  }

  ghost predicate IsEnd(c: char) {
    c == '-' || c == '.'
  }

  ghost predicate AllEnds(text: string) {
    forall i :: 0 <= i < |text| ==> IsEnd(text[i])
  }

  lemma {:induction false} LeftIsStripped(left: string, rest: string)
    requires AllEnds(left) && (rest == "" || !IsEnd(rest[0]))
    ensures StripLeft(left + rest) == rest
    decreases |left|
  {
    if left == "" {
      assert left + rest == rest;
    } else {
      assert (left + rest)[0] == left[0] && (left + rest)[1..] == left[1..] + rest;
      LeftIsStripped(left[1..], rest);
    }
  }

  lemma {:induction false} RightIsStripped(text: string, right: string)
    requires AllEnds(right) && (text == "" || !IsEnd(text[|text| - 1]))
    ensures StripRight(text + right) == text
    decreases |right|
  {
    if right == "" {
      assert text + right == text;
    } else {
      var n := |text + right| - 1;
      assert (text + right)[n] == right[|right| - 1] && (text + right)[..n] == text + right[..|right| - 1];
      RightIsStripped(text, right[..|right| - 1]);
    }
  }

  /** Dashes and dots are stripped off both ends of the name; of nothing left, the name is the one given instead. */
  lemma SlugsAreStripped(text: string, left: string, middle: string, right: string, fallback: string)
    requires Dashed(text, false) == left + middle + right && AllEnds(left) && AllEnds(right)
    requires middle != "" ==> !IsEnd(middle[0]) && !IsEnd(middle[|middle| - 1])
    requires middle == "" ==> right == ""
    ensures Slug(text, fallback) == if middle == "" then fallback else middle
  {
    assert left + middle + right == left + (middle + right);
    LeftIsStripped(left, middle + right);
    RightIsStripped(middle, right);
  }
}
