/** A sealed package as the files an auditor is handed: what is written, what is left out, and how it is accounted
    for. */
module Archive {
  import opened Wrappers
  import opened Text
  import opened Lists
  import opened Sorting

  // ---------------------------------------------------------------- file names

  datatype File = PayloadFile(hash: string) | ControlsFile(slug: string) | GapsFile | FixesFile | ReadingsFile
                | ManifestFile | ReadmeFile | SumsFile

  function PathText(f: File): string {
    match f
    case PayloadFile(hash) => "evidence/payloads/" + hash + ".json"
    case ControlsFile(slug) => "controls/" + slug + ".csv"
    case GapsFile => "gaps.csv"
    case FixesFile => "fixes.csv"
    case ReadingsFile => "evidence/readings.csv"
    case ManifestFile => "manifest.json"
    case ReadmeFile => "README.md"
    case SumsFile => "SHA256SUMS"
  }

  lemma SameMiddle(head: string, a: string, b: string, tail: string)
    requires head + a + tail == head + b + tail
    ensures a == b
  {
    assert |a| == |b|;
    assert (head + a + tail)[|head|..|head| + |a|] == a;
    assert (head + b + tail)[|head|..|head| + |b|] == b;
  }

  /** No two files share a path, whatever their hashes and slugs. */
  lemma PathsTellFilesApart(a: File, b: File)
    ensures PathText(a) == PathText(b) ==> a == b
  {
    KindFromPath(a);
    KindFromPath(b);
    if PathText(a) == PathText(b) {
      if a.PayloadFile? && b.PayloadFile? {
        SameMiddle("evidence/payloads/", a.hash, b.hash, ".json");
      } else if a.ControlsFile? && b.ControlsFile? {
        SameMiddle("controls/", a.slug, b.slug, ".csv");
      }
    }
  }

  /** What kind of file a path is of, by its first letter and the letter after "evidence/". */
  function KindAt(text: string): nat {
    if text == "" then 0
    else match text[0]
      case 'e' => if |text| > 9 && text[9] == 'p' then 1 else 2
      case 'c' => 3 case 'g' => 4 case 'f' => 5 case 'm' => 6 case 'R' => 7 case _ => 8
  }

  lemma KindFromPath(f: File)
    ensures KindAt(PathText(f)) ==
            match f case PayloadFile(_) => 1 case ReadingsFile => 2 case ControlsFile(_) => 3 case GapsFile => 4
              case FixesFile => 5 case ManifestFile => 6 case ReadmeFile => 7 case SumsFile => 8
  {
    match f
    case PayloadFile(hash) => assert PathText(f)[0] == 'e' && PathText(f)[9] == 'p';
    case ControlsFile(slug) => assert PathText(f)[0] == 'c';
    case _ =>
  }

  predicate SafeChar(c: char) {
    'A' <= c <= 'Z' || 'a' <= c <= 'z' || '0' <= c <= '9' || c == '.' || c == '_' || c == '-'
  }

  /** Each run of unsafe characters as one dash. */
  function Dashed(text: string, inRun: bool): string {
    if text == "" then ""
    else if SafeChar(text[0]) then [text[0]] + Dashed(text[1..], false)
    else (if inRun then "" else "-") + Dashed(text[1..], true)
  }

  function StripLeft(text: string): string {
    if text != "" && (text[0] == '-' || text[0] == '.') then StripLeft(text[1..]) else text
  }

  function StripRight(text: string): string {
    if text != "" && (text[|text| - 1] == '-' || text[|text| - 1] == '.') then StripRight(text[..|text| - 1]) else text
  }

  /** `_slug`. */
  function Slug(text: string, fallback: string): string {
    var stripped := StripRight(StripLeft(Dashed(text, false)));
    if stripped == "" then fallback else stripped
  }

  predicate IsHash(text: string) {
    |text| == 64 && forall i :: 0 <= i < 64 ==> '0' <= text[i] <= '9' || 'a' <= text[i] <= 'f'
  }

  // ---------------------------------------------------------------- the package

  datatype ControlStatus = PASSING | FAILING | INCONCLUSIVE | NOT_ASSESSED | NOT_COVERED

  datatype ReadingOutcome = COMPLETE | PARTIAL | UNAVAILABLE | FAILED | SKIPPED

  /** A reading a control rests on; no outcome where the scan holds none. */
  datatype ControlReading = ControlReading(evidenceKey: string, outcome: Option<ReadingOutcome>)

  datatype Control = Control(framework: string, id: string, status: ControlStatus, assessable: bool,
                             reasons: seq<string>, readings: seq<ControlReading>)

  /** A reading in the package; its hash is empty where it produced nothing. */
  datatype Item = Item(evidenceKey: string, outcome: ReadingOutcome, hash: string)

  datatype Status = INCLUDED | PRUNED | CORRUPT

  datatype GapKind = CONTROL_INCONCLUSIVE | CONTROL_NOT_ASSESSED | CONTROL_NOT_COVERED | CONTROL_NOT_ASSESSABLE
                   | READING_NOT_READ | READING_WAS(outcome: ReadingOutcome) | PAYLOAD_PRUNED | PAYLOAD_CORRUPT

  datatype Gap = Gap(framework: string, control: string, kind: GapKind, subject: string, detail: seq<string>)

  // ---------------------------------------------------------------- gaps

  function StatusGap(c: Control): seq<Gap> {
    match c.status
    case INCONCLUSIVE => [Gap(c.framework, c.id, CONTROL_INCONCLUSIVE, "", c.reasons)]
    case NOT_ASSESSED => [Gap(c.framework, c.id, CONTROL_NOT_ASSESSED, "", [])]
    case NOT_COVERED =>
      [Gap(c.framework, c.id, if c.assessable then CONTROL_NOT_COVERED else CONTROL_NOT_ASSESSABLE, "", [])]
    case _ => []
  }

  function UnreadGaps(c: Control, readings: seq<ControlReading>): (r: seq<Gap>)
    ensures forall i :: 0 <= i < |r| ==> r[i].kind == READING_NOT_READ
  {
    if readings == [] then []
    else
      var last := readings[|readings| - 1];
      UnreadGaps(c, readings[..|readings| - 1])
      + if last.outcome.None? then [Gap(c.framework, c.id, READING_NOT_READ, last.evidenceKey, [])] else []
  }

  function OutcomeGap(item: Item): seq<Gap> {
    if item.outcome == COMPLETE then [] else [Gap("", "", READING_WAS(item.outcome), item.evidenceKey, [])]
  }

  function PayloadGap(item: Item, status: map<string, Status>): seq<Gap> {
    if item.hash !in status then []
    else match status[item.hash]
      case PRUNED => [Gap("", "", PAYLOAD_PRUNED, item.evidenceKey, [item.hash])]
      case CORRUPT => [Gap("", "", PAYLOAD_CORRUPT, item.evidenceKey, [item.hash])]
      case INCLUDED => []
  }

  function ControlGaps(controls: seq<Control>): seq<Gap> {
    if controls == [] then []
    else
      var last := controls[|controls| - 1];
      ControlGaps(controls[..|controls| - 1]) + StatusGap(last) + UnreadGaps(last, last.readings)
  }

  function ItemGaps(items: seq<Item>, status: map<string, Status>): seq<Gap> {
    if items == [] then []
    else
      var last := items[|items| - 1];
      ItemGaps(items[..|items| - 1], status) + OutcomeGap(last) + PayloadGap(last, status)
  }

  function AllGaps(controls: seq<Control>, items: seq<Item>, status: map<string, Status>): seq<Gap> {
    ControlGaps(controls) + ItemGaps(items, status)
  }

  method UnreadRows(c: Control) returns (rows: seq<Gap>)
    ensures rows == UnreadGaps(c, c.readings)
  {
    rows := [];
    for j := 0 to |c.readings|
      invariant rows == UnreadGaps(c, c.readings[..j])
    {
      assert c.readings[..j + 1][..j] == c.readings[..j];
      if c.readings[j].outcome.None? {
        rows := rows + [Gap(c.framework, c.id, READING_NOT_READ, c.readings[j].evidenceKey, [])];
      }
    }
    assert c.readings[..|c.readings|] == c.readings;
  }

  method ControlRows(controls: seq<Control>) returns (rows: seq<Gap>)
    ensures rows == ControlGaps(controls)
  {
    rows := [];
    for i := 0 to |controls|
      invariant rows == ControlGaps(controls[..i])
    {
      assert controls[..i + 1][..i] == controls[..i];
      var unread := UnreadRows(controls[i]);
      rows := rows + StatusGap(controls[i]) + unread;
    }
    assert controls[..|controls|] == controls;
  }

  /** `_gap_rows`. */
  method GapRows(controls: seq<Control>, items: seq<Item>, status: map<string, Status>) returns (rows: seq<Gap>)
    ensures rows == AllGaps(controls, items, status)
  {
    var ofControls := ControlRows(controls);
    var ofItems := ItemRows(items, status);
    rows := ofControls + ofItems;
  }

  method ItemRows(items: seq<Item>, status: map<string, Status>) returns (rows: seq<Gap>)
    ensures rows == ItemGaps(items, status)
  {
    rows := [];
    for i := 0 to |items|
      invariant rows == ItemGaps(items[..i], status)
    {
      ItemOneMore(items, status, i);
      rows := rows + OutcomeGap(items[i]) + PayloadGap(items[i], status);
    }
    assert items[..|items|] == items;
  }

  lemma ItemOneMore(items: seq<Item>, status: map<string, Status>, i: nat)
    requires i < |items|
    ensures ItemGaps(items[..i + 1], status) ==
            ItemGaps(items[..i], status) + OutcomeGap(items[i]) + PayloadGap(items[i], status)
  {
    assert items[..i + 1][..i] == items[..i];
  }

  lemma Associates<T>(a: seq<T>, b: seq<T>, c: seq<T>)
    ensures (a + b) + c == a + (b + c)
  {
  }

  // ---------------------------------------------------------------- payloads and the writer

  /** The content of a file: bytes, or the lines of SHA256SUMS. */
  datatype Content = Bytes(text: string) | SumLines(lines: seq<SumLine>)

  datatype SumLine = SumLine(digest: string, path: string)

  datatype Entry = Entry(file: File, content: Content)

  datatype Summary = Summary(files: nat, included: nat, pruned: nat, corrupt: nat, gaps: nat)

  /** Hashing and inflating, and how each file's text is made from what it is made of. */
  datatype Tools = Tools(sha: Content -> string, inflate: string -> Option<string>, controls: string -> string,
                         gaps: seq<Gap> -> string, fixes: Option<string>, readings: map<string, Status> -> string,
                         manifest: string, readme: Summary -> string)

  /** What becomes of a stored payload. */
  function StatusOf(tools: Tools, stored: map<string, string>, hash: string): Status {
    if hash !in stored || !IsHash(hash) then PRUNED
    else match tools.inflate(stored[hash])
      case None => CORRUPT
      case Some(text) => if tools.sha(Bytes(text)) != hash then CORRUPT else INCLUDED
  }

  function HashesOf(items: seq<Item>): (r: seq<string>)
    ensures forall h :: h in r <==> exists i :: i in items && i.hash == h && h != ""
  {
    if items == [] then []
    else HashesOf(items[..|items| - 1]) + if items[|items| - 1].hash != "" then [items[|items| - 1].hash] else []
  }

  /** The file a payload is written as, where it still hashes to its name. */
  function PayloadEntry(tools: Tools, stored: map<string, string>, hash: string): seq<Entry> {
    if StatusOf(tools, stored, hash) == INCLUDED
    then [Entry(PayloadFile(hash), Bytes(tools.inflate(stored[hash]).value))] else []
  }

  function Included(tools: Tools, stored: map<string, string>, hashes: seq<string>): seq<Entry> {
    if hashes == [] then []
    else Included(tools, stored, hashes[..|hashes| - 1]) + PayloadEntry(tools, stored, hashes[|hashes| - 1])
  }

  function Statuses(tools: Tools, stored: map<string, string>, hashes: seq<string>): map<string, Status> {
    map h | h in hashes :: StatusOf(tools, stored, h)
  }

  function ControlEntries(tools: Tools, frameworks: seq<string>): (r: seq<Entry>)
    ensures |r| == |frameworks|
    ensures forall i :: 0 <= i < |r| ==> r[i].file == ControlsFile(Slug(frameworks[i], "framework"))
  {
    seq(|frameworks|, i requires 0 <= i < |frameworks| =>
      Entry(ControlsFile(Slug(frameworks[i], "framework")), Bytes(tools.controls(frameworks[i]))))
  }

  /** `writer.sums`: the hash of the last content written at each path. */
  function Sums(tools: Tools, entries: seq<Entry>): (r: map<File, string>)
    ensures forall f :: f in r <==> exists e :: e in entries && e.file == f
  {
    if entries == [] then map[]
    else
      var last := entries[|entries| - 1];
      assert entries == entries[..|entries| - 1] + [last];
      Sums(tools, entries[..|entries| - 1])[last.file := tools.sha(last.content)]
  }

  /** The zip being written, and each file's hash. */
  class Writer {
    var entries: seq<Entry>
    var sums: map<File, string>
    const tools: Tools

    ghost predicate Valid()
      reads this
    {
      sums == Sums(tools, entries)
    }

    constructor (tools: Tools)
      ensures Valid() && entries == [] && this.tools == tools
    {
      this.tools := tools;
      entries, sums := [], map[];
    }

    method Add(file: File, content: Content)
      requires Valid()
      modifies this
      ensures Valid() && entries == old(entries) + [Entry(file, content)]
    {
      entries := entries + [Entry(file, content)];
      sums := sums[file := tools.sha(content)];
    }
  }

  // ---------------------------------------------------------------- the archive

  datatype Package = Package(frameworks: seq<string>, controls: seq<Control>)

  function Hashes(items: seq<Item>): seq<string> {
    Sort(TextOrder(), Distinct(HashesOf(items)))
  }

  function CountStatus(hashes: seq<string>, status: map<string, Status>, which: Status): nat {
    if hashes == [] then 0
    else
      var last := hashes[|hashes| - 1];
      CountStatus(hashes[..|hashes| - 1], status, which) + if last in status && status[last] == which then 1 else 0
  }

  function FilesOf(entries: seq<Entry>): (r: seq<File>)
    ensures |r| == |entries| && forall i :: 0 <= i < |r| ==> r[i] == entries[i].file
  {
    seq(|entries|, i requires 0 <= i < |entries| => entries[i].file)
  }

  function ByPath(): Order<File> {
    (a, b) => TextLe(PathText(a), PathText(b))
  }

  /** The lines of SHA256SUMS: each path once, in order, with the hash of what was last written there. */
  function LinesOf(sums: map<File, string>, files: seq<File>): (r: seq<SumLine>)
    ensures |r| == |files|
  {
    seq(|files|, i requires 0 <= i < |files| =>
      SumLine(if files[i] in sums then sums[files[i]] else "", PathText(files[i])))
  }

  function SumsEntry(tools: Tools, entries: seq<Entry>): Entry {
    Entry(SumsFile, SumLines(LinesOf(Sums(tools, entries), Sort(ByPath(), Distinct(FilesOf(entries))))))
  }

  /** Everything written before the README and SHA256SUMS. */
  function BodyEntries(tools: Tools, package: Package, items: seq<Item>, stored: map<string, string>): seq<Entry> {
    var status := Statuses(tools, stored, Hashes(items));
    Included(tools, stored, Hashes(items)) + ControlEntries(tools, package.frameworks)
    + Listings(tools, AllGaps(package.controls, items, status), status)
  }

  function GapsAndFixes(tools: Tools, gaps: seq<Gap>): seq<Entry> {
    [Entry(GapsFile, Bytes(tools.gaps(gaps)))]
    + if tools.fixes.Some? then [Entry(FixesFile, Bytes(tools.fixes.value))] else []
  }

  function Listings(tools: Tools, gaps: seq<Gap>, status: map<string, Status>): seq<Entry> {
    GapsAndFixes(tools, gaps)
    + [Entry(ReadingsFile, Bytes(tools.readings(status))), Entry(ManifestFile, Bytes(tools.manifest))]
  }

  function SummaryOf(tools: Tools, package: Package, items: seq<Item>, stored: map<string, string>): Summary {
    var status := Statuses(tools, stored, Hashes(items));
    Counts(Sums(tools, BodyEntries(tools, package, items, stored)), Hashes(items), status,
           AllGaps(package.controls, items, status))
  }

  function ArchiveEntries(tools: Tools, package: Package, items: seq<Item>, stored: map<string, string>): seq<Entry> {
    var readme := Entry(ReadmeFile, Bytes(tools.readme(SummaryOf(tools, package, items, stored))));
    var listed := BodyEntries(tools, package, items, stored) + [readme];
    listed + [SumsEntry(tools, listed)]
  }

  method WritePayload(w: Writer, stored: map<string, string>, hash: string) returns (status: Status)
    requires w.Valid()
    modifies w
    ensures w.Valid() && w.entries == old(w.entries) + PayloadEntry(w.tools, stored, hash)
    ensures status == StatusOf(w.tools, stored, hash)
  {
    if hash !in stored || !IsHash(hash) {
      return PRUNED;
    }
    var content := w.tools.inflate(stored[hash]);
    if content.None? || w.tools.sha(Bytes(content.value)) != hash {
      return CORRUPT;
    }
    w.Add(PayloadFile(hash), Bytes(content.value));
    status := INCLUDED;
  }

  method WritePayloads(w: Writer, stored: map<string, string>, hashes: seq<string>)
    returns (status: map<string, Status>)
    requires w.Valid()
    modifies w
    ensures w.Valid() && w.entries == old(w.entries) + Included(w.tools, stored, hashes)
    ensures status == Statuses(w.tools, stored, hashes)
  {
    status := map[];
    for i := 0 to |hashes|
      invariant w.Valid() && w.entries == old(w.entries) + Included(w.tools, stored, hashes[..i])
      invariant status == Statuses(w.tools, stored, hashes[..i])
    {
      StatusOneMore(w.tools, stored, hashes, i);
      Associates(old(w.entries), Included(w.tools, stored, hashes[..i]), PayloadEntry(w.tools, stored, hashes[i]));
      var one := WritePayload(w, stored, hashes[i]);
      status := status[hashes[i] := one];
    }
    assert hashes[..|hashes|] == hashes;
  }

  lemma StatusOneMore(tools: Tools, stored: map<string, string>, hashes: seq<string>, i: nat)
    requires i < |hashes|
    ensures Statuses(tools, stored, hashes[..i + 1]) ==
            Statuses(tools, stored, hashes[..i])[hashes[i] := StatusOf(tools, stored, hashes[i])]
    ensures Included(tools, stored, hashes[..i + 1]) ==
            Included(tools, stored, hashes[..i]) + PayloadEntry(tools, stored, hashes[i])
  {
    assert hashes[..i + 1][..i] == hashes[..i];
    assert forall h :: h in hashes[..i + 1] <==> h in hashes[..i] || h == hashes[i];
  }

  method WriteControls(w: Writer, frameworks: seq<string>)
    requires w.Valid()
    modifies w
    ensures w.Valid() && w.entries == old(w.entries) + ControlEntries(w.tools, frameworks)
  {
    for i := 0 to |frameworks|
      invariant w.Valid() && w.entries == old(w.entries) + ControlEntries(w.tools, frameworks)[..i]
    {
      w.Add(ControlsFile(Slug(frameworks[i], "framework")), Bytes(w.tools.controls(frameworks[i])));
    }
  }

  method WriteGapsAndFixes(w: Writer, gaps: seq<Gap>)
    requires w.Valid()
    modifies w
    ensures w.Valid() && w.entries == old(w.entries) + GapsAndFixes(w.tools, gaps)
  {
    w.Add(GapsFile, Bytes(w.tools.gaps(gaps)));
    if w.tools.fixes.Some? {
      w.Add(FixesFile, Bytes(w.tools.fixes.value));
    }
  }

  method WriteListings(w: Writer, gaps: seq<Gap>, status: map<string, Status>)
    requires w.Valid()
    modifies w
    ensures w.Valid() && w.entries == old(w.entries) + Listings(w.tools, gaps, status)
  {
    WriteGapsAndFixes(w, gaps);
    w.Add(ReadingsFile, Bytes(w.tools.readings(status)));
    w.Add(ManifestFile, Bytes(w.tools.manifest));
  }

  method WriteBody(w: Writer, package: Package, items: seq<Item>, stored: map<string, string>)
    returns (status: map<string, Status>, gaps: seq<Gap>)
    requires w.Valid() && w.entries == []
    modifies w
    ensures w.Valid() && w.entries == BodyEntries(w.tools, package, items, stored)
    ensures status == Statuses(w.tools, stored, Hashes(items)) && gaps == AllGaps(package.controls, items, status)
  {
    status := WritePayloads(w, stored, Hashes(items));
    assert w.entries == Included(w.tools, stored, Hashes(items));
    WriteControls(w, package.frameworks);
    gaps := GapRows(package.controls, items, status);
    WriteListings(w, gaps, status);
  }

  method WriteArchive(tools: Tools, package: Package, items: seq<Item>, stored: map<string, string>)
    returns (entries: seq<Entry>, summary: Summary)
    ensures entries == ArchiveEntries(tools, package, items, stored)
    ensures summary == SummaryOf(tools, package, items, stored)
  {
    var w := new Writer(tools);
    var status, gaps := WriteBody(w, package, items, stored);
    summary := Counts(w.sums, Hashes(items), status, gaps);
    WriteLast(w, summary);
    entries := w.entries;
  }

  function Counts(sums: map<File, string>, hashes: seq<string>, status: map<string, Status>, gaps: seq<Gap>): Summary {
    Summary(|sums| + 2, CountStatus(hashes, status, INCLUDED), CountStatus(hashes, status, PRUNED),
            CountStatus(hashes, status, CORRUPT), |gaps|)
  }

  /** The README, and SHA256SUMS over every other file. */
  method WriteLast(w: Writer, summary: Summary)
    requires w.Valid()
    modifies w
    ensures var listed := old(w.entries) + [Entry(ReadmeFile, Bytes(w.tools.readme(summary)))];
            w.entries == listed + [SumsEntry(w.tools, listed)]
  {
    w.Add(ReadmeFile, Bytes(w.tools.readme(summary)));
    w.Add(SumsFile, SumLines(LinesOf(w.sums, Sort(ByPath(), Distinct(FilesOf(w.entries))))));
  }
}
