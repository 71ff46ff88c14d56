/** SHA256SUMS and the count of files: right exactly when no two frameworks share a file name. */
module ArchiveSums {
  import opened Lists
  import opened Sorting
  import opened Archive
  import opened ArchiveLaws

  lemma {:induction false} DistinctLength<T(!new)>(xs: seq<T>)
    ensures |Distinct(xs)| <= |xs|
    ensures |Distinct(xs)| == |xs| <==> NoRepeats(xs)
  {
    if xs != [] {
      var rest, last := xs[..|xs| - 1], xs[|xs| - 1];
      assert xs == rest + [last];
      DistinctLength(rest);
      NoRepeatsConcat(rest, [last]);
    }
  }

  lemma FilesConcat(a: seq<Entry>, b: seq<Entry>)
    ensures FilesOf(a + b) == FilesOf(a) + FilesOf(b)
  {
  }

  lemma {:induction false} SumsCountFiles(tools: Tools, entries: seq<Entry>)
    ensures |Sums(tools, entries)| == |Distinct(FilesOf(entries))|
  {
    if entries != [] {
      var rest, last := entries[..|entries| - 1], entries[|entries| - 1];
      assert entries == rest + [last];
      SumsCountFiles(tools, rest);
      FilesConcat(rest, [last]);
      assert FilesOf(entries)[..|rest|] == FilesOf(rest);
      FileOfEntry(rest, last.file);
    }
  }

  lemma FileOfEntry(entries: seq<Entry>, f: File)
    ensures f in FilesOf(entries) <==> exists e :: e in entries && e.file == f
  {
    if e :| e in entries && e.file == f {
      var i :| 0 <= i < |entries| && entries[i] == e;
      assert FilesOf(entries)[i] == f;
    }
  }

  /** The frameworks' file names, as their ids are made into them. */
  function Slugs(frameworks: seq<string>): (r: seq<string>)
    ensures |r| == |frameworks| && forall i :: 0 <= i < |r| ==> r[i] == Slug(frameworks[i], "framework")
  {
    seq(|frameworks|, i requires 0 <= i < |frameworks| => Slug(frameworks[i], "framework"))
  }

  lemma FilesOfThree(a: seq<Entry>, b: seq<Entry>, c: seq<Entry>)
    ensures FilesOf(a + b + c) == FilesOf(a) + FilesOf(b) + FilesOf(c)
  {
    FilesConcat(a, b);
    FilesConcat(a + b, c);
  }

  lemma ControlFilesAre(tools: Tools, frameworks: seq<string>)
    ensures Kinds([], FilesOf(ControlEntries(tools, frameworks)), [])
  {
  }

  lemma ControlFilesDistinct(tools: Tools, frameworks: seq<string>)
    ensures NoRepeats(FilesOf(ControlEntries(tools, frameworks))) <==> NoRepeats(Slugs(frameworks))
  {
    var files := FilesOf(ControlEntries(tools, frameworks));
    assert forall i :: 0 <= i < |files| ==> files[i] == ControlsFile(Slugs(frameworks)[i]);
  }

  lemma {:induction false} PayloadFilesDistinct(tools: Tools, stored: map<string, string>, hashes: seq<string>)
    requires NoRepeats(hashes)
    ensures NoRepeats(FilesOf(Included(tools, stored, hashes)))
    ensures forall i :: 0 <= i < |FilesOf(Included(tools, stored, hashes))| ==>
              FilesOf(Included(tools, stored, hashes))[i].PayloadFile?
              && FilesOf(Included(tools, stored, hashes))[i].hash in hashes
  {
    if hashes != [] {
      var rest, last := hashes[..|hashes| - 1], hashes[|hashes| - 1];
      assert hashes == rest + [last];
      NoRepeatsConcat(rest, [last]);
      PayloadFilesDistinct(tools, stored, rest);
      assert last in [last] && last !in rest;
      FilesConcat(Included(tools, stored, rest), PayloadEntry(tools, stored, last));
      OneFileMore(FilesOf(Included(tools, stored, rest)), FilesOf(PayloadEntry(tools, stored, last)), rest, last);
    }
  }

  lemma OneFileMore(files: seq<File>, one: seq<File>, hashes: seq<string>, last: string)
    requires NoRepeats(files) && last !in hashes && |one| <= 1 && (one != [] ==> one[0] == PayloadFile(last))
    requires forall i :: 0 <= i < |files| ==> files[i].PayloadFile? && files[i].hash in hashes
    ensures NoRepeats(files + one)
    ensures forall i :: 0 <= i < |files + one| ==>
              (files + one)[i].PayloadFile? && (files + one)[i].hash in hashes + [last]
  {
  }

  lemma ListingFilesDistinct(tools: Tools, gaps: seq<Gap>, status: map<string, Status>)
    ensures NoRepeats(FilesOf(Listings(tools, gaps, status)))
    ensures Kinds([], [], FilesOf(Listings(tools, gaps, status)))
  {
  }

  ghost predicate Kinds(a: seq<File>, b: seq<File>, c: seq<File>) {
    && (forall i :: 0 <= i < |a| ==> a[i].PayloadFile?)
    && (forall i :: 0 <= i < |b| ==> b[i].ControlsFile?)
    && (forall i :: 0 <= i < |c| ==> c[i].GapsFile? || c[i].FixesFile? || c[i].ReadingsFile? || c[i].ManifestFile?)
  }

  lemma ThreeKinds(a: seq<File>, b: seq<File>, c: seq<File>)
    requires Kinds(a, b, c) && NoRepeats(a) && NoRepeats(c)
    ensures NoRepeats(a + b + c) <==> NoRepeats(b)
    ensures ReadmeFile !in a + b + c && SumsFile !in a + b + c
  {
    NoRepeatsConcat(a, b);
    NoRepeatsConcat(a + b, c);
  }

  lemma BodyFilesDistinct(tools: Tools, package: Package, items: seq<Item>, stored: map<string, string>)
    ensures NoRepeats(FilesOf(BodyEntries(tools, package, items, stored))) <==> NoRepeats(Slugs(package.frameworks))
    ensures ReadmeFile !in FilesOf(BodyEntries(tools, package, items, stored))
  {
    var status := Statuses(tools, stored, Hashes(items));
    var gaps := AllGaps(package.controls, items, status);
    var a, b, c := Included(tools, stored, Hashes(items)), ControlEntries(tools, package.frameworks),
        Listings(tools, gaps, status);
    HashesAre(items);
    PayloadFilesDistinct(tools, stored, Hashes(items));
    ControlFilesDistinct(tools, package.frameworks);
    ListingFilesDistinct(tools, gaps, status);
    FilesOfThree(a, b, c);
    ControlFilesAre(tools, package.frameworks);
    ThreeKinds(FilesOf(a), FilesOf(b), FilesOf(c));
  }

  /** The number of files reported is the number written exactly when the frameworks' file names are distinct. */
  lemma FilesAreCountedUnlessSlugsCollide(tools: Tools, package: Package, items: seq<Item>, stored: map<string, string>)
    ensures SummaryOf(tools, package, items, stored).files == |ArchiveEntries(tools, package, items, stored)|
            <==> NoRepeats(Slugs(package.frameworks))
  {
    var body := BodyEntries(tools, package, items, stored);
    SumsCountFiles(tools, body);
    DistinctLength(FilesOf(body));
    BodyFilesDistinct(tools, package, items, stored);
  }

  // ---------------------------------------------------------------- the lines

  lemma {:induction false} SumsAt(tools: Tools, entries: seq<Entry>, i: nat)
    requires NoRepeats(FilesOf(entries)) && i < |entries|
    ensures entries[i].file in Sums(tools, entries)
    ensures Sums(tools, entries)[entries[i].file] == tools.sha(entries[i].content)
  {
    var rest, last := entries[..|entries| - 1], entries[|entries| - 1];
    if i < |rest| {
      assert FilesOf(rest) == FilesOf(entries)[..|rest|];
      SumsAt(tools, rest, i);
      assert FilesOf(entries)[i] != FilesOf(entries)[|rest|];
    }
  }

  /** With distinct file names, SHA256SUMS has a line for every other file, with the hash of what the archive holds
      under it, and no other line: as many as there are other files, no two for one path. */
  lemma SumsListEveryOtherFile(tools: Tools, package: Package, items: seq<Item>, stored: map<string, string>, i: nat)
    requires NoRepeats(Slugs(package.frameworks)) && i + 1 < |ArchiveEntries(tools, package, items, stored)|
    ensures
      var entries := ArchiveEntries(tools, package, items, stored);
      var last := entries[|entries| - 1];
      && last.file == SumsFile && last.content.SumLines? && |last.content.lines| == |entries| - 1
      && SumLine(tools.sha(entries[i].content), PathText(entries[i].file)) in last.content.lines
      && (forall j, k :: 0 <= j < k < |last.content.lines| ==> last.content.lines[j].path != last.content.lines[k].path)
  {
    var body := BodyEntries(tools, package, items, stored);
    var readme := Entry(ReadmeFile, Bytes(tools.readme(SummaryOf(tools, package, items, stored))));
    ListedFilesDistinct(tools, package, items, stored, readme);
    LinesOfDistinct(tools, body + [readme], i);
  }

  lemma LinesCount(tools: Tools, listed: seq<Entry>)
    ensures SumsEntry(tools, listed).content.SumLines?
    ensures |SumsEntry(tools, listed).content.lines| == |listed| <==> NoRepeats(FilesOf(listed))
  {
    var distinct := Distinct(FilesOf(listed));
    DistinctLength(FilesOf(listed));
    assert |multiset(distinct)| == |multiset(Sort(ByPath(), distinct))|;
  }

  lemma ListedFilesDistinct(tools: Tools, package: Package, items: seq<Item>, stored: map<string, string>, last: Entry)
    requires last.file == ReadmeFile
    ensures NoRepeats(FilesOf(BodyEntries(tools, package, items, stored) + [last]))
            <==> NoRepeats(Slugs(package.frameworks))
  {
    var body := BodyEntries(tools, package, items, stored);
    BodyFilesDistinct(tools, package, items, stored);
    FilesConcat(body, [last]);
    NoRepeatsConcat(FilesOf(body), FilesOf([last]));
  }

  /** SHA256SUMS has a line for each of the other files exactly when the frameworks' file names are distinct. */
  lemma LinesAreTheFilesUnlessSlugsCollide(tools: Tools, package: Package, items: seq<Item>,
                                           stored: map<string, string>)
    ensures
      var entries := ArchiveEntries(tools, package, items, stored);
      var last := entries[|entries| - 1];
      last.content.SumLines? && (|last.content.lines| == |entries| - 1 <==> NoRepeats(Slugs(package.frameworks)))
  {
    var readme := Entry(ReadmeFile, Bytes(tools.readme(SummaryOf(tools, package, items, stored))));
    ListedFilesDistinct(tools, package, items, stored, readme);
    LinesCount(tools, BodyEntries(tools, package, items, stored) + [readme]);
  }

  /** Two frameworks whose ids differ by a dot at the end have one file name, and the archive one line too few. */
  lemma SlugsCanCollide(tools: Tools, package: Package, items: seq<Item>, stored: map<string, string>)
    requires package.frameworks == ["SOC2", "SOC2."]
    ensures
      var entries := ArchiveEntries(tools, package, items, stored);
      var last := entries[|entries| - 1];
      last.content.SumLines? && |last.content.lines| != |entries| - 1
  {
    DotsCollide(package.frameworks);
    LinesAreTheFilesUnlessSlugsCollide(tools, package, items, stored);
  }

  // ---------------------------------------------------------------- names that are their own slugs

  predicate AllSafe(text: string) {
    forall i :: 0 <= i < |text| ==> SafeChar(text[i])
  }

  predicate Stripped(c: char) {
    c == '-' || c == '.'
  }

  /** Safe characters only, and none at either end that would be stripped. */
  predicate IsPlain(text: string) {
    text != "" && AllSafe(text) && !Stripped(text[0]) && !Stripped(text[|text| - 1])
  }

  lemma {:induction false} SafeStays(text: string)
    requires AllSafe(text)
    ensures Dashed(text, false) == text
  {
    if text != "" {
      SafeStays(text[1..]);
      assert text == [text[0]] + text[1..];
    }
  }

  lemma PlainIsItsOwnSlug(text: string)
    requires IsPlain(text)
    ensures Slug(text, "framework") == text
  {
    SafeStays(text);
  }

  lemma DotAtTheEnd(text: string)
    requires IsPlain(text)
    ensures Slug(text + ".", "framework") == text
  {
    SafeStays(text + ".");
    assert StripLeft(text + ".") == text + ".";
    assert (text + ".")[..|text|] == text;
    assert StripRight(text + ".") == StripRight(text) == text;
  }

  lemma DotsCollide(frameworks: seq<string>)
    requires frameworks == ["SOC2", "SOC2."]
    ensures !NoRepeats(Slugs(frameworks))
  {
    PlainIsItsOwnSlug("SOC2");
    DotAtTheEnd("SOC2");
    assert "SOC2" + "." == "SOC2.";
    assert Slugs(frameworks)[0] == Slugs(frameworks)[1];
  }

  /** Where every framework's id is plain, their file names are distinct exactly when the ids are. */
  lemma PlainNamesNeverCollide(frameworks: seq<string>)
    requires forall i :: 0 <= i < |frameworks| ==> IsPlain(frameworks[i])
    ensures Slugs(frameworks) == frameworks
    ensures NoRepeats(Slugs(frameworks)) <==> NoRepeats(frameworks)
  {
    forall i | 0 <= i < |frameworks|
      ensures Slugs(frameworks)[i] == frameworks[i]
    {
      PlainIsItsOwnSlug(frameworks[i]);
    }
  }

  function ListedFiles(listed: seq<Entry>): seq<File> {
    Sort(ByPath(), Distinct(FilesOf(listed)))
  }

  lemma ListedFilesAre(tools: Tools, listed: seq<Entry>)
    requires NoRepeats(FilesOf(listed))
    ensures |ListedFiles(listed)| == |listed| && NoRepeats(ListedFiles(listed))
    ensures forall f :: f in ListedFiles(listed) <==> f in FilesOf(listed)
    ensures forall k :: 0 <= k < |ListedFiles(listed)| ==> ListedFiles(listed)[k] in Sums(tools, listed)
  {
    var distinct := Distinct(FilesOf(listed));
    DistinctLength(FilesOf(listed));
    SameItems(distinct, ListedFiles(listed));
    PermutationKeepsNoRepeats(distinct, ListedFiles(listed));
    forall k | 0 <= k < |ListedFiles(listed)|
      ensures ListedFiles(listed)[k] in Sums(tools, listed)
    {
      assert ListedFiles(listed)[k] in ListedFiles(listed);
      FileOfEntry(listed, ListedFiles(listed)[k]);
    }
  }

  lemma PathsDiffer(sums: map<File, string>, files: seq<File>)
    requires NoRepeats(files) && forall i :: 0 <= i < |files| ==> files[i] in sums
    ensures |LinesOf(sums, files)| == |files|
    ensures forall j, k :: 0 <= j < k < |files| ==> LinesOf(sums, files)[j].path != LinesOf(sums, files)[k].path
  {
    forall j, k | 0 <= j < k < |files|
      ensures LinesOf(sums, files)[j].path != LinesOf(sums, files)[k].path
    {
      PathsTellFilesApart(files[j], files[k]);
    }
  }

  lemma LineOf(sums: map<File, string>, files: seq<File>, f: File)
    requires f in files && forall i :: 0 <= i < |files| ==> files[i] in sums
    ensures f in sums && SumLine(sums[f], PathText(f)) in LinesOf(sums, files)
  {
    var at :| 0 <= at < |files| && files[at] == f;
    assert LinesOf(sums, files)[at] == SumLine(sums[f], PathText(f));
  }

  lemma LinesOfDistinct(tools: Tools, listed: seq<Entry>, i: nat)
    requires NoRepeats(FilesOf(listed)) && i < |listed|
    ensures
      var lines := SumsEntry(tools, listed).content.lines;
      && |lines| == |listed| && SumLine(tools.sha(listed[i].content), PathText(listed[i].file)) in lines
      && (forall j, k :: 0 <= j < k < |lines| ==> lines[j].path != lines[k].path)
  {
    var files, sums := ListedFiles(listed), Sums(tools, listed);
    ListedFilesAre(tools, listed);
    PathsDiffer(sums, files);
    SumsAt(tools, listed, i);
    assert FilesOf(listed)[i] == listed[i].file;
    LineOf(sums, files, listed[i].file);
  }
}
