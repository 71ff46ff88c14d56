/** What a sealed package says, built from its rows, and the hash it is checked by. */
module Packages {
  import opened Wrappers
  import opened Text
  import opened Lists
  import opened Sorting
  import opened Instants

  const FIXES_SINCE := 2
  const MAX_FIXES := 5000

  /** An endpoint a reading was made under; `rest` is anything else recorded of it. */
  datatype Endpoint = Endpoint(path: string, apiVersion: string, rest: string)

  datatype Details = Details(provider: string, outcome: string, itemCount: int, collectedAt: Instant,
                             sourceScan: Option<string>, contentHash: Option<string>, byteSize: int)

  /** A reading of the package, as its row holds it. */
  datatype Row = Row(evidenceKey: string, account: Option<string>, region: Option<string>, permissions: seq<string>,
                     endpoints: seq<Endpoint>, details: Details)

  function OrEmpty(text: Option<string>): string {
    if text.Some? then text.value else ""
  }

  // ---------------------------------------------------------------- orders

  predicate PairLe(a: string, x: string, b: string, y: string) {
    if a != b then TextLe(a, b) else TextLe(x, y)
  }

  lemma PairLeTotal(a: string, x: string, b: string, y: string)
    ensures PairLe(a, x, b, y) || PairLe(b, y, a, x)
    ensures PairLe(a, x, b, y) && PairLe(b, y, a, x) ==> a == b && x == y
  {
    TextLeTotal(a, b);
    TextLeTotal(x, y);
  }

  lemma PairLeTransitive(a: string, x: string, b: string, y: string, c: string, z: string)
    requires PairLe(a, x, b, y) && PairLe(b, y, c, z)
    ensures PairLe(a, x, c, z)
  {
    TextLeTotal(a, b);
    TextLeTotal(b, c);
    if TextLe(a, b) && TextLe(b, c) { TextLeTransitive(a, b, c); }
    if TextLe(x, y) && TextLe(y, z) { TextLeTransitive(x, y, z); }
  }

  function EndpointOrder(): Order<Endpoint> {
    (a: Endpoint, b: Endpoint) => PairLe(a.path, a.apiVersion, b.path, b.apiVersion)
  }

  predicate RowLe(a: Row, b: Row) {
    if a.evidenceKey != b.evidenceKey then TextLe(a.evidenceKey, b.evidenceKey)
    else PairLe(OrEmpty(a.account), OrEmpty(a.region), OrEmpty(b.account), OrEmpty(b.region))
  }

  /** `_item_order`: by evidence key, account and region, what is missing counting as empty. */
  function ItemOrder(): Order<Row> {
    (a, b) => RowLe(a, b)
  }

  lemma RowLeTotal(a: Row, b: Row)
    ensures RowLe(a, b) || RowLe(b, a)
    ensures RowLe(a, b) && RowLe(b, a) <==> SameKey(a, b)
  {
    TextLeTotal(a.evidenceKey, b.evidenceKey);
    PairLeTotal(OrEmpty(a.account), OrEmpty(a.region), OrEmpty(b.account), OrEmpty(b.region));
  }

  lemma RowLeTransitive(a: Row, b: Row, c: Row)
    requires RowLe(a, b) && RowLe(b, c)
    ensures RowLe(a, c)
  {
    TextLeTotal(a.evidenceKey, b.evidenceKey);
    TextLeTotal(b.evidenceKey, c.evidenceKey);
    if TextLe(a.evidenceKey, b.evidenceKey) && TextLe(b.evidenceKey, c.evidenceKey) {
      TextLeTransitive(a.evidenceKey, b.evidenceKey, c.evidenceKey);
    }
    if a.evidenceKey == b.evidenceKey == c.evidenceKey {
      PairLeTransitive(OrEmpty(a.account), OrEmpty(a.region), OrEmpty(b.account), OrEmpty(b.region),
                       OrEmpty(c.account), OrEmpty(c.region));
    }
  }

  lemma ItemOrderIsOrder()
    ensures IsOrder(ItemOrder())
  {
    forall a, b
      ensures ItemOrder()(a, b) || ItemOrder()(b, a)
    {
      RowLeTotal(a, b);
    }
    forall a, b, c | ItemOrder()(a, b) && ItemOrder()(b, c)
      ensures ItemOrder()(a, c)
    {
      RowLeTransitive(a, b, c);
    }
  }

  /** Two rows with one order key. */
  predicate SameKey(a: Row, b: Row) {
    a.evidenceKey == b.evidenceKey && OrEmpty(a.account) == OrEmpty(b.account) && OrEmpty(a.region) == OrEmpty(b.region)
  }

  // ---------------------------------------------------------------- the manifest

  /** `_item`: a row as the manifest describes it, its permissions and endpoints in one order. */
  function Normal(row: Row): Row {
    row.(permissions := Sort(TextOrder(), row.permissions), endpoints := Sort(EndpointOrder(), row.endpoints))
  }

  function Normals(rows: seq<Row>): seq<Row> {
    Mapped(rows, Normal)
  }

  function Evidence(rows: seq<Row>): seq<Row> {
    Sort(ItemOrder(), Normals(rows))
  }

  /** One finding a scan observed fixed; `rest` is the trail of work behind it. */
  datatype Fix = Fix(findingId: string, fixedAt: Instant, rest: string)

  datatype Fixes = Fixes(from: Instant, to: Instant, total: nat, items: seq<Fix>)

  /** What a package is besides its readings. `fixes` is None where the package keeps none. */
  datatype Package = Package(version: int, header: string, frameworks: string, controls: string, fixes: Option<Fixes>,
                             sealedHash: string)

  /** The document that is hashed; no fixes member before version 2. */
  datatype Manifest = Manifest(version: int, header: string, frameworks: string, controls: string, evidence: seq<Row>,
                               fixes: Option<Option<Fixes>>)

  function ManifestOf(p: Package, rows: seq<Row>): Manifest {
    Manifest(p.version, p.header, p.frameworks, p.controls, Evidence(rows),
             if p.version >= FIXES_SINCE then Some(p.fixes) else None)
  }

  /** `verify`, for a digest of canonical documents. */
  predicate Verify(digest: Manifest -> string, p: Package, rows: seq<Row>) {
    digest(ManifestOf(p, rows)) == p.sealedHash
  }

  // ---------------------------------------------------------------- fixes

  predicate FixLe(a: Fix, b: Fix) {
    PairLe(Iso(a.fixedAt), a.findingId, Iso(b.fixedAt), b.findingId)
  }

  function FixOrder(): Order<Fix> {
    (a, b) => FixLe(a, b)
  }

  /** `seal_fixes`: the window, how many fixes there were, and the latest of them. */
  function SealFixes(fixes: seq<Fix>, from: Instant, to: Instant): Fixes {
    var ordered := Sort(FixOrder(), fixes);
    Fixes(from, to, |ordered|, Last(ordered, MAX_FIXES))
  }
}
