/** What the manifest's hash is good for: the rows, in any order, and nothing else. */
module PackageLaws {
  import opened Wrappers
  import opened Text
  import opened Lists
  import opened Sorting
  import opened Instants
  import opened Packages

  // ---------------------------------------------------------------- what describes a row

  /** The endpoints of one path and version, in order. */
  ghost function Under(endpoints: seq<Endpoint>, path: string, version: string): seq<Endpoint> {
    if endpoints == [] then []
    else
      var last := endpoints[|endpoints| - 1];
      Under(endpoints[..|endpoints| - 1], path, version)
      + if last.path == path && last.apiVersion == version then [last] else []
  }

  ghost predicate SameEndpoints(a: seq<Endpoint>, b: seq<Endpoint>) {
    forall path, version :: Under(a, path, version) == Under(b, path, version)
  }

  /** Two rows say the same reading was made: one key, account and region, the same details, the same permissions in any
      order, and the same endpoints in any order but that of those sharing a path and a version. */
  ghost predicate Alike(a: Row, b: Row) {
    && a.evidenceKey == b.evidenceKey && a.account == b.account && a.region == b.region && a.details == b.details
    && multiset(a.permissions) == multiset(b.permissions) && SameEndpoints(a.endpoints, b.endpoints)
  }

  lemma EndpointOrderIsOrder()
    ensures IsOrder(EndpointOrder())
    ensures forall a, b :: Ties(EndpointOrder(), a, b) <==> a.path == b.path && a.apiVersion == b.apiVersion
  {
    forall a: Endpoint, b: Endpoint
      ensures EndpointOrder()(a, b) || EndpointOrder()(b, a)
      ensures Ties(EndpointOrder(), a, b) <==> a.path == b.path && a.apiVersion == b.apiVersion
    {
      PairLeTotal(a.path, a.apiVersion, b.path, b.apiVersion);
    }
    forall a: Endpoint, b: Endpoint, c: Endpoint | EndpointOrder()(a, b) && EndpointOrder()(b, c)
      ensures EndpointOrder()(a, c)
    {
      PairLeTransitive(a.path, a.apiVersion, b.path, b.apiVersion, c.path, c.apiVersion);
    }
  }

  lemma {:induction false} TiedAreUnder(endpoints: seq<Endpoint>, k: Endpoint)
    requires forall a, b :: Ties(EndpointOrder(), a, b) <==> a.path == b.path && a.apiVersion == b.apiVersion
    ensures Tied(EndpointOrder(), endpoints, k) == Under(endpoints, k.path, k.apiVersion)
  {
    if endpoints != [] {
      TiedAreUnder(endpoints[..|endpoints| - 1], k);
    }
  }

  lemma EndpointsSortAlike(a: seq<Endpoint>, b: seq<Endpoint>)
    ensures Sort(EndpointOrder(), a) == Sort(EndpointOrder(), b) <==> SameEndpoints(a, b)
  {
    EndpointOrderIsOrder();
    SortsAlike(EndpointOrder(), a, b);
    forall k
      ensures Tied(EndpointOrder(), a, k) == Under(a, k.path, k.apiVersion)
      ensures Tied(EndpointOrder(), b, k) == Under(b, k.path, k.apiVersion)
    {
      TiedAreUnder(a, k);
      TiedAreUnder(b, k);
    }
    if TiedAlike(EndpointOrder(), a, b) {
      forall path, version
        ensures Under(a, path, version) == Under(b, path, version)
      {
        var k := Endpoint(path, version, "");
        assert Tied(EndpointOrder(), a, k) == Tied(EndpointOrder(), b, k);
      }
    }
  }

  /** Where no two endpoints share a path and a version, they are the same in any order. */
  lemma DistinctEndpoints(a: seq<Endpoint>, b: seq<Endpoint>)
    requires forall x, y :: x in a && y in a && x.path == y.path && x.apiVersion == y.apiVersion ==> x == y
    ensures SameEndpoints(a, b) <==> multiset(a) == multiset(b)
  {
    EndpointOrderIsOrder();
    EndpointsSortAlike(a, b);
    if multiset(a) == multiset(b) {
      assert forall x, y :: EndpointOrder()(x, y) && EndpointOrder()(y, x) ==> Ties(EndpointOrder(), x, y);
      SortIgnoresOrder(EndpointOrder(), a, b);
    }
  }

  lemma TextsSortAlike(a: seq<string>, b: seq<string>)
    ensures Sort(TextOrder(), a) == Sort(TextOrder(), b) <==> multiset(a) == multiset(b)
  {
    TextOrderIsOrder();
    if multiset(a) == multiset(b) {
      forall x, y | TextOrder()(x, y) && TextOrder()(y, x)
        ensures x == y
      {
        TextLeTotal(x, y);
      }
      SortIgnoresOrder(TextOrder(), a, b);
    }
  }

  /** The manifest describes two rows in one way exactly when they say the same. */
  lemma DescribedAlike(a: Row, b: Row)
    ensures Normal(a) == Normal(b) <==> Alike(a, b)
  {
    TextsSortAlike(a.permissions, b.permissions);
    EndpointsSortAlike(a.endpoints, b.endpoints);
  }

  // ---------------------------------------------------------------- which rows there are

  /** How many of the rows say what one does. */
  ghost function NumberLike(rows: seq<Row>, x: Row): nat {
    if rows == [] then 0
    else NumberLike(rows[..|rows| - 1], x) + if Alike(rows[|rows| - 1], x) then 1 else 0
  }

  lemma MappedOneMoreOf<A, B>(xs: seq<A>, x: A, f: A -> B, k: B)
    ensures multiset(Mapped(xs + [x], f))[k] == multiset(Mapped(xs, f))[k] + if f(x) == k then 1 else 0
  {
    assert Mapped(xs + [x], f) == Mapped(xs, f) + [f(x)];
  }

  /** The same readings, each as often. */
  ghost predicate SameReadings(a: seq<Row>, b: seq<Row>) {
    forall x :: NumberLike(a, x) == NumberLike(b, x)
  }

  lemma {:induction false} LikeAreCounted(rows: seq<Row>, x: Row)
    ensures multiset(Normals(rows))[Normal(x)] == NumberLike(rows, x)
  {
    if rows != [] {
      var rest, last := rows[..|rows| - 1], rows[|rows| - 1];
      assert rows == rest + [last];
      LikeAreCounted(rest, x);
      MappedOneMoreOf(rest, last, Normal, Normal(x));
      DescribedAlike(last, x);
    }
  }

  lemma NormalsAreReadings(a: seq<Row>, b: seq<Row>)
    ensures multiset(Normals(a)) == multiset(Normals(b)) <==> SameReadings(a, b)
  {
    forall x
      ensures multiset(Normals(a))[Normal(x)] == NumberLike(a, x)
      ensures multiset(Normals(b))[Normal(x)] == NumberLike(b, x)
    {
      LikeAreCounted(a, x);
      LikeAreCounted(b, x);
    }
    if SameReadings(a, b) {
      forall k
        ensures multiset(Normals(a))[k] == multiset(Normals(b))[k]
      {
        OccursAlike(a, b, k);
      }
    }
  }

  lemma OccursAlike(a: seq<Row>, b: seq<Row>, k: Row)
    requires SameReadings(a, b)
    requires forall x :: multiset(Normals(a))[Normal(x)] == NumberLike(a, x)
    requires forall x :: multiset(Normals(b))[Normal(x)] == NumberLike(b, x)
    ensures multiset(Normals(a))[k] == multiset(Normals(b))[k]
  {
    if k in Normals(a) {
      var i := RowOf(a, k);
      assert NumberLike(a, a[i]) == NumberLike(b, a[i]);
    } else if k in Normals(b) {
      var i := RowOf(b, k);
      assert NumberLike(a, b[i]) == NumberLike(b, b[i]);
    }
  }

  /** No two rows that say different things share a key. */
  ghost predicate KeysDistinguish(rows: seq<Row>) {
    forall i, j :: 0 <= i < |rows| && 0 <= j < |rows| && SameKey(rows[i], rows[j]) ==> Alike(rows[i], rows[j])
  }

  lemma KeysAreStrict(rows: seq<Row>)
    ensures KeysDistinguish(rows) <==> Strict(ItemOrder(), Normals(rows))
  {
    forall a, b
      ensures ItemOrder()(a, b) && ItemOrder()(b, a) <==> SameKey(a, b)
    {
      RowLeTotal(a, b);
    }
    forall i, j | 0 <= i < |rows| && 0 <= j < |rows|
      ensures Alike(rows[i], rows[j]) <==> Normals(rows)[i] == Normals(rows)[j]
      ensures SameKey(rows[i], rows[j]) <==> SameKey(Normals(rows)[i], Normals(rows)[j])
    {
      DescribedAlike(rows[i], rows[j]);
    }
    if KeysDistinguish(rows) {
      forall a, b | a in Normals(rows) && b in Normals(rows) && ItemOrder()(a, b) && ItemOrder()(b, a)
        ensures a == b
      {
        var i := RowOf(rows, a);
        var j := RowOf(rows, b);
        assert Normals(rows)[i] == a && Normals(rows)[j] == b;
      }
    }
    if Strict(ItemOrder(), Normals(rows)) {
      forall i, j | 0 <= i < |rows| && 0 <= j < |rows| && SameKey(rows[i], rows[j])
        ensures Alike(rows[i], rows[j])
      {
        assert Normals(rows)[i] in Normals(rows) && Normals(rows)[j] in Normals(rows);
      }
    }
  }

  /** Where keys tell rows apart, two sets of rows make one evidence section exactly when they are the same readings,
      each as often, whatever order they are read in. */
  lemma EvidenceIsTheRows(a: seq<Row>, b: seq<Row>)
    requires KeysDistinguish(a)
    ensures Evidence(a) == Evidence(b) <==> SameReadings(a, b)
  {
    ItemOrderIsOrder();
    KeysAreStrict(a);
    NormalsAreReadings(a, b);
    if multiset(Normals(a)) == multiset(Normals(b)) {
      SortIgnoresOrder(ItemOrder(), Normals(a), Normals(b));
    }
  }

  /** The section lists readings by key, then account, then region, what is missing coming first. */
  lemma EvidenceIsInOrder(rows: seq<Row>, i: nat, j: nat)
    requires i < j < |Evidence(rows)|
    ensures
      var a, b := Evidence(rows)[i], Evidence(rows)[j];
      && TextLe(a.evidenceKey, b.evidenceKey)
      && (a.evidenceKey == b.evidenceKey ==> TextLe(OrEmpty(a.account), OrEmpty(b.account)))
      && (a.evidenceKey == b.evidenceKey && OrEmpty(a.account) == OrEmpty(b.account) ==>
            TextLe(OrEmpty(a.region), OrEmpty(b.region)))
  {
    var a, b := Evidence(rows)[i], Evidence(rows)[j];
    ItemOrderIsOrder();
    SortIsSorted(ItemOrder(), Normals(rows));
    TextLeTotal(a.evidenceKey, a.evidenceKey);
    TextLeTotal(OrEmpty(a.account), OrEmpty(a.account));
  }

  // ---------------------------------------------------------------- read order

  ghost predicate IgnoresReadOrder(rows: seq<Row>) {
    forall other :: multiset(other) == multiset(rows) ==> Evidence(other) == Evidence(rows)
  }

  lemma {:induction false} TiedConcat(le: Order<Row>, a: seq<Row>, b: seq<Row>, k: Row)
    ensures Tied(le, a + b, k) == Tied(le, a, k) + Tied(le, b, k)
    decreases |b|
  {
    if b == [] {
      assert a + b == a;
    } else {
      TiedConcat(le, a, b[..|b| - 1], k);
      assert (a + b)[..|a + b| - 1] == a + b[..|b| - 1];
    }
  }

  /** Where two rows tie and are described differently, the order they are read in shows. */
  lemma TiedPairShows(x: Row, y: Row, rest: seq<Row>)
    requires SameKey(Normal(x), Normal(y)) && Normal(x) != Normal(y)
    ensures Evidence([x, y] + rest) != Evidence([y, x] + rest)
  {
    var le, k := ItemOrder(), Normal(x);
    ItemOrderIsOrder();
    RowLeTotal(k, Normal(y));
    RowLeTotal(k, k);
    MappedConcat([x, y], rest, Normal);
    MappedConcat([y, x], rest, Normal);
    SortKeepsTies(le, Normals([x, y] + rest), k);
    SortKeepsTies(le, Normals([y, x] + rest), k);
    TiedConcat(le, Normals([x, y]), Normals(rest), k);
    TiedConcat(le, Normals([y, x]), Normals(rest), k);
    TiedTwo(le, Normals([x, y]), k);
    TiedTwo(le, Normals([y, x]), k);
    assert (Tied(le, Normals([x, y]), k) + Tied(le, Normals(rest), k))[0] == k;
    assert (Tied(le, Normals([y, x]), k) + Tied(le, Normals(rest), k))[0] == Normal(y);
  }

  lemma TiedTwo(le: Order<Row>, s: seq<Row>, k: Row)
    requires |s| == 2 && Ties(le, s[0], k) && Ties(le, s[1], k)
    ensures Tied(le, s, k) == s
  {
    assert s[..1][..0] == [] && s[..1] == [s[0]];
    assert Tied(le, s[..1], k) == [s[0]];
  }

  lemma DistinguishedIgnoresOrder(rows: seq<Row>, other: seq<Row>)
    requires KeysDistinguish(rows) && multiset(other) == multiset(rows)
    ensures Evidence(other) == Evidence(rows)
  {
    MappedKeepsItems(rows, other, Normal);
    NormalsAreReadings(rows, other);
    EvidenceIsTheRows(rows, other);
  }

  lemma TiedAtTwo(rows: seq<Row>, i: nat, j: nat)
    requires i < |rows| && j < |rows| && SameKey(Normal(rows[i]), Normal(rows[j])) && Normal(rows[i]) != Normal(rows[j])
    ensures !IgnoresReadOrder(rows)
  {
    var rest := TwoOut(rows, i, j);
    TiedPairShows(rows[i], rows[j], rest);
    ReadTwoWays(rows, [rows[i], rows[j]] + rest, [rows[j], rows[i]] + rest);
  }

  lemma ReadTwoWays(rows: seq<Row>, one: seq<Row>, another: seq<Row>)
    requires multiset(one) == multiset(rows) && multiset(another) == multiset(rows)
             && Evidence(one) != Evidence(another)
    ensures !IgnoresReadOrder(rows)
  {
  }

  /** The evidence section does not depend on the order rows are read in exactly when no two of them that it describes
      differently share an order key. */
  lemma ReadOrderMattersOnlyForTies(rows: seq<Row>)
    ensures IgnoresReadOrder(rows) <==> KeysDistinguish(rows)
  {
    if KeysDistinguish(rows) {
      forall other | multiset(other) == multiset(rows)
        ensures Evidence(other) == Evidence(rows)
      {
        DistinguishedIgnoresOrder(rows, other);
      }
    } else {
      var i, j := TiedIndices(rows);
      TiedAtTwo(rows, i, j);
    }
  }

  lemma TiedIndices(rows: seq<Row>) returns (i: nat, j: nat)
    requires !KeysDistinguish(rows)
    ensures i < |rows| && j < |rows| && SameKey(Normal(rows[i]), Normal(rows[j])) && Normal(rows[i]) != Normal(rows[j])
  {
    i, j :| 0 <= i < |rows| && 0 <= j < |rows| && SameKey(rows[i], rows[j]) && !Alike(rows[i], rows[j]);
    DescribedAlike(rows[i], rows[j]);
  }

  lemma RowOf(rows: seq<Row>, a: Row) returns (i: nat)
    requires a in Normals(rows)
    ensures i < |rows| && Normal(rows[i]) == a
  {
    i :| 0 <= i < |Normals(rows)| && Normals(rows)[i] == a;
  }

  /** A missing region and an empty one are two rows to the unique index and one key to the order. */
  lemma NoRegionTiesWithEmptyRegion(row: Row)
    ensures Evidence([row.(region := None), row.(region := Some(""))]) !=
            Evidence([row.(region := Some("")), row.(region := None)])
  {
    var x, y := row.(region := None), row.(region := Some(""));
    TiedPairShows(x, y, []);
    assert [x, y] + [] == [x, y] && [y, x] + [] == [y, x];
  }

  // ---------------------------------------------------------------- verifying

  /** The two documents are one, or their hashes differ. */
  predicate TellsApart(digest: Manifest -> string, a: Manifest, b: Manifest) {
    digest(a) == digest(b) ==> a == b
  }

  /** Against a digest that tells its document from the sealed one, a package verifies exactly when what it says is what
      was sealed: its own fields, its fixes from version 2 on, and the same readings, each as often, in whatever
      order. */
  lemma VerifiesWhatWasSealed(digest: Manifest -> string, was: Package, wasRows: seq<Row>, p: Package, rows: seq<Row>)
    requires TellsApart(digest, ManifestOf(p, rows), ManifestOf(was, wasRows))
    requires KeysDistinguish(wasRows) && p.sealedHash == digest(ManifestOf(was, wasRows))
    ensures Verify(digest, p, rows) <==>
            && p.version == was.version && p.header == was.header && p.frameworks == was.frameworks
            && p.controls == was.controls
            && (p.version >= 2 ==> p.fixes == was.fixes)
            && SameReadings(rows, wasRows)
  {
    EvidenceIsTheRows(wasRows, rows);
  }

  /** Whatever the digest, verifying does not depend on the order the rows are read in. */
  lemma VerifyIgnoresReadOrder(digest: Manifest -> string, p: Package, a: seq<Row>, b: seq<Row>)
    requires KeysDistinguish(a) && multiset(a) == multiset(b)
    ensures Verify(digest, p, a) == Verify(digest, p, b)
  {
    MappedKeepsItems(a, b, Normal);
    NormalsAreReadings(a, b);
    EvidenceIsTheRows(a, b);
  }

  // ---------------------------------------------------------------- fixes

  lemma FixOrderIsOrder()
    ensures IsOrder(FixOrder())
  {
    forall a, b
      ensures FixOrder()(a, b) || FixOrder()(b, a)
    {
      PairLeTotal(Iso(a.fixedAt), a.findingId, Iso(b.fixedAt), b.findingId);
    }
    forall a, b, c | FixOrder()(a, b) && FixOrder()(b, c)
      ensures FixOrder()(a, c)
    {
      PairLeTransitive(Iso(a.fixedAt), a.findingId, Iso(b.fixedAt), b.findingId, Iso(c.fixedAt), c.findingId);
    }
  }

  lemma FixesSortByTime(a: Fix, b: Fix)
    requires FixLe(a, b) && Proper(a.fixedAt) && Proper(b.fixedAt)
    ensures NoLater(a.fixedAt, b.fixedAt)
  {
    TextLeTotal(Iso(a.fixedAt), Iso(b.fixedAt));
    IsoSortsByTime(a.fixedAt, b.fixedAt);
  }

  /** The fixes kept are the latest, as many as there were up to the bound; the total counts those left out too. */
  lemma LatestFixesAreKept(fixes: seq<Fix>, from: Instant, to: Instant) returns (out: seq<Fix>)
    requires forall f :: f in fixes ==> Proper(f.fixedAt)
    ensures
      var s := SealFixes(fixes, from, to);
      && s.from == from && s.to == to && s.total == |fixes| && |s.items| == (if |fixes| < 5000 then |fixes| else 5000)
      && multiset(fixes) == multiset(out) + multiset(s.items)
      && forall f, g :: f in out && g in s.items ==> NoLater(f.fixedAt, g.fixedAt)
  {
    var ordered := Sort(FixOrder(), fixes);
    SameItems(fixes, ordered);
    LastSplits(ordered, MAX_FIXES);
    out := ordered[..|ordered| - |Last(ordered, MAX_FIXES)|];
    LeftOutAreNoLater(fixes, out);
  }

  lemma LastSplits<T>(s: seq<T>, most: nat)
    ensures |Last(s, most)| == if |s| < most then |s| else most
    ensures multiset(s) == multiset(s[..|s| - |Last(s, most)|]) + multiset(Last(s, most))
  {
    assert s == s[..|s| - |Last(s, most)|] + Last(s, most);
  }

  lemma LeftOutAreNoLater(fixes: seq<Fix>, out: seq<Fix>)
    requires forall f :: f in fixes ==> Proper(f.fixedAt)
    requires
      var ordered := Sort(FixOrder(), fixes);
      |ordered| == |fixes| && out == ordered[..|ordered| - |Last(ordered, MAX_FIXES)|]
    ensures forall f, g :: f in out && g in Last(Sort(FixOrder(), fixes), MAX_FIXES) ==> NoLater(f.fixedAt, g.fixedAt)
  {
    var kept := Last(Sort(FixOrder(), fixes), MAX_FIXES);
    forall f, g | f in out && g in kept
      ensures NoLater(f.fixedAt, g.fixedAt)
    {
      var i :| 0 <= i < |out| && out[i] == f;
      var j :| 0 <= j < |kept| && kept[j] == g;
      KeptAreNoEarlier(fixes, i, j);
    }
  }

  lemma KeptAreNoEarlier(fixes: seq<Fix>, i: nat, j: nat)
    requires forall f :: f in fixes ==> Proper(f.fixedAt)
    requires
      var kept := Last(Sort(FixOrder(), fixes), MAX_FIXES);
      i < |fixes| - |kept| && j < |kept|
    ensures |Sort(FixOrder(), fixes)| == |fixes|
    ensures NoLater(Sort(FixOrder(), fixes)[i].fixedAt, Last(Sort(FixOrder(), fixes), MAX_FIXES)[j].fixedAt)
  {
    var ordered := Sort(FixOrder(), fixes);
    var kept := Last(ordered, MAX_FIXES);
    FixOrderIsOrder();
    SameItems(fixes, ordered);
    LastAreLast(FixOrder(), fixes, MAX_FIXES, i, j);
    assert ordered[i] in ordered && kept[j] in ordered;
    FixesSortByTime(ordered[i], kept[j]);
  }
}
