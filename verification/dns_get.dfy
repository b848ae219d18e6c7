/** Records and endpoints, and the grouping that `get_records` reports. */
module DnsRecords {
  import opened Wrappers
  import opened Text
  import opened DnsNames

  datatype DomainRecord = DomainRecord(
    id: int,
    recordType: string,
    name: string,
    data: string,
    priority: Option<int>,
    port: Option<int>,
    weight: Option<int>,
    ttl: int)

  /** The full name and type under which a record is reported. */
  type Key = (string, string)

  function KeyOf(zone: string, record: DomainRecord): Key {
    (Join(zone, record.name), record.recordType)
  }

  /** `supported_record_type` */
  predicate Supported(recordType: string) {
    recordType in {"A", "AAAA", "CNAME", "TXT", "SRV", "NS"}
  }

  /** One listed record with the zone it was listed from. */
  datatype Row = Row(zone: string, record: DomainRecord)

  /** One zone with the records listed from it. */
  datatype ZoneListing = ZoneListing(zone: string, records: seq<DomainRecord>)

  function RowsOf(zone: string, records: seq<DomainRecord>): (rows: seq<Row>)
    ensures |rows| == |records|
    ensures forall i :: 0 <= i < |records| ==> rows[i] == Row(zone, records[i])
  {
    seq(|records|, i requires 0 <= i < |records| => Row(zone, records[i]))
  }

  function Rows(listing: seq<ZoneListing>): seq<Row> {
    if listing == [] then []
    else
      var last := |listing| - 1;
      Rows(listing[..last]) + RowsOf(listing[last].zone, listing[last].records)
  }

  predicate Reports(row: Row, key: Key) {
    KeyOf(row.zone, row.record) == key && Supported(row.record.recordType)
  }

  /** The data reported under a key. */
  ghost function DataAt(rows: seq<Row>, key: Key): set<string> {
    set i | 0 <= i < |rows| && Reports(rows[i], key) :: rows[i].record.data
  }

  /** The TTL of the first record reported under a key. */
  function TtlAt(rows: seq<Row>, key: Key): int {
    if rows == [] then 0
    else if Reports(rows[0], key) then rows[0].record.ttl
    else TtlAt(rows[1..], key)
  }

  ghost predicate Reported(rows: seq<Row>, key: Key) {
    exists i :: 0 <= i < |rows| && Reports(rows[i], key)
  }

  // ---------- key order ----------

  predicate KeyLess(a: Key, b: Key) {
    Less(a.0, b.0) || (a.0 == b.0 && Less(a.1, b.1))
  }

  lemma KeyOrder(a: Key, b: Key, c: Key)
    ensures !KeyLess(a, a)
    ensures KeyLess(a, b) || a == b || KeyLess(b, a)
    ensures KeyLess(a, b) && KeyLess(b, c) ==> KeyLess(a, c)
  {
    LessIrreflexive(a.0);
    LessIrreflexive(a.1);
    LessTotal(a.0, b.0);
    LessTotal(a.1, b.1);
    if KeyLess(a, b) && KeyLess(b, c) {
      if Less(a.0, b.0) && Less(b.0, c.0) { LessTransitive(a.0, b.0, c.0); }
      if Less(a.1, b.1) && Less(b.1, c.1) { LessTransitive(a.1, b.1, c.1); }
    }
  }

  // ---------- sorting and removing duplicates ----------

  ghost predicate StrictlySorted(s: seq<string>) {
    forall i, j :: 0 <= i < j < |s| ==> Less(s[i], s[j])
  }

  ghost predicate SortedStrings(s: seq<string>) {
    forall i, j :: 0 <= i < j < |s| ==> s[i] == s[j] || Less(s[i], s[j])
  }

  function InsertSorted(x: string, s: seq<string>): (r: seq<string>)
    requires SortedStrings(s)
    ensures SortedStrings(r)
    ensures forall y :: y in r <==> y == x || y in s
  {
    if s == [] || !Less(s[0], x) then
      (if s != [] then LessTotal(s[0], x); SortedCons(x, s); [x] + s else [x])
    else
      assert forall i :: 0 < i < |s| ==> s[1..][i - 1] == s[i];
      var rest := InsertSorted(x, s[1..]);
      SortedCons(s[0], rest);
      [s[0]] + rest
  }

  lemma SortedCons(x: string, s: seq<string>)
    requires SortedStrings(s)
    requires forall y :: y in s ==> (x == y || Less(x, y)) || (s != [] && (x == s[0] || Less(x, s[0])))
    ensures SortedStrings([x] + s)
  {
    var r := [x] + s;
    forall i, j | 0 <= i < j < |r| ensures r[i] == r[j] || Less(r[i], r[j]) {
      if i == 0 {
        var y := s[j - 1];
        assert y in s;
        if j > 1 && Less(x, s[0]) && s[0] != y { LessTransitive(x, s[0], y); }
      }
    }
  }

  /** `Vec::sort` on strings; equal strings are indistinguishable, so stability is no matter. */
  function SortStrings(s: seq<string>): (r: seq<string>)
    ensures SortedStrings(r)
    ensures forall y :: y in r <==> y in s
  {
    if s == [] then [] else InsertSorted(s[0], SortStrings(s[1..]))
  }

  /** `Vec::dedup`: drop every element equal to the one kept before it. */
  method Dedup(s: seq<string>) returns (r: seq<string>)
    requires SortedStrings(s)
    ensures StrictlySorted(r)
    ensures forall y :: y in r <==> y in s
  {
    r := [];
    for i := 0 to |s|
      invariant StrictlySorted(r)
      invariant forall y :: y in r <==> y in s[..i]
      invariant if i == 0 then r == [] else r != [] && r[|r| - 1] == s[i - 1]
    {
      assert s[..i + 1] == s[..i] + [s[i]];
      if r == [] || r[|r| - 1] != s[i] {
        forall k | 0 <= k < |r| ensures Less(r[k], s[i]) {
          assert i > 0 && Less(s[i - 1], s[i]);
          if k < |r| - 1 { LessTransitive(r[k], r[|r| - 1], s[i]); }
        }
        r := r + [s[i]];
      }
    }
    assert s[..|s|] == s;
  }

  // ---------- the grouping ----------

  /** The fields of an endpoint that the webhook reads or reports. */
  datatype Endpoint = Endpoint(
    dnsName: string,
    targets: seq<string>,
    recordType: string,
    ttl: int,
    providerSpecific: seq<(string, string)>)

  function EndpointKey(e: Endpoint): Key {
    (e.dnsName, e.recordType)
  }

  /** What GET promises of its answer: keys strictly increasing, targets strictly increasing, and
      each endpoint lists exactly the data of the supported records with its key. */
  ghost predicate IsGrouping(rows: seq<Row>, endpoints: seq<Endpoint>) {
    && (forall i, j :: 0 <= i < j < |endpoints| ==>
          KeyLess(EndpointKey(endpoints[i]), EndpointKey(endpoints[j])))
    && (forall i :: 0 <= i < |endpoints| ==> IsGroup(rows, endpoints[i]))
    && (forall key :: Reported(rows, key) ==>
          exists i :: 0 <= i < |endpoints| && EndpointKey(endpoints[i]) == key)
  }

  ghost predicate IsGroup(rows: seq<Row>, e: Endpoint) {
    && Reported(rows, EndpointKey(e))
    && StrictlySorted(e.targets)
    && Elements(e.targets) == DataAt(rows, EndpointKey(e))
    && e.ttl == TtlAt(rows, EndpointKey(e))
    && e.providerSpecific == []
  }

  lemma {:induction false} StrictlySortedUnique(a: seq<string>, b: seq<string>)
    requires StrictlySorted(a) && StrictlySorted(b) && Elements(a) == Elements(b)
    ensures a == b
    decreases |a|
  {
    assert forall x :: x in a <==> x in Elements(a);
    assert forall x :: x in b <==> x in Elements(b);
    assert b != [] ==> b[0] in a;
    if a != [] {
      assert a[0] in b;
      FirstIsLeast(a, b[0]);
      FirstIsLeast(b, a[0]);
      if a[0] != b[0] { LessTransitive(a[0], b[0], a[0]); }
      LessIrreflexive(a[0]);
      RestElements(a);
      RestElements(b);
      StrictlySortedUnique(a[1..], b[1..]);
      assert a == [a[0]] + a[1..] && b == [b[0]] + b[1..];
    }
  }

  lemma FirstIsLeast(s: seq<string>, x: string)
    requires StrictlySorted(s) && x in s
    ensures s[0] == x || Less(s[0], x)
  {
  }

  lemma RestElements(s: seq<string>)
    requires s != [] && StrictlySorted(s)
    ensures Elements(s[1..]) == Elements(s) - {s[0]} && StrictlySorted(s[1..])
  {
    assert s == [s[0]] + s[1..];
    LessIrreflexive(s[0]);
    forall i | 0 < i < |s| ensures s[i] != s[0] {
      assert Less(s[0], s[i]);
    }
  }

  /** The grouping is determined by the listed records: GET has one right answer. */
  lemma {:induction false} GroupingUnique(rows: seq<Row>, a: seq<Endpoint>, b: seq<Endpoint>)
    requires IsGrouping(rows, a) && IsGrouping(rows, b)
    ensures a == b
  {
    GroupingPrefix(rows, a, b, |a|);
    GroupingPrefix(rows, b, a, |b|);
    assert a[..|a|] == a && b[..|b|] == b;
  }

  lemma {:induction false} GroupingPrefix(rows: seq<Row>, a: seq<Endpoint>, b: seq<Endpoint>, n: nat)
    requires IsGrouping(rows, a) && IsGrouping(rows, b) && n <= |a|
    ensures n <= |b| && a[..n] == b[..n]
  {
    if n > 0 {
      var m := n - 1;
      GroupingPrefix(rows, a, b, m);
      SameNext(rows, a, b, m);
      PrefixGrows(a, b, m);
    }
  }

  lemma PrefixGrows(a: seq<Endpoint>, b: seq<Endpoint>, m: nat)
    requires m < |a| && m < |b| && a[..m] == b[..m] && a[m] == b[m]
    ensures a[..m + 1] == b[..m + 1]
  {
    assert a[..m + 1] == a[..m] + [a[m]] && b[..m + 1] == b[..m] + [b[m]];
  }

  lemma SameNext(rows: seq<Row>, a: seq<Endpoint>, b: seq<Endpoint>, m: nat)
    requires IsGrouping(rows, a) && IsGrouping(rows, b)
    requires m < |a| && m <= |b| && a[..m] == b[..m]
    ensures m < |b| && a[m] == b[m]
  {
    var j := IndexFrom(rows, a, b, m);
    var i := IndexFrom(rows, b, a, m);
    KeyOrder(EndpointKey(a[m]), EndpointKey(b[m]), EndpointKey(a[m]));
    SameGroup(rows, a[m], b[m]);
  }

  /** Past a common prefix, each list's next key is found in the other list at or after that spot. */
  lemma IndexFrom(rows: seq<Row>, a: seq<Endpoint>, b: seq<Endpoint>, m: nat) returns (j: nat)
    requires IsGrouping(rows, a) && IsGrouping(rows, b)
    requires m <= |a| && m <= |b| && a[..m] == b[..m]
    ensures m < |a| ==> m <= j < |b| && EndpointKey(b[j]) == EndpointKey(a[m])
    ensures m < |a| ==> EndpointKey(b[m]) == EndpointKey(a[m]) || KeyLess(EndpointKey(b[m]), EndpointKey(a[m]))
  {
    j := m;
    if m < |a| {
      var key := EndpointKey(a[m]);
      assert IsGroup(rows, a[m]);
      j :| 0 <= j < |b| && EndpointKey(b[j]) == key;
      if j < m {
        assert b[j] == b[..m][j] == a[..m][j] == a[j];
        assert KeyLess(EndpointKey(a[j]), EndpointKey(a[m]));
      }
      KeyOrder(key, key, key);
    }
  }

  lemma SameGroup(rows: seq<Row>, a: Endpoint, b: Endpoint)
    requires IsGroup(rows, a) && IsGroup(rows, b)
    ensures EndpointKey(a) == EndpointKey(b) ==> a == b
  {
    if EndpointKey(a) == EndpointKey(b) {
      StrictlySortedUnique(a.targets, b.targets);
    }
  }

  // ---------- get_records ----------

  /** The map built by the loops, after the rows seen so far. */
  ghost predicate GroupsRows(grouped: map<Key, Endpoint>, rows: seq<Row>) {
    && (forall key :: key in grouped <==> Reported(rows, key))
    && (forall key :: key in grouped ==> GroupsKey(grouped[key], key, rows))
  }

  ghost predicate GroupsKey(e: Endpoint, key: Key, rows: seq<Row>) {
    && EndpointKey(e) == key
    && Elements(e.targets) == DataAt(rows, key)
    && e.ttl == TtlAt(rows, key)
    && e.providerSpecific == []
  }

  lemma {:induction false} TtlAppend(rows: seq<Row>, row: Row, key: Key)
    ensures TtlAt(rows + [row], key)
      == if Reported(rows, key) || !Reports(row, key) then TtlAt(rows, key) else row.record.ttl
  {
    if rows == [] {
      assert rows + [row] == [row] && [row][1..] == [];
    } else {
      assert (rows + [row])[1..] == rows[1..] + [row];
      TtlAppend(rows[1..], row, key);
      assert Reported(rows, key) <==> Reports(rows[0], key) || Reported(rows[1..], key) by {
        assert forall i :: 0 < i < |rows| ==> rows[1..][i - 1] == rows[i];
      }
    }
  }

  lemma AppendRow(rows: seq<Row>, row: Row, key: Key)
    ensures Reported(rows + [row], key) <==> Reported(rows, key) || Reports(row, key)
    ensures DataAt(rows + [row], key)
      == DataAt(rows, key) + (if Reports(row, key) then {row.record.data} else {})
  {
    var all := rows + [row];
    assert all[|rows|] == row;
    assert forall i :: 0 <= i < |rows| ==> all[i] == rows[i];
  }

  /** `get_records`: the loops over zones and records, then the read-out in key order. Reported are the data of
      exactly the listed records of six types, each under its full name and type. */
  method GetRecords(listing: seq<ZoneListing>) returns (endpoints: seq<Endpoint>)
    ensures IsGrouping(Rows(listing), endpoints)
    ensures forall dnsName, recordType, data :: Answers(endpoints, dnsName, recordType, data) <==>
              recordType in {"A", "AAAA", "CNAME", "TXT", "SRV", "NS"} && Lists(listing, dnsName, recordType, data)
  {
    var grouped: map<Key, Endpoint> := map[];
    ghost var rows: seq<Row> := [];
    for i := 0 to |listing|
      invariant rows == Rows(listing[..i])
      invariant GroupsRows(grouped, rows)
    {
      var zone, records := listing[i].zone, listing[i].records;
      for j := 0 to |records|
        invariant rows == Rows(listing[..i]) + RowsOf(zone, records[..j])
        invariant GroupsRows(grouped, rows)
      {
        var record := records[j];
        assert RowsOf(zone, records[..j + 1]) == RowsOf(zone, records[..j]) + [Row(zone, record)];
        ghost var before := grouped;
        if Supported(record.recordType) {
          var dnsName := Join(zone, record.name);
          var key := (dnsName, record.recordType);
          var endpoint := if key in grouped then grouped[key]
                          else Endpoint(dnsName, [], record.recordType, record.ttl, []);
          grouped := grouped[key := endpoint.(targets := endpoint.targets + [record.data])];
        }
        GroupOne(before, grouped, rows, Row(zone, record));
        rows := rows + [Row(zone, record)];
      }
      assert records[..|records|] == records;
      assert listing[..i + 1][..i] == listing[..i];
    }
    assert listing[..|listing|] == listing;
    endpoints := ReadOut(grouped, rows);
    forall dnsName, recordType, data
      ensures Answers(endpoints, dnsName, recordType, data) <==>
        recordType in {"A", "AAAA", "CNAME", "TXT", "SRV", "NS"} && Lists(listing, dnsName, recordType, data)
    {
      AnswersExactly(listing, endpoints, dnsName, recordType, data);
    }
  }

  /** Some endpoint of that name and type has the target. */
  ghost predicate Answers(endpoints: seq<Endpoint>, dnsName: string, recordType: string, data: string) {
    exists k :: 0 <= k < |endpoints|
      && endpoints[k].dnsName == dnsName && endpoints[k].recordType == recordType && data in endpoints[k].targets
  }

  /** Some zone lists a record of that full name, type and data; a record named `@` has the zone's name. */
  ghost predicate Lists(listing: seq<ZoneListing>, dnsName: string, recordType: string, data: string) {
    exists i, r :: 0 <= i < |listing| && r in listing[i].records
      && r.recordType == recordType && r.data == data
      && dnsName == if r.name == "@" then listing[i].zone else r.name + "." + listing[i].zone
  }

  lemma {:induction false} RowsAre(listing: seq<ZoneListing>, row: Row)
    ensures row in Rows(listing)
      <==> (exists i :: 0 <= i < |listing| && listing[i].zone == row.zone && row.record in listing[i].records)
    decreases listing
  {
    if listing != [] {
      var last := |listing| - 1;
      RowsAre(listing[..last], row);
      assert row in RowsOf(listing[last].zone, listing[last].records)
        <==> listing[last].zone == row.zone && row.record in listing[last].records by {
        if listing[last].zone == row.zone && row.record in listing[last].records {
          var j :| 0 <= j < |listing[last].records| && listing[last].records[j] == row.record;
          assert RowsOf(listing[last].zone, listing[last].records)[j] == row;
        }
      }
      assert forall i :: 0 <= i < last ==> listing[..last][i] == listing[i];
    }
  }

  lemma ListedInRows(listing: seq<ZoneListing>, key: Key, data: string)
    ensures data in DataAt(Rows(listing), key) <==> Supported(key.1) && Lists(listing, key.0, key.1, data)
  {
    var rows := Rows(listing);
    if data in DataAt(rows, key) {
      var k :| 0 <= k < |rows| && Reports(rows[k], key) && rows[k].record.data == data;
      RowsAre(listing, rows[k]);
    }
    if Supported(key.1) && Lists(listing, key.0, key.1, data) {
      var i, r :| 0 <= i < |listing| && r in listing[i].records && r.recordType == key.1 && r.data == data
        && key.0 == if r.name == "@" then listing[i].zone else r.name + "." + listing[i].zone;
      RowsAre(listing, Row(listing[i].zone, r));
      var k :| 0 <= k < |rows| && rows[k] == Row(listing[i].zone, r);
      assert Reports(rows[k], key);
    }
  }

  /** What a grouping reports, record by record. */
  lemma AnswersExactly(listing: seq<ZoneListing>, endpoints: seq<Endpoint>, dnsName: string, recordType: string,
      data: string)
    requires IsGrouping(Rows(listing), endpoints)
    ensures Answers(endpoints, dnsName, recordType, data) <==>
      recordType in {"A", "AAAA", "CNAME", "TXT", "SRV", "NS"} && Lists(listing, dnsName, recordType, data)
  {
    var rows, key := Rows(listing), (dnsName, recordType);
    ListedInRows(listing, key, data);
    if Answers(endpoints, dnsName, recordType, data) {
      var k :| 0 <= k < |endpoints|
        && endpoints[k].dnsName == dnsName && endpoints[k].recordType == recordType && data in endpoints[k].targets;
      assert IsGroup(rows, endpoints[k]) && EndpointKey(endpoints[k]) == key;
      assert data in Elements(endpoints[k].targets);
    }
    if data in DataAt(rows, key) {
      assert Reported(rows, key);
      var k :| 0 <= k < |endpoints| && EndpointKey(endpoints[k]) == key;
      assert IsGroup(rows, endpoints[k]);
      assert data in Elements(endpoints[k].targets);
    }
  }

  // ---------- the TTL reported ----------

  /** The record at place `j` of zone `i` has that full name and type. */
  predicate At(listing: seq<ZoneListing>, i: nat, j: nat, key: Key) {
    && i < |listing| && j < |listing[i].records|
    && listing[i].records[j].recordType == key.1
    && key.0 == if listing[i].records[j].name == "@" then listing[i].zone
                else listing[i].records[j].name + "." + listing[i].zone
  }

  /** ... and is the first listed that has. */
  ghost predicate FirstAt(listing: seq<ZoneListing>, i: nat, j: nat, key: Key) {
    && At(listing, i, j, key)
    && (forall y: nat :: y < j ==> !At(listing, i, y, key))
    && (forall x: nat, y: nat :: x < i ==> !At(listing, x, y, key))
  }

  /** How many rows come before a zone's. */
  function RowsBefore(listing: seq<ZoneListing>, i: nat): nat
    requires i <= |listing|
  {
    |Rows(listing[..i])|
  }

  lemma {:induction false} RowPlace(listing: seq<ZoneListing>, i: nat, j: nat)
    requires i < |listing| && j < |listing[i].records|
    ensures RowsBefore(listing, i) + j < RowsBefore(listing, i + 1) <= |Rows(listing)|
    ensures Rows(listing)[RowsBefore(listing, i) + j] == Row(listing[i].zone, listing[i].records[j])
    decreases |listing|
  {
    var last := |listing| - 1;
    assert listing[..i + 1][..i] == listing[..i];
    if i < last {
      var front := listing[..last];
      RowPlace(front, i, j);
      assert front[..i] == listing[..i] && front[..i + 1] == listing[..i + 1];
    } else {
      assert listing[..i + 1] == listing;
    }
  }

  lemma {:induction false} TtlOfFirst(rows: seq<Row>, key: Key, n: nat)
    requires n < |rows| && Reports(rows[n], key) && forall m :: 0 <= m < n ==> !Reports(rows[m], key)
    ensures TtlAt(rows, key) == rows[n].record.ttl
  {
    if n > 0 {
      assert rows[1..][n - 1] == rows[n] && forall m :: 0 <= m < n - 1 ==> rows[1..][m] == rows[m + 1];
      TtlOfFirst(rows[1..], key, n - 1);
    }
  }

  lemma {:induction false} PlaceOfRow(listing: seq<ZoneListing>, n: nat) returns (i: nat, j: nat)
    requires n < |Rows(listing)|
    ensures i < |listing| && j < |listing[i].records| && n == RowsBefore(listing, i) + j
    decreases |listing|
  {
    var last := |listing| - 1;
    var front := listing[..last];
    if n < |Rows(front)| {
      i, j := PlaceOfRow(front, n);
      assert front[..i] == listing[..i];
    } else {
      i, j := last, n - |Rows(front)|;
    }
  }

  lemma {:induction false} PlacesGrow(listing: seq<ZoneListing>, x: nat, i: nat)
    requires x < i <= |listing|
    ensures RowsBefore(listing, x + 1) <= RowsBefore(listing, i)
    decreases i
  {
    if x + 1 < i {
      PlacesGrow(listing, x, i - 1);
      assert listing[..i][..i - 1] == listing[..i - 1];
    }
  }

  /** The TTL of an endpoint is that of the first record listed under its name and type. */
  lemma TtlIsOfFirst(listing: seq<ZoneListing>, endpoints: seq<Endpoint>, k: nat, i: nat, j: nat)
    requires IsGrouping(Rows(listing), endpoints) && k < |endpoints|
    requires FirstAt(listing, i, j, EndpointKey(endpoints[k]))
    ensures endpoints[k].ttl == listing[i].records[j].ttl
  {
    var rows, key, n := Rows(listing), EndpointKey(endpoints[k]), RowsBefore(listing, i) + j;
    RowPlace(listing, i, j);
    assert IsGroup(rows, endpoints[k]);
    forall m | 0 <= m < n ensures !Reports(rows[m], key) {
      NotEarlier(listing, i, j, key, m);
    }
    SupportedByGroup(rows, endpoints[k]);
    TtlOfFirst(rows, key, n);
  }

  lemma SupportedByGroup(rows: seq<Row>, e: Endpoint)
    requires IsGroup(rows, e)
    ensures Supported(e.recordType)
  {
    var i :| 0 <= i < |rows| && Reports(rows[i], EndpointKey(e));
  }

  /** Of two places the one whose row comes first is not in a later zone. */
  lemma PlacesInOrder(listing: seq<ZoneListing>, x: nat, y: nat, i: nat, j: nat)
    requires x < |listing| && y < |listing[x].records| && i < |listing| && j < |listing[i].records|
    requires RowsBefore(listing, x) + y < RowsBefore(listing, i) + j
    ensures x < i || (x == i && y < j)
  {
    RowPlace(listing, i, j);
    if i < x { PlacesGrow(listing, i, x); }
  }

  lemma NotEarlier(listing: seq<ZoneListing>, i: nat, j: nat, key: Key, m: nat)
    requires FirstAt(listing, i, j, key) && m < RowsBefore(listing, i) + j && m < |Rows(listing)|
    ensures !Reports(Rows(listing)[m], key)
  {
    var x, y := PlaceOfRow(listing, m);
    PlacesInOrder(listing, x, y, i, j);
    RowPlace(listing, x, y);
    assert !At(listing, x, y, key);
  }

  lemma GroupOne(before: map<Key, Endpoint>, after: map<Key, Endpoint>, rows: seq<Row>, row: Row)
    requires GroupsRows(before, rows)
    requires var key := KeyOf(row.zone, row.record);
      if Supported(row.record.recordType)
      then var e := if key in before then before[key] else Endpoint(key.0, [], key.1, row.record.ttl, []);
        after == before[key := e.(targets := e.targets + [row.record.data])]
      else after == before
    ensures GroupsRows(after, rows + [row])
  {
    forall key ensures key in after <==> Reported(rows + [row], key) {
      AppendRow(rows, row, key);
    }
    forall key | key in after ensures GroupsKey(after[key], key, rows + [row]) {
      AppendRow(rows, row, key);
      TtlAppend(rows, row, key);
      if key !in before {
        assert DataAt(rows, key) == {};
        assert after[key].targets == [row.record.data];
      } else if Reports(row, key) {
        assert after[key].targets == before[key].targets + [row.record.data];
      }
    }
  }

  /** The least key of a non-empty set, as the ordered map walks it. */
  method LeastKey(keys: set<Key>) returns (least: Key)
    requires keys != {}
    ensures least in keys && forall k :: k in keys && k != least ==> KeyLess(least, k)
  {
    least :| least in keys;
    var rest := keys - {least};
    while rest != {}
      invariant rest <= keys && least in keys && least !in rest
      invariant forall k :: k in keys - rest && k != least ==> KeyLess(least, k)
    {
      var k :| k in rest;
      rest := rest - {k};
      KeyOrder(least, k, least);
      if KeyLess(k, least) {
        forall other | other in keys - rest && other != k ensures KeyLess(k, other) {
          KeyOrder(k, least, other);
        }
        least := k;
      }
    }
  }

  method Finish(e: Endpoint, ghost key: Key, ghost rows: seq<Row>) returns (r: Endpoint)
    requires GroupsKey(e, key, rows) && Reported(rows, key)
    ensures EndpointKey(r) == key && IsGroup(rows, r)
  {
    var targets := Dedup(SortStrings(e.targets));
    assert Elements(targets) == Elements(e.targets);
    r := e.(targets := targets);
  }

  /** `into_values`, then sorting and removing duplicates in each endpoint. */
  method ReadOut(grouped: map<Key, Endpoint>, ghost rows: seq<Row>) returns (endpoints: seq<Endpoint>)
    requires GroupsRows(grouped, rows)
    ensures IsGrouping(rows, endpoints)
  {
    endpoints := [];
    var left := grouped.Keys;
    while left != {}
      invariant left <= grouped.Keys
      invariant forall i, j :: 0 <= i < j < |endpoints| ==>
                  KeyLess(EndpointKey(endpoints[i]), EndpointKey(endpoints[j]))
      invariant forall i :: 0 <= i < |endpoints| ==> IsGroup(rows, endpoints[i])
      invariant forall i, k :: 0 <= i < |endpoints| && k in left ==> KeyLess(EndpointKey(endpoints[i]), k)
      invariant forall k :: k in grouped && k !in left ==>
                  exists i :: 0 <= i < |endpoints| && EndpointKey(endpoints[i]) == k
    {
      var key := LeastKey(left);
      left := left - {key};
      var endpoint := Finish(grouped[key], key, rows);
      ghost var sofar := endpoints;
      endpoints := endpoints + [endpoint];
      assert EndpointKey(endpoints[|sofar|]) == key;
      assert forall i :: 0 <= i < |sofar| ==> endpoints[i] == sofar[i];
    }
  }
}
