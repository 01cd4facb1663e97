// The dependency audit: one stable identifier for a group of aliases, merging
// of scanner rows, and matching of findings against the reviewed baseline.
module AuditAliases {
  import opened Common
  import opened Order
  import opened Text

  datatype Finding = Finding(
    ecosystem: string, package: string, packageKey: string, identifiers: set<string>, display: string)

  datatype Entry = Entry(
    ecosystem: string, package: string, packageKey: string, advisory: string, notes: string, expires: int)

  datatype Key = Key(ecosystem: string, packageKey: string, display: string)

  function KeyOf(f: Finding): Key {
    Key(f.ecosystem, f.packageKey, f.display)
  }

  // ----------------------------------------------------- preferred identifier

  const PREFIXES: seq<string> := ["GHSA-", "CVE-"]

  function Class(id: string): nat {
    if StartsWith(id, "GHSA-") then 0 else if StartsWith(id, "CVE-") then 1 else 2
  }

  // GHSA before CVE before the rest, each in code-point order.
  predicate Better(a: string, b: string) {
    Class(a) < Class(b) || (Class(a) == Class(b) && LexLe(a, b))
  }

  lemma BetterIsTotal()
    ensures TotalOrder(Better)
  {
    hide Class;
    LexIsTotal();
    forall a, b ensures (Better(a, b) || Better(b, a)) && (Better(a, b) && Better(b, a) ==> a == b) {
      assert LexLe(a, b) || LexLe(b, a);
    }
    forall a, b, c | Better(a, b) && Better(b, c) ensures Better(a, c) {
      assert LexLe(a, b) && LexLe(b, c) ==> LexLe(a, c);
    }
  }

  lemma LeastIsUnique(x: string, y: string, ids: set<string>)
    requires IsLeast(x, ids, Better) && IsLeast(y, ids, Better)
    ensures x == y
  {
    BetterIsTotal();
    assert Better(x, y) && Better(y, x);
  }

  /** The best identifier of a group. */
  function Preferred(ids: set<string>): (best: string)
    requires ids != {}
    ensures IsLeast(best, ids, Better)
  {
    BetterIsTotal();
    assert exists x :: IsLeast(x, ids, Better) by {
      var x := LeastExists(ids, Better);
    }
    assert forall x, y :: IsLeast(x, ids, Better) && IsLeast(y, ids, Better) ==> x == y by {
      forall x, y | IsLeast(x, ids, Better) && IsLeast(y, ids, Better) ensures x == y {
        LeastIsUnique(x, y, ids);
      }
    }
    var best :| IsLeast(best, ids, Better);
    best
  }

  function LexLeast(ids: set<string>): (least: string)
    requires ids != {}
    ensures IsLeast(least, ids, LexLe)
  {
    LexIsTotal();
    assert exists x :: IsLeast(x, ids, LexLe) by {
      var x := LeastExists(ids, LexLe);
    }
    assert forall x, y :: IsLeast(x, ids, LexLe) && IsLeast(y, ids, LexLe) ==> x == y;
    var least :| IsLeast(least, ids, LexLe);
    least
  }

  // `sorted(set(identifiers))`
  function SortedIds(ids: set<string>): (values: seq<string>)
    ensures forall x :: x in values <==> x in ids
    ensures forall i, j :: 0 <= i < j < |values| ==> LexLe(values[i], values[j])
    decreases |ids|
  {
    if ids == {} then []
    else
      var least := LexLeast(ids);
      LeastGoesFirst(least, ids, SortedIds(ids - {least}));
      [least] + SortedIds(ids - {least})
  }

  lemma LeastGoesFirst(least: string, ids: set<string>, rest: seq<string>)
    requires IsLeast(least, ids, LexLe)
    requires forall x :: x in rest <==> x in ids - {least}
    requires forall i, j :: 0 <= i < j < |rest| ==> LexLe(rest[i], rest[j])
    ensures forall x :: x in [least] + rest <==> x in ids
    ensures forall i, j :: 0 <= i < j < |rest| + 1 ==> LexLe(([least] + rest)[i], ([least] + rest)[j])
  {
    hide LexLe;
    forall j | 0 <= j < |rest| ensures LexLe(least, rest[j]) {
      assert rest[j] in rest;
    }
  }

  function Matching(values: seq<string>, prefix: string): (kept: seq<string>)
    ensures forall x :: x in kept <==> x in values && StartsWith(x, prefix)
    ensures forall x :: x in kept ==> kept != []
  {
    if values == [] then []
    else
      assert values == [values[0]] + values[1..];
      (if StartsWith(values[0], prefix) then [values[0]] else []) + Matching(values[1..], prefix)
  }

  lemma {:induction false} FirstMatchIsLeast(values: seq<string>, prefix: string)
    requires forall i, j :: 0 <= i < j < |values| ==> LexLe(values[i], values[j])
    requires Matching(values, prefix) != []
    ensures forall x :: x in values && StartsWith(x, prefix) ==> LexLe(Matching(values, prefix)[0], x)
  {
    hide LexLe, StartsWith;
    if StartsWith(values[0], prefix) {
      assert Matching(values, prefix)[0] == values[0];
      LexIsTotal();
      assert LexLe(values[0], values[0]);
    } else {
      assert values == [values[0]] + values[1..];
      assert Matching(values, prefix) == Matching(values[1..], prefix);
      FirstMatchIsLeast(values[1..], prefix);
    }
  }

  /** `preferred_identifier`: the loop over the prefixes finds the best identifier. */
  method PreferredIdentifier(ids: set<string>) returns (r: Option<string>)
    ensures r == if ids == {} then None else Some(Preferred(ids))
  {
    hide LexLe, StartsWith, SortedIds, Matching;
    var values := SortedIds(ids);
    for p := 0 to |PREFIXES|
      invariant forall q, x :: 0 <= q < p && x in ids ==> !StartsWith(x, PREFIXES[q])
    {
      var matching := Matching(values, PREFIXES[p]);
      if matching != [] {
        assert matching[0] in matching;
        FirstMatchIsLeast(values, PREFIXES[p]);
        BestByPrefix(ids, matching[0], p);
        return Some(matching[0]);
      }
      assert forall x :: x in ids ==> x !in matching;
    }
    if values == [] {
      return None;
    }
    assert values[0] in values;
    BestOfRest(ids, values);
    return Some(values[0]);
  }

  lemma BestByPrefix(ids: set<string>, first: string, p: nat)
    requires p < 2 && first in ids && StartsWith(first, PREFIXES[p])
    requires forall q, x :: 0 <= q < p && x in ids ==> !StartsWith(x, PREFIXES[q])
    requires forall x :: x in ids && StartsWith(x, PREFIXES[p]) ==> LexLe(first, x)
    ensures Preferred(ids) == first
  {
    hide LexLe, StartsWith;
    assert PREFIXES[0] == "GHSA-" && PREFIXES[1] == "CVE-";
    forall x | x in ids ensures Better(first, x) {
      if p == 1 {
        assert !StartsWith(x, PREFIXES[0]) && !StartsWith(first, PREFIXES[0]);
      }
    }
    LeastIsUnique(Preferred(ids), first, ids);
  }

  lemma BestOfRest(ids: set<string>, values: seq<string>)
    requires values != [] && ids != {} && forall x :: x in values <==> x in ids
    requires forall i, j :: 0 <= i < j < |values| ==> LexLe(values[i], values[j])
    requires forall q, x :: 0 <= q < 2 && x in ids ==> !StartsWith(x, PREFIXES[q])
    ensures Preferred(ids) == values[0]
  {
    hide LexLe, StartsWith;
    LexIsTotal();
    assert PREFIXES[0] == "GHSA-" && PREFIXES[1] == "CVE-";
    forall x | x in ids ensures Better(values[0], x) {
      assert values[0] in ids && x in values;
      assert !StartsWith(x, PREFIXES[0]) && !StartsWith(x, PREFIXES[1]);
      assert !StartsWith(values[0], PREFIXES[0]) && !StartsWith(values[0], PREFIXES[1]);
    }
    LeastIsUnique(Preferred(ids), values[0], ids);
  }

  /** Joining two groups with one preferred identifier keeps that identifier. */
  lemma UnionKeepsPreferred(a: set<string>, b: set<string>)
    requires a != {} && b != {} && Preferred(a) == Preferred(b)
    ensures Preferred(a + b) == Preferred(a)
  {
    LeastIsUnique(Preferred(a + b), Preferred(a), a + b);
  }

  // ----------------------------------------------------------- deduplication

  // Every row a scanner parser builds: identifiers, shown under the best one.
  predicate Proper(f: Finding) {
    f.identifiers != {} && f.display == Preferred(f.identifiers)
  }

  predicate AllProper(findings: seq<Finding>) {
    forall i :: 0 <= i < |findings| ==> Proper(findings[i])
  }

  predicate UniqueKeys(findings: seq<Finding>) {
    forall i, j :: 0 <= i < j < |findings| ==> KeyOf(findings[i]) != KeyOf(findings[j])
  }

  function Join(existing: Finding, f: Finding): Finding {
    var ids := existing.identifiers + f.identifiers;
    Finding(f.ecosystem, f.package, f.packageKey, ids, if ids == {} then f.display else Preferred(ids))
  }

  // One item of the dictionary, which keeps its first key.
  datatype Row = Row(key: Key, finding: Finding)

  // Where a key stands in the dictionary, or its size.
  function RowOf(rows: seq<Row>, key: Key): (i: nat)
    ensures i <= |rows|
    ensures i < |rows| ==> rows[i].key == key
    ensures forall j :: 0 <= j < i ==> rows[j].key != key
  {
    if rows == [] then 0
    else if rows[0].key == key then 0
    else 1 + RowOf(rows[1..], key)
  }

  // `merged[key] = finding`, or the union with the finding already there.
  function AddRow(rows: seq<Row>, f: Finding): seq<Row> {
    var i := RowOf(rows, KeyOf(f));
    if i < |rows| then rows[i := Row(rows[i].key, Join(rows[i].finding, f))] else rows + [Row(KeyOf(f), f)]
  }

  function MergeRows(findings: seq<Finding>): seq<Row> {
    if findings == [] then [] else AddRow(MergeRows(findings[..|findings| - 1]), findings[|findings| - 1])
  }

  function Values(rows: seq<Row>): (values: seq<Finding>)
    ensures |values| == |rows|
    ensures forall i :: 0 <= i < |rows| ==> values[i] == rows[i].finding
  {
    seq(|rows|, i requires 0 <= i < |rows| => rows[i].finding)
  }

  // The same on findings alone, each under the key it has now.
  function IndexOf(merged: seq<Finding>, key: Key): (i: nat)
    ensures i <= |merged|
    ensures i < |merged| ==> KeyOf(merged[i]) == key
    ensures forall j :: 0 <= j < i ==> KeyOf(merged[j]) != key
  {
    if merged == [] then 0
    else if KeyOf(merged[0]) == key then 0
    else 1 + IndexOf(merged[1..], key)
  }

  function Add(merged: seq<Finding>, f: Finding): seq<Finding> {
    var i := IndexOf(merged, KeyOf(f));
    if i < |merged| then merged[i := Join(merged[i], f)] else merged + [f]
  }

  function Merge(findings: seq<Finding>): seq<Finding> {
    if findings == [] then [] else Add(Merge(findings[..|findings| - 1]), findings[|findings| - 1])
  }

  predicate OrderLe(a: Finding, b: Finding) {
    (a.packageKey != b.packageKey && LexLe(a.packageKey, b.packageKey))
    || (a.packageKey == b.packageKey && LexLe(a.display, b.display))
  }

  // One step of a stable sort: behind everything that is not greater.
  function Insert(sorted: seq<Finding>, f: Finding): seq<Finding> {
    if sorted == [] || OrderLe(sorted[|sorted| - 1], f) then sorted + [f]
    else Insert(sorted[..|sorted| - 1], f) + [sorted[|sorted| - 1]]
  }

  // `sorted(..., key=lambda item: (item.package_key, item.display_id))`
  function SortFindings(findings: seq<Finding>): seq<Finding> {
    if findings == [] then [] else Insert(SortFindings(findings[..|findings| - 1]), findings[|findings| - 1])
  }

  function Deduplicate(findings: seq<Finding>): seq<Finding> {
    SortFindings(Values(MergeRows(findings)))
  }

  /** `deduplicate_findings`, with the insertion-ordered dictionary as a list. */
  method DeduplicateLoop(findings: seq<Finding>) returns (result: seq<Finding>)
    ensures result == Deduplicate(findings)
  {
    var merged: seq<Row> := [];
    for i := 0 to |findings|
      invariant merged == MergeRows(findings[..i])
    {
      var f := findings[i];
      assert findings[..i + 1][..i] == findings[..i];
      var key := KeyOf(f);
      var at := RowOf(merged, key);
      if at == |merged| {
        merged := merged + [Row(key, f)];
        continue;
      }
      merged := merged[at := Row(key, Join(merged[at].finding, f))];
    }
    assert findings[..|findings|] == findings;
    return SortFindings(Values(merged));
  }

  // ------------------------------------------------------ what merging keeps

  // All identifiers reported under one key.
  function UnionOf(findings: seq<Finding>, key: Key): set<string> {
    if findings == [] then {}
    else
      var last := findings[|findings| - 1];
      UnionOf(findings[..|findings| - 1], key) + if KeyOf(last) == key then last.identifiers else {}
  }

  predicate HasKey(findings: seq<Finding>, key: Key) {
    exists i :: 0 <= i < |findings| && KeyOf(findings[i]) == key
  }

  // One row for each key of `findings`, holding all its identifiers.
  ghost predicate Groups(merged: seq<Finding>, findings: seq<Finding>) {
    && UniqueKeys(merged) && AllProper(merged)
    && (forall key :: HasKey(merged, key) <==> HasKey(findings, key))
    && forall i :: 0 <= i < |merged| ==> merged[i].identifiers == UnionOf(findings, KeyOf(merged[i]))
  }

  lemma JoinKeepsKey(existing: Finding, f: Finding)
    requires Proper(existing) && Proper(f) && KeyOf(existing) == KeyOf(f)
    ensures Proper(Join(existing, f)) && KeyOf(Join(existing, f)) == KeyOf(f)
  {
    UnionKeepsPreferred(existing.identifiers, f.identifiers);
  }

  lemma HasKeySnoc(findings: seq<Finding>, f: Finding, key: Key)
    ensures HasKey(findings + [f], key) <==> HasKey(findings, key) || KeyOf(f) == key
  {
    var all := findings + [f];
    assert all[|findings|] == f;
    if i :| 0 <= i < |findings| && KeyOf(findings[i]) == key {
      assert all[i] == findings[i];
    }
  }

  lemma UnionSnoc(findings: seq<Finding>, f: Finding, key: Key)
    ensures UnionOf(findings + [f], key) == UnionOf(findings, key) + if KeyOf(f) == key then f.identifiers else {}
  {
    assert (findings + [f])[..|findings|] == findings;
  }

  lemma {:induction false} UnionOfMissing(findings: seq<Finding>, key: Key)
    requires !HasKey(findings, key)
    ensures UnionOf(findings, key) == {}
    decreases |findings|
  {
    if findings != [] {
      var n := |findings| - 1;
      assert findings == findings[..n] + [findings[n]];
      HasKeySnoc(findings[..n], findings[n], key);
      UnionOfMissing(findings[..n], key);
    }
  }

  // Replacing a row by one with the same key changes no key.
  lemma SameKeys(merged: seq<Finding>, at: nat, f: Finding)
    requires at < |merged| && KeyOf(merged[at]) == KeyOf(f)
    ensures UniqueKeys(merged) ==> UniqueKeys(merged[at := f])
    ensures forall key :: HasKey(merged[at := f], key) <==> HasKey(merged, key)
  {
    var next := merged[at := f];
    assert forall i :: 0 <= i < |merged| ==> KeyOf(next[i]) == KeyOf(merged[i]);
    forall key ensures HasKey(next, key) <==> HasKey(merged, key) {
      if i :| 0 <= i < |merged| && KeyOf(merged[i]) == key {
        assert KeyOf(next[i]) == key;
      }
    }
  }

  lemma AddKeepsGroups(merged: seq<Finding>, findings: seq<Finding>, f: Finding)
    requires Groups(merged, findings) && Proper(f)
    ensures Groups(Add(merged, f), findings + [f])
  {
    hide Groups, Proper, Join;
    var at := IndexOf(merged, KeyOf(f));
    if at < |merged| {
      AddJoins(merged, findings, f, at);
    } else {
      AddAppends(merged, findings, f);
    }
  }

  lemma AddJoins(merged: seq<Finding>, findings: seq<Finding>, f: Finding, at: nat)
    requires Groups(merged, findings) && Proper(f)
    requires at < |merged| && KeyOf(merged[at]) == KeyOf(f)
    ensures Groups(merged[at := Join(merged[at], f)], findings + [f])
  {
    hide Proper, HasKey, UnionOf, Preferred;
    var joined := Join(merged[at], f);
    var next := merged[at := joined];
    JoinKeepsKey(merged[at], f);
    SameKeys(merged, at, joined);
    HasRow(merged, at);
    forall key ensures HasKey(next, key) <==> HasKey(findings + [f], key) {
      HasKeySnoc(findings, f, key);
    }
    forall i | 0 <= i < |next|
      ensures Proper(next[i]) && next[i].identifiers == UnionOf(findings + [f], KeyOf(next[i]))
    {
      UnionSnoc(findings, f, KeyOf(next[i]));
      if i != at {
        assert KeyOf(merged[i]) != KeyOf(merged[at]);
      }
    }
  }

  lemma HasRow(merged: seq<Finding>, at: nat)
    requires at < |merged|
    ensures HasKey(merged, KeyOf(merged[at]))
  {
  }

  lemma AddAppends(merged: seq<Finding>, findings: seq<Finding>, f: Finding)
    requires Groups(merged, findings) && Proper(f)
    requires forall j :: 0 <= j < |merged| ==> KeyOf(merged[j]) != KeyOf(f)
    ensures Groups(merged + [f], findings + [f])
  {
    hide Proper, UnionOf;
    var next := merged + [f];
    assert !HasKey(merged, KeyOf(f));
    UnionOfMissing(findings, KeyOf(f));
    forall key ensures HasKey(next, key) <==> HasKey(findings + [f], key) {
      HasKeySnoc(findings, f, key);
      HasKeySnoc(merged, f, key);
    }
    forall i | 0 <= i < |next|
      ensures Proper(next[i]) && next[i].identifiers == UnionOf(findings + [f], KeyOf(next[i]))
    {
      UnionSnoc(findings, f, KeyOf(next[i]));
    }
  }

  lemma {:induction false} MergeGroups(findings: seq<Finding>)
    requires AllProper(findings)
    ensures Groups(Merge(findings), findings)
    decreases |findings|
  {
    hide Proper, Add;
    if findings == [] {
      assert Merge(findings) == [];
    } else {
      var n := |findings| - 1;
      MergeGroups(findings[..n]);
      AddKeepsGroups(Merge(findings[..n]), findings[..n], findings[n]);
      assert findings == findings[..n] + [findings[n]];
    }
  }

  predicate KeysStand(rows: seq<Row>) {
    forall i :: 0 <= i < |rows| ==> rows[i].key == KeyOf(rows[i].finding)
  }

  lemma {:induction false} SamePlace(rows: seq<Row>, key: Key)
    requires KeysStand(rows)
    ensures RowOf(rows, key) == IndexOf(Values(rows), key)
  {
    if rows != [] {
      assert Values(rows)[1..] == Values(rows[1..]);
      SamePlace(rows[1..], key);
    }
  }

  lemma AddRowStands(rows: seq<Row>, f: Finding)
    requires KeysStand(rows) && AllProper(Values(rows)) && Proper(f)
    ensures KeysStand(AddRow(rows, f)) && Values(AddRow(rows, f)) == Add(Values(rows), f)
  {
    hide Proper, KeyOf, Join, RowOf, IndexOf;
    SamePlace(rows, KeyOf(f));
    var at := RowOf(rows, KeyOf(f));
    if at < |rows| {
      JoinKeepsKey(Values(rows)[at], f);
    }
  }

  /** A key never goes stale: merging rows under their first key is merging
      findings under the name each of them shows. */
  lemma {:induction false} RowsAreFindings(findings: seq<Finding>)
    requires AllProper(findings)
    ensures KeysStand(MergeRows(findings)) && Values(MergeRows(findings)) == Merge(findings)
    decreases |findings|
  {
    hide Proper, KeysStand, Values, AddRow, Add, Groups;
    if findings == [] {
      NoRows();
    } else {
      var n := |findings| - 1;
      RowsAreFindings(findings[..n]);
      MergeGroups(findings[..n]);
      GroupsAreUnique(Merge(findings[..n]), findings[..n]);
      AddRowStands(MergeRows(findings[..n]), findings[n]);
    }
  }

  lemma NoRows()
    ensures KeysStand([]) && Values([]) == []
  {
  }

  // ------------------------------------------------------------- the sorting

  lemma OrderTotal(a: Finding, b: Finding)
    ensures OrderLe(a, b) || OrderLe(b, a)
  {
    hide LexLe;
    LexTotal(a.packageKey, b.packageKey);
    LexTotal(a.display, b.display);
  }

  lemma OrderTransitive(a: Finding, b: Finding, c: Finding)
    requires OrderLe(a, b) && OrderLe(b, c)
    ensures OrderLe(a, c)
  {
    hide LexLe;
    LexIsTotal();
    assert LexLe(a.packageKey, b.packageKey) && LexLe(b.packageKey, c.packageKey) ==> LexLe(a.packageKey, c.packageKey);
    LexTotal(a.packageKey, b.packageKey);
    LexTotal(b.packageKey, c.packageKey);
    assert LexLe(a.display, b.display) && LexLe(b.display, c.display) ==> LexLe(a.display, c.display);
  }

  predicate Ordered(s: seq<Finding>) {
    forall i, j :: 0 <= i < j < |s| ==> OrderLe(s[i], s[j])
  }

  lemma {:induction false} InsertRows(s: seq<Finding>, f: Finding)
    ensures |Insert(s, f)| == |s| + 1
    ensures forall x :: x in Insert(s, f) <==> x in s || x == f
    decreases |s|
  {
    hide OrderLe;
    if s != [] && !OrderLe(s[|s| - 1], f) {
      InsertRows(s[..|s| - 1], f);
      assert s == s[..|s| - 1] + [s[|s| - 1]];
    }
  }

  lemma {:induction false} InsertOrders(s: seq<Finding>, f: Finding)
    requires Ordered(s)
    ensures Ordered(Insert(s, f))
    decreases |s|
  {
    hide OrderLe;
    if s != [] {
      var last := s[|s| - 1];
      if OrderLe(last, f) {
        forall i | 0 <= i < |s| ensures OrderLe(s[i], f) {
          if i < |s| - 1 {
            OrderTransitive(s[i], last, f);
          }
        }
      } else {
        OrderTotal(last, f);
        var front := s[..|s| - 1];
        InsertOrders(front, f);
        InsertRows(front, f);
        forall x | x in Insert(front, f) ensures OrderLe(x, last) {
          if x in front {
            var i :| 0 <= i < |front| && front[i] == x;
            assert s[i] == x;
          }
        }
      }
    }
  }

  lemma {:induction false} InsertKeepsUnique(s: seq<Finding>, f: Finding)
    requires UniqueKeys(s) && !HasKey(s, KeyOf(f))
    ensures UniqueKeys(Insert(s, f))
    decreases |s|
  {
    hide OrderLe, KeyOf;
    if s != [] && !OrderLe(s[|s| - 1], f) {
      var front, last := s[..|s| - 1], s[|s| - 1];
      assert forall i :: 0 <= i < |front| ==> front[i] == s[i];
      InsertKeepsUnique(front, f);
      InsertRows(front, f);
      forall i | 0 <= i < |Insert(front, f)| ensures KeyOf(Insert(front, f)[i]) != KeyOf(last) {
        assert Insert(front, f)[i] in Insert(front, f);
      }
    }
  }

  lemma HasKeyMember(s: seq<Finding>, key: Key)
    ensures HasKey(s, key) <==> exists x :: x in s && KeyOf(x) == key
  {
    if HasKey(s, key) {
      var i :| 0 <= i < |s| && KeyOf(s[i]) == key;
      assert s[i] in s;
    }
  }

  lemma {:induction false} SortRows(s: seq<Finding>)
    requires UniqueKeys(s)
    ensures |SortFindings(s)| == |s| && Ordered(SortFindings(s)) && UniqueKeys(SortFindings(s))
    ensures forall x :: x in SortFindings(s) <==> x in s
    decreases |s|
  {
    hide OrderLe, Insert, KeyOf;
    if s != [] {
      var n := |s| - 1;
      var front, f := s[..n], s[n];
      assert s == front + [f];
      SortRows(front);
      var rest := SortFindings(front);
      forall x | x in rest ensures KeyOf(x) != KeyOf(f) {
        assert x in front;
        var i :| 0 <= i < n && front[i] == x;
        assert s[i] == x;
      }
      HasKeyMember(rest, KeyOf(f));
      InsertRows(rest, f);
      InsertOrders(rest, f);
      InsertKeepsUnique(rest, f);
    }
  }

  // Groups are kept by any reordering.
  lemma GroupsFollow(s: seq<Finding>, t: seq<Finding>, findings: seq<Finding>)
    requires Groups(s, findings) && UniqueKeys(t) && forall x :: x in t <==> x in s
    ensures Groups(t, findings)
  {
    hide Proper, KeyOf, UnionOf;
    forall key ensures HasKey(t, key) <==> HasKey(s, key) {
      HasKeyMember(s, key);
      HasKeyMember(t, key);
    }
    forall i | 0 <= i < |t| ensures Proper(t[i]) && t[i].identifiers == UnionOf(findings, KeyOf(t[i])) {
      assert t[i] in s;
      var j :| 0 <= j < |s| && s[j] == t[i];
    }
  }

  /** Deduplication leaves one row for each key, in order, with the union of the
      identifiers reported under that key and still under the same name. */
  lemma DeduplicatedGroups(findings: seq<Finding>)
    requires AllProper(findings)
    ensures Groups(Deduplicate(findings), findings)
    ensures Ordered(Deduplicate(findings)) && InOrder(Deduplicate(findings))
  {
    hide Groups, Merge, MergeRows, Values, SortFindings, Ordered, InOrder, UniqueKeys;
    RowsAreFindings(findings);
    MergeGroups(findings);
    GroupsAreUnique(Merge(findings), findings);
    SortRows(Merge(findings));
    GroupsFollow(Merge(findings), SortFindings(Merge(findings)), findings);
    OrderedByFields(Deduplicate(findings));
  }

  // By package, and by the display name within one package.
  predicate InOrder(s: seq<Finding>) {
    forall i, j :: 0 <= i < j < |s| ==>
      && LexLe(s[i].packageKey, s[j].packageKey)
      && (s[i].packageKey == s[j].packageKey ==> LexLe(s[i].display, s[j].display))
  }

  lemma OrderedByFields(s: seq<Finding>)
    requires Ordered(s)
    ensures InOrder(s)
  {
    hide LexLe;
    forall i, j | 0 <= i < j < |s|
      ensures LexLe(s[i].packageKey, s[j].packageKey)
      ensures s[i].packageKey == s[j].packageKey ==> LexLe(s[i].display, s[j].display)
    {
      assert OrderLe(s[i], s[j]);
      LexTotal(s[i].packageKey, s[j].packageKey);
    }
  }

  lemma GroupsAreUnique(merged: seq<Finding>, findings: seq<Finding>)
    requires Groups(merged, findings)
    ensures UniqueKeys(merged) && AllProper(merged)
  {
  }

  lemma {:induction false} MergeOfUnique(s: seq<Finding>)
    requires UniqueKeys(s)
    ensures Merge(s) == s
    decreases |s|
  {
    hide KeyOf, Join;
    if s != [] {
      var n := |s| - 1;
      MergeOfUnique(s[..n]);
      assert IndexOf(s[..n], KeyOf(s[n])) == n;
      assert s == s[..n] + [s[n]];
    }
  }

  lemma {:induction false} SortOfOrdered(s: seq<Finding>)
    requires Ordered(s)
    ensures SortFindings(s) == s
    decreases |s|
  {
    hide OrderLe;
    if s != [] {
      var n := |s| - 1;
      SortOfOrdered(s[..n]);
      assert s == s[..n] + [s[n]];
    }
  }

  /** Deduplicating twice is deduplicating once. */
  lemma DeduplicateIsIdempotent(findings: seq<Finding>)
    requires AllProper(findings)
    ensures Deduplicate(Deduplicate(findings)) == Deduplicate(findings)
  {
    hide Groups, Merge, MergeRows, Values, SortFindings, Ordered, UniqueKeys, AllProper;
    DeduplicatedGroups(findings);
    GroupsAreUnique(Deduplicate(findings), findings);
    RowsAreFindings(Deduplicate(findings));
    MergeOfUnique(Deduplicate(findings));
    SortOfOrdered(Deduplicate(findings));
  }

  // ------------------------------------------------------------ the baseline

  predicate Covers(entry: Entry, f: Finding) {
    entry.ecosystem == f.ecosystem && entry.packageKey == f.packageKey && entry.advisory in f.identifiers
  }

  function Matches(f: Finding, baseline: seq<Entry>): (matches: seq<Entry>)
    ensures forall e :: e in matches <==> e in baseline && Covers(e, f)
  {
    if baseline == [] then []
    else
      var front, last := baseline[..|baseline| - 1], baseline[|baseline| - 1];
      assert baseline == front + [last];
      Matches(f, front) + if Covers(last, f) then [last] else []
  }

  // Where the baseline lists an entry for the finding.
  ghost function Listed(f: Finding, baseline: seq<Entry>): set<nat> {
    set i: nat | i < |baseline| && baseline[i].ecosystem == f.ecosystem && baseline[i].packageKey == f.packageKey
                 && baseline[i].advisory in f.identifiers
  }

  lemma ListedSnoc(f: Finding, baseline: seq<Entry>)
    requires baseline != []
    ensures var n := |baseline| - 1;
      Listed(f, baseline) == Listed(f, baseline[..n]) + if Covers(baseline[n], f) then {n} else {}
  {
  }

  lemma {:induction false} MatchesCount(f: Finding, baseline: seq<Entry>)
    ensures |Matches(f, baseline)| == |Listed(f, baseline)|
    decreases |baseline|
  {
    hide Listed, Covers;
    if baseline == [] {
      NothingListed(f);
    } else {
      var n := |baseline| - 1;
      MatchesCount(f, baseline[..n]);
      ListedSnoc(f, baseline);
      BeforeIsListed(f, baseline[..n]);
    }
  }

  lemma NothingListed(f: Finding)
    ensures Listed(f, []) == {}
  {
  }

  lemma BeforeIsListed(f: Finding, baseline: seq<Entry>)
    ensures |baseline| !in Listed(f, baseline)
  {
  }

  /** The matches of a finding are the entries of its ecosystem and package whose
      advisory is among its identifiers, as often as the baseline lists them. */
  lemma MatchesMean(f: Finding, baseline: seq<Entry>, e: Entry)
    ensures |Matches(f, baseline)| == |Listed(f, baseline)|
    ensures e in Matches(f, baseline) <==> exists i :: i in Listed(f, baseline) && baseline[i] == e
  {
    hide Matches;
    MatchesCount(f, baseline);
    if e in baseline && Covers(e, f) {
      var i :| 0 <= i < |baseline| && baseline[i] == e;
      assert i in Listed(f, baseline);
    }
  }

  datatype Failure = Unbaselined(f: Finding) | Ambiguous(f: Finding) | Split(f: Finding) | Expired(e: Entry)

  // Failures so far and the entries already matched.
  datatype Audit = Audit(failures: seq<Failure>, matched: set<Entry>)

  function Judge(audit: Audit, f: Finding, baseline: seq<Entry>, today: int): Audit {
    var matches := Matches(f, baseline);
    if matches == [] then Audit(audit.failures + [Unbaselined(f)], audit.matched)
    else if |matches| > 1 then Audit(audit.failures + [Ambiguous(f)], audit.matched)
    else if matches[0] in audit.matched then Audit(audit.failures + [Split(f)], audit.matched)
    else
      Audit(audit.failures + if matches[0].expires < today then [Expired(matches[0])] else [],
            audit.matched + {matches[0]})
  }

  function JudgeAll(findings: seq<Finding>, baseline: seq<Entry>, today: int): Audit {
    if findings == [] then Audit([], {})
    else Judge(JudgeAll(findings[..|findings| - 1], baseline, today), findings[|findings| - 1], baseline, today)
  }

  /** `validate_findings` as its loop runs. */
  method ValidateFindings(findings: seq<Finding>, baseline: seq<Entry>, today: int)
    returns (failures: seq<Failure>, matched: nat)
    ensures failures == JudgeAll(findings, baseline, today).failures
    ensures matched == |JudgeAll(findings, baseline, today).matched|
  {
    failures := [];
    var entries: set<Entry> := {};
    for i := 0 to |findings|
      invariant Audit(failures, entries) == JudgeAll(findings[..i], baseline, today)
    {
      var f := findings[i];
      assert findings[..i + 1][..i] == findings[..i];
      var matches := Matches(f, baseline);
      if matches == [] {
        failures := failures + [Unbaselined(f)];
        continue;
      }
      if |matches| > 1 {
        failures := failures + [Ambiguous(f)];
        continue;
      }
      var entry := matches[0];
      if entry in entries {
        failures := failures + [Split(f)];
        continue;
      }
      entries := entries + {entry};
      if entry.expires < today {
        failures := failures + [Expired(entry)];
      }
    }
    assert findings[..|findings|] == findings;
    return failures, |entries|;
  }

  // Each finding has one entry, unexpired, and no two findings share theirs.
  predicate Clean(findings: seq<Finding>, baseline: seq<Entry>, today: int) {
    && (forall i :: 0 <= i < |findings| ==>
          |Matches(findings[i], baseline)| == 1 && Matches(findings[i], baseline)[0].expires >= today)
    && forall i, j :: 0 <= i < j < |findings| ==>
         Matches(findings[i], baseline)[0] != Matches(findings[j], baseline)[0]
  }

  lemma CleanSnoc(findings: seq<Finding>, f: Finding, baseline: seq<Entry>, today: int)
    ensures Clean(findings + [f], baseline, today) <==>
      Clean(findings, baseline, today)
      && |Matches(f, baseline)| == 1 && Matches(f, baseline)[0].expires >= today
      && forall i :: 0 <= i < |findings| ==> Matches(findings[i], baseline)[0] != Matches(f, baseline)[0]
  {
    hide Matches;
    var all := findings + [f];
    assert all[|findings|] == f;
    assert forall i :: 0 <= i < |findings| ==> all[i] == findings[i];
  }

  // The entry is the one match of some finding.
  predicate MatchedBy(e: Entry, findings: seq<Finding>, baseline: seq<Entry>) {
    exists i :: 0 <= i < |findings| && Matches(findings[i], baseline) == [e]
  }

  lemma MatchedBySnoc(e: Entry, findings: seq<Finding>, f: Finding, baseline: seq<Entry>)
    ensures MatchedBy(e, findings + [f], baseline) <==> MatchedBy(e, findings, baseline) || Matches(f, baseline) == [e]
  {
    hide Matches;
    var all := findings + [f];
    assert all[|findings|] == f;
    if i :| 0 <= i < |findings| && Matches(findings[i], baseline) == [e] {
      assert all[i] == findings[i];
    }
  }

  // A finding comes after another one with the same single match.
  predicate Shares(f: Finding, findings: seq<Finding>, baseline: seq<Entry>) {
    exists i, j :: 0 <= i < j < |findings| && findings[j] == f && SameEntry(f, findings[i], baseline)
  }

  predicate SameEntry(f: Finding, g: Finding, baseline: seq<Entry>) {
    |Matches(f, baseline)| == 1 && Matches(g, baseline) == Matches(f, baseline)
  }

  lemma SharesSnoc(f: Finding, findings: seq<Finding>, last: Finding, baseline: seq<Entry>)
    ensures Shares(f, findings + [last], baseline)
       <==> || Shares(f, findings, baseline)
            || (last == f && exists i :: 0 <= i < |findings| && SameEntry(f, findings[i], baseline))
  {
    hide SameEntry;
    var all := findings + [last];
    assert all[|findings|] == last && forall i :: 0 <= i < |findings| ==> all[i] == findings[i];
    if i, j :| 0 <= i < j < |findings| && findings[j] == f && SameEntry(f, findings[i], baseline) {
      assert all[j] == f && SameEntry(f, all[i], baseline);
    }
    if last == f {
      if i :| 0 <= i < |findings| && SameEntry(f, findings[i], baseline) {
        assert all[|findings|] == f && SameEntry(f, all[i], baseline);
      }
    }
  }

  lemma SameEntryIff(f: Finding, findings: seq<Finding>, baseline: seq<Entry>)
    requires |Matches(f, baseline)| == 1
    ensures (exists i :: 0 <= i < |findings| && SameEntry(f, findings[i], baseline))
       <==> MatchedBy(Matches(f, baseline)[0], findings, baseline)
  {
    hide Matches;
    assert Matches(f, baseline) == [Matches(f, baseline)[0]];
    if i :| 0 <= i < |findings| && Matches(findings[i], baseline) == [Matches(f, baseline)[0]] {
      assert SameEntry(f, findings[i], baseline);
    }
  }

  /** The entries counted as matched are those that are the one match of a finding. */
  lemma {:induction false} MatchedMeans(findings: seq<Finding>, baseline: seq<Entry>, today: int, e: Entry)
    ensures e in JudgeAll(findings, baseline, today).matched <==> MatchedBy(e, findings, baseline)
    decreases |findings|
  {
    hide Matches, MatchedBy;
    if findings == [] {
      NothingIsClean(baseline, today);
    } else {
      var n := |findings| - 1;
      var front, last := findings[..n], findings[n];
      assert findings == front + [last];
      MatchedMeans(front, baseline, today, e);
      MatchedBySnoc(e, front, last, baseline);
      assert |Matches(last, baseline)| == 1 ==> Matches(last, baseline) == [Matches(last, baseline)[0]];
    }
  }

  /** Every failure means what it says and is reported whenever it holds: no entry,
      several, an expired one, or one that an earlier finding has taken. */
  lemma {:induction false} FailureKinds(findings: seq<Finding>, baseline: seq<Entry>, today: int, f: Finding, e: Entry)
    ensures var failures := JudgeAll(findings, baseline, today).failures;
      && (Unbaselined(f) in failures <==> f in findings && Matches(f, baseline) == [])
      && (Ambiguous(f) in failures <==> f in findings && |Matches(f, baseline)| > 1)
      && (Expired(e) in failures <==> MatchedBy(e, findings, baseline) && e.expires < today)
      && (Split(f) in failures <==> Shares(f, findings, baseline))
    decreases |findings|
  {
    hide Matches, MatchedBy, Shares, SameEntry;
    if findings == [] {
      NothingIsClean(baseline, today);
      NothingIsShared(f, baseline);
    } else {
      var n := |findings| - 1;
      var front, last := findings[..n], findings[n];
      assert findings == front + [last];
      FailureKinds(front, baseline, today, f, e);
      MatchedBySnoc(e, front, last, baseline);
      SharesSnoc(f, front, last, baseline);
      NotAlone(f, front, baseline);
      if |Matches(last, baseline)| == 1 {
        var entry := Matches(last, baseline)[0];
        assert Matches(last, baseline) == [entry];
        MatchedMeans(front, baseline, today, entry);
        SameEntryIff(last, front, baseline);
      }
    }
  }

  lemma NotAlone(f: Finding, findings: seq<Finding>, baseline: seq<Entry>)
    ensures (exists i :: 0 <= i < |findings| && SameEntry(f, findings[i], baseline)) ==> |Matches(f, baseline)| == 1
  {
    hide Matches;
  }

  lemma NothingIsShared(f: Finding, baseline: seq<Entry>)
    ensures !Shares(f, [], baseline)
  {
  }

  /** No failure is reported exactly when the findings are clean, and then every
      finding has its own matched entry. */
  lemma {:induction false} NoFailureIffClean(findings: seq<Finding>, baseline: seq<Entry>, today: int)
    ensures var audit := JudgeAll(findings, baseline, today);
      && (audit.failures == [] <==> Clean(findings, baseline, today))
      && (audit.failures == [] ==>
            && |audit.matched| == |findings|
            && forall e :: e in audit.matched <==> MatchedBy(e, findings, baseline))
    decreases |findings|
  {
    hide Matches, Clean, MatchedBy;
    if findings == [] {
      NothingIsClean(baseline, today);
    } else {
      var n := |findings| - 1;
      var front, f := findings[..n], findings[n];
      assert findings == front + [f];
      NoFailureIffClean(front, baseline, today);
      CleanSnoc(front, f, baseline, today);
      forall e
        ensures MatchedBy(e, findings, baseline) <==> MatchedBy(e, front, baseline) || Matches(f, baseline) == [e]
      {
        MatchedBySnoc(e, front, f, baseline);
      }
      if Clean(front, baseline, today) && |Matches(f, baseline)| == 1 {
        var e := Matches(f, baseline)[0];
        assert Matches(f, baseline) == [e];
        TakenIffShared(front, e, baseline, today);
      }
    }
  }

  lemma NothingIsClean(baseline: seq<Entry>, today: int)
    ensures Clean([], baseline, today)
    ensures forall e :: !MatchedBy(e, [], baseline)
  {
  }

  lemma TakenIffShared(findings: seq<Finding>, e: Entry, baseline: seq<Entry>, today: int)
    requires Clean(findings, baseline, today)
    ensures MatchedBy(e, findings, baseline)
       <==> exists i :: 0 <= i < |findings| && Matches(findings[i], baseline)[0] == e
  {
    hide Matches;
    if i :| 0 <= i < |findings| && Matches(findings[i], baseline)[0] == e {
      assert Matches(findings[i], baseline) == [e];
    }
  }

  /** An entry that covers a raw row also covers the row it is merged into. */
  lemma MergedRowIsCovered(findings: seq<Finding>, i: nat, entry: Entry)
    requires AllProper(findings) && i < |findings| && Covers(entry, findings[i])
    ensures exists r :: r in Deduplicate(findings) && KeyOf(r) == KeyOf(findings[i]) && Covers(entry, r)
  {
    hide Proper, Deduplicate;
    var rows, key := Deduplicate(findings), KeyOf(findings[i]);
    DeduplicatedGroups(findings);
    UnionCovers(findings, i);
    assert HasKey(findings, key);
    var j :| 0 <= j < |rows| && KeyOf(rows[j]) == key;
    assert rows[j] in rows && Covers(entry, rows[j]);
  }

  lemma {:induction false} UnionCovers(findings: seq<Finding>, i: nat)
    requires i < |findings|
    ensures findings[i].identifiers <= UnionOf(findings, KeyOf(findings[i]))
    decreases |findings|
  {
    if i < |findings| - 1 {
      UnionCovers(findings[..|findings| - 1], i);
    }
  }
}
