/** Per-host summaries of the session log. */
module Summary {
  import opened Common

  datatype Entry = Entry(host: string, cmd: string, args: Option<string>, start: string, end: string, duration: real)

  datatype HostSummary = HostSummary(host: string, total: real, count: nat, first: Option<string>, last: Option<string>)

  // ---- String order -----------------------------------------------------------------------

  predicate Less(a: string, b: string) {
    b != [] && (a == [] || a[0] < b[0] || (a[0] == b[0] && Less(a[1..], b[1..])))
  }

  lemma {:induction false} LessIsTotal(a: string, b: string)
    ensures Less(a, b) || Less(b, a) || a == b
    ensures !(Less(a, b) && Less(b, a))
    decreases |a|
  {
    if a != [] && b != [] && a[0] == b[0] {
      LessIsTotal(a[1..], b[1..]);
      assert a == [a[0]] + a[1..] && b == [b[0]] + b[1..];
    }
  }

  /** They first differ at `k`, where `a` is smaller. */
  predicate SmallerAt(a: string, b: string, k: nat) { k < |a| && k < |b| && a[..k] == b[..k] && a[k] < b[k] }

  /** `a` is a shorter beginning of `b`, or smaller where they first differ. */
  lemma {:induction false} LessIff(a: string, b: string)
    ensures Less(a, b) <==> (|a| < |b| && b[..|a|] == a) || exists k: nat :: SmallerAt(a, b, k)
    decreases |a|
  {
    if a != [] && b != [] && a[0] == b[0] {
      LessIff(a[1..], b[1..]);
      Behind(a[0], a[1..], b[1..]);
      assert a == [a[0]] + a[1..] && b == [b[0]] + b[1..];
    } else if a != [] && b != [] {
      FirstDiffers(a, b);
    }
  }

  lemma FirstDiffers(a: string, b: string)
    requires a != [] && b != [] && a[0] != b[0]
    ensures (exists k: nat :: SmallerAt(a, b, k)) <==> a[0] < b[0]
    ensures |a| < |b| ==> b[..|a|] != a
  {
    assert SmallerAt(a, b, 0) <==> a[0] < b[0];
    forall k: nat | 0 < k <= |a| && k <= |b| ensures a[..k] != b[..k] {
      assert a[..k][0] != b[..k][0];
    }
  }

  lemma Behind(c: char, a: string, b: string)
    ensures (exists k: nat :: SmallerAt([c] + a, [c] + b, k)) <==> exists k: nat :: SmallerAt(a, b, k)
    ensures |a| < |b| ==> (([c] + b)[..|a| + 1] == [c] + a <==> b[..|a|] == a)
  {
    forall k: nat | k < |a| && k < |b| ensures SmallerAt(a, b, k) <==> SmallerAt([c] + a, [c] + b, k + 1) {
      assert ([c] + a)[..k + 1] == [c] + a[..k] && ([c] + b)[..k + 1] == [c] + b[..k];
      assert ([c] + a[..k])[1..] == a[..k] && ([c] + b[..k])[1..] == b[..k];
    }
    if k: nat :| SmallerAt([c] + a, [c] + b, k) {
      assert k > 0 && SmallerAt(a, b, k - 1);
    }
    if k: nat :| SmallerAt(a, b, k) {
      assert SmallerAt([c] + a, [c] + b, k + 1);
    }
    if |a| < |b| {
      assert ([c] + b)[..|a| + 1] == [c] + b[..|a|];
      assert ([c] + b[..|a|])[1..] == b[..|a|] && ([c] + a)[1..] == a;
    }
  }

  lemma {:induction false} LessIsTransitive(a: string, b: string, c: string)
    requires Less(a, b) && Less(b, c)
    ensures Less(a, c)
    decreases |a|
  {
    if a != [] && a[0] == b[0] && b[0] == c[0] {
      LessIsTransitive(a[1..], b[1..], c[1..]);
    }
  }

  // ---- What a summary should say ----------------------------------------------------------

  function Count(entries: seq<Entry>, host: string): nat
    decreases |entries|
  {
    if entries == [] then 0
    else Count(entries[..|entries| - 1], host) + if entries[|entries| - 1].host == host then 1 else 0
  }

  function Total(entries: seq<Entry>, host: string): real
    decreases |entries|
  {
    if entries == [] then 0.0
    else Total(entries[..|entries| - 1], host) + if entries[|entries| - 1].host == host then entries[|entries| - 1].duration else 0.0
  }

  function Duration(entries: seq<Entry>): real
    decreases |entries|
  {
    if entries == [] then 0.0 else Duration(entries[..|entries| - 1]) + entries[|entries| - 1].duration
  }

  predicate IsFirst(entries: seq<Entry>, host: string, s: string) {
    && (exists i :: 0 <= i < |entries| && entries[i].host == host && entries[i].start == s)
    && (forall i :: 0 <= i < |entries| && entries[i].host == host ==> !Less(entries[i].start, s))
  }

  predicate IsLast(entries: seq<Entry>, host: string, s: string) {
    && (exists i :: 0 <= i < |entries| && entries[i].host == host && entries[i].end == s)
    && (forall i :: 0 <= i < |entries| && entries[i].host == host ==> !Less(s, entries[i].end))
  }

  predicate Summarizes(entries: seq<Entry>, s: HostSummary) {
    && s.count == Count(entries, s.host) && s.total == Total(entries, s.host)
    && s.first.Some? && IsFirst(entries, s.host, s.first.value)
    && s.last.Some? && IsLast(entries, s.host, s.last.value)
  }

  predicate Distinct(result: seq<HostSummary>) {
    forall i, j :: 0 <= i < j < |result| ==> result[i].host != result[j].host
  }

  predicate Lists(result: seq<HostSummary>, host: string) {
    exists i :: 0 <= i < |result| && result[i].host == host
  }

  predicate Descending(result: seq<HostSummary>) {
    forall i, j :: 0 <= i < j < |result| ==> result[i].total >= result[j].total
  }

  /** One correct row for each host that occurs, longest time first. */
  predicate IsSummary(entries: seq<Entry>, result: seq<HostSummary>) {
    && Distinct(result) && Descending(result)
    && (forall i :: 0 <= i < |result| ==> Summarizes(entries, result[i]))
    && (forall i :: 0 <= i < |entries| ==> Lists(result, entries[i].host))
  }

  // ---- Conservation -----------------------------------------------------------------------

  function SumCounts(result: seq<HostSummary>): nat
    decreases |result|
  {
    if result == [] then 0 else SumCounts(result[..|result| - 1]) + result[|result| - 1].count
  }

  function SumTotals(result: seq<HostSummary>): real
    decreases |result|
  {
    if result == [] then 0.0 else SumTotals(result[..|result| - 1]) + result[|result| - 1].total
  }

  /** Sums of the reference counts over a list of hosts. */
  function CountOver(entries: seq<Entry>, result: seq<HostSummary>): nat
    decreases |result|
  {
    if result == [] then 0
    else CountOver(entries, result[..|result| - 1]) + Count(entries, result[|result| - 1].host)
  }

  function TotalOver(entries: seq<Entry>, result: seq<HostSummary>): real
    decreases |result|
  {
    if result == [] then 0.0
    else TotalOver(entries, result[..|result| - 1]) + Total(entries, result[|result| - 1].host)
  }

  lemma {:induction false} OverNothing(result: seq<HostSummary>)
    ensures CountOver([], result) == 0 && TotalOver([], result) == 0.0
    decreases |result|
  {
    if result != [] {
      OverNothing(result[..|result| - 1]);
    }
  }

  /** One more entry adds to a list of distinct hosts exactly if its host is listed. */
  lemma {:induction false} OverOneMore(entries: seq<Entry>, e: Entry, result: seq<HostSummary>)
    requires Distinct(result)
    ensures CountOver(entries + [e], result) == CountOver(entries, result) + if Lists(result, e.host) then 1 else 0
    ensures TotalOver(entries + [e], result) == TotalOver(entries, result) + if Lists(result, e.host) then e.duration else 0.0
    decreases |result|
  {
    if result != [] {
      var n := |result| - 1;
      OverOneMore(entries, e, result[..n]);
      assert (entries + [e])[..|entries|] == entries;
      ListsStep(result, e.host);
    }
  }

  lemma ListsStep(result: seq<HostSummary>, host: string)
    requires result != []
    ensures Lists(result, host) <==> Lists(result[..|result| - 1], host) || result[|result| - 1].host == host
    ensures Distinct(result) ==> !(Lists(result[..|result| - 1], host) && result[|result| - 1].host == host)
  {
    var n := |result| - 1;
    if Lists(result[..n], host) {
      var i :| 0 <= i < n && result[..n][i].host == host;
      assert result[i].host == host;
    }
    if Lists(result, host) && result[n].host != host {
      var i :| 0 <= i < |result| && result[i].host == host;
      assert result[..n][i].host == host;
    }
  }

  lemma {:induction false} OverAll(entries: seq<Entry>, result: seq<HostSummary>)
    requires Distinct(result) && forall i :: 0 <= i < |entries| ==> Lists(result, entries[i].host)
    ensures CountOver(entries, result) == |entries| && TotalOver(entries, result) == Duration(entries)
    decreases |entries|
  {
    if entries == [] {
      OverNothing(result);
    } else {
      var n := |entries| - 1;
      OverAll(entries[..n], result);
      OverOneMore(entries[..n], entries[n], result);
      assert entries == entries[..n] + [entries[n]];
    }
  }

  lemma {:induction false} SumsAreOver(entries: seq<Entry>, result: seq<HostSummary>)
    requires forall i :: 0 <= i < |result| ==> Summarizes(entries, result[i])
    ensures SumCounts(result) == CountOver(entries, result) && SumTotals(result) == TotalOver(entries, result)
    decreases |result|
  {
    if result != [] {
      SumsAreOver(entries, result[..|result| - 1]);
    }
  }

  /** Nothing is lost or counted twice: commands and time add up to the whole log. */
  lemma Conserved(entries: seq<Entry>, result: seq<HostSummary>)
    requires IsSummary(entries, result)
    ensures SumCounts(result) == |entries| && SumTotals(result) == Duration(entries)
  {
    SumsAreOver(entries, result);
    OverAll(entries, result);
  }

  // ---- Sorting ----------------------------------------------------------------------------

  function InsertDesc(s: seq<HostSummary>, x: HostSummary): seq<HostSummary> {
    if s == [] || s[|s| - 1].total >= x.total then s + [x]
    else InsertDesc(s[..|s| - 1], x) + [s[|s| - 1]]
  }

  /** Stable sort by descending time. */
  function SortDesc(s: seq<HostSummary>): seq<HostSummary>
    decreases |s|
  {
    if s == [] then [] else InsertDesc(SortDesc(s[..|s| - 1]), s[|s| - 1])
  }

  lemma {:induction false} InsertElems(s: seq<HostSummary>, x: HostSummary)
    ensures multiset(InsertDesc(s, x)) == multiset(s) + multiset{x}
    decreases |s|
  {
    if s != [] && s[|s| - 1].total < x.total {
      InsertElems(s[..|s| - 1], x);
      assert s == s[..|s| - 1] + [s[|s| - 1]];
    }
  }

  lemma {:induction false} InsertKeeps(s: seq<HostSummary>, x: HostSummary)
    requires Distinct(s) && Descending(s) && !Lists(s, x.host)
    ensures Distinct(InsertDesc(s, x)) && Descending(InsertDesc(s, x))
    decreases |s|
  {
    if s != [] && s[|s| - 1].total < x.total {
      var t, l := s[..|s| - 1], s[|s| - 1];
      InsertKeeps(t, x);
      var r := InsertDesc(t, x);
      InsertElems(t, x);
      forall i | 0 <= i < |r| ensures r[i].host != l.host && r[i].total >= l.total {
        assert r[i] in multiset(r);
        if r[i] != x {
          assert r[i] in t;
        }
      }
    }
  }

  lemma SameHosts(s: seq<HostSummary>, t: seq<HostSummary>, host: string)
    requires multiset(s) == multiset(t) && Lists(s, host)
    ensures Lists(t, host)
  {
    var i :| 0 <= i < |s| && s[i].host == host;
    assert s[i] in multiset(t);
  }

  lemma {:induction false} SortKeeps(s: seq<HostSummary>)
    requires Distinct(s)
    ensures Distinct(SortDesc(s)) && Descending(SortDesc(s)) && multiset(SortDesc(s)) == multiset(s)
    decreases |s|
  {
    if s != [] {
      var t, l := s[..|s| - 1], s[|s| - 1];
      SortKeeps(t);
      assert s == t + [l];
      if Lists(SortDesc(t), l.host) {
        SameHosts(SortDesc(t), t, l.host);
        assert false;
      }
      InsertKeeps(SortDesc(t), l);
      InsertElems(SortDesc(t), l);
    }
  }

  // ---- The code ---------------------------------------------------------------------------

  predicate Seen(entries: seq<Entry>, host: string) { exists i :: 0 <= i < |entries| && entries[i].host == host }

  /** The table while it is filled. */
  predicate TableOf(entries: seq<Entry>, table: map<string, HostSummary>) {
    && (forall h :: h in table ==> table[h].host == h && Summarizes(entries, table[h]))
    && (forall i :: 0 <= i < |entries| ==> entries[i].host in table)
  }

  function Updated(prior: Option<HostSummary>, e: Entry): HostSummary {
    var s := if prior.Some? then prior.value else HostSummary(e.host, 0.0, 0, None, None);
    HostSummary(e.host, s.total + e.duration, s.count + 1,
                if s.first.None? || Less(e.start, s.first.value) then Some(e.start) else s.first,
                if s.last.None? || Less(s.last.value, e.end) then Some(e.end) else s.last)
  }

  lemma {:induction false} UnseenIsEmpty(entries: seq<Entry>, host: string)
    requires !Seen(entries, host)
    ensures Count(entries, host) == 0 && Total(entries, host) == 0.0
    decreases |entries|
  {
    if entries != [] {
      var n := |entries| - 1;
      assert entries[n].host != host;
      assert forall i :: 0 <= i < n ==> entries[..n][i] == entries[i];
      UnseenIsEmpty(entries[..n], host);
    }
  }

  /** An entry of another host changes nothing. */
  lemma OtherHost(entries: seq<Entry>, e: Entry, s: HostSummary)
    requires Summarizes(entries, s) && s.host != e.host
    ensures Summarizes(entries + [e], s)
  {
    var more := entries + [e];
    assert more[..|entries|] == entries;
    var i :| 0 <= i < |entries| && entries[i].host == s.host && entries[i].start == s.first.value;
    assert more[i] == entries[i];
    var j :| 0 <= j < |entries| && entries[j].host == s.host && entries[j].end == s.last.value;
    assert more[j] == entries[j];
  }

  lemma FirstStep(entries: seq<Entry>, e: Entry, s: string)
    requires IsFirst(entries, e.host, s)
    ensures IsFirst(entries + [e], e.host, if Less(e.start, s) then e.start else s)
  {
    var more := entries + [e];
    assert more[|entries|] == e;
    var i :| 0 <= i < |entries| && entries[i].host == e.host && entries[i].start == s;
    assert more[i] == entries[i];
    LessIsTotal(e.start, e.start);
    forall k | 0 <= k < |more| && more[k].host == e.host && Less(e.start, s) ensures !Less(more[k].start, e.start) {
      if Less(more[k].start, e.start) {
        assert k < |entries| && more[k] == entries[k];
        LessIsTransitive(more[k].start, e.start, s);
        assert false;
      }
    }
  }

  lemma LastStep(entries: seq<Entry>, e: Entry, s: string)
    requires IsLast(entries, e.host, s)
    ensures IsLast(entries + [e], e.host, if Less(s, e.end) then e.end else s)
  {
    var more := entries + [e];
    assert more[|entries|] == e;
    var i :| 0 <= i < |entries| && entries[i].host == e.host && entries[i].end == s;
    assert more[i] == entries[i];
    LessIsTotal(e.end, e.end);
    forall k | 0 <= k < |more| && more[k].host == e.host && Less(s, e.end) ensures !Less(e.end, more[k].end) {
      if Less(e.end, more[k].end) {
        assert k < |entries| && more[k] == entries[k];
        LessIsTransitive(s, e.end, more[k].end);
        assert false;
      }
    }
  }

  lemma SameHost(entries: seq<Entry>, e: Entry, s: HostSummary)
    requires Summarizes(entries, s) && s.host == e.host
    ensures Summarizes(entries + [e], Updated(Some(s), e))
  {
    assert (entries + [e])[..|entries|] == entries;
    FirstStep(entries, e, s.first.value);
    LastStep(entries, e, s.last.value);
  }

  lemma NewHost(entries: seq<Entry>, e: Entry)
    requires !Seen(entries, e.host)
    ensures Summarizes(entries + [e], Updated(None, e))
  {
    var more := entries + [e];
    assert more[..|entries|] == entries && more[|entries|] == e;
    UnseenIsEmpty(entries, e.host);
    LessIsTotal(e.start, e.start);
    LessIsTotal(e.end, e.end);
    assert forall k :: 0 <= k < |entries| ==> more[k] == entries[k];
  }

  lemma TableFrame(entries: seq<Entry>, e: Entry, table: map<string, HostSummary>, row: HostSummary)
    requires forall i :: 0 <= i < |entries| ==> entries[i].host in table
    requires forall h :: h in table ==> table[h].host == h
    requires forall h :: h in table && h != e.host ==> Summarizes(entries + [e], table[h])
    requires row.host == e.host && Summarizes(entries + [e], row)
    ensures TableOf(entries + [e], table[e.host := row])
  {
  }

  lemma TableStep(entries: seq<Entry>, e: Entry, table: map<string, HostSummary>)
    requires TableOf(entries, table) && (e.host in table <==> Seen(entries, e.host))
    ensures TableOf(entries + [e], table[e.host := Updated(if e.host in table then Some(table[e.host]) else None, e)])
  {
    if e.host in table {
      SameHost(entries, e, table[e.host]);
    } else {
      NewHost(entries, e);
    }
    var row := Updated(if e.host in table then Some(table[e.host]) else None, e);
    forall h | h in table && h != e.host ensures Summarizes(entries + [e], table[h]) {
      OtherHost(entries, e, table[h]);
    }
    TableFrame(entries, e, table, row);
  }

  lemma TableKeysAreSeen(entries: seq<Entry>, table: map<string, HostSummary>, host: string)
    requires TableOf(entries, table)
    ensures host in table <==> Seen(entries, host)
  {
    if host in table {
      var i :| 0 <= i < |entries| && entries[i].host == host && entries[i].start == table[host].first.value;
    }
  }

  /** One entry added to a row, which is created on first use. */
  method AddTo(row: HostSummary, e: Entry) returns (summary: HostSummary)
    requires row.host == e.host
    ensures summary == Updated(Some(row), e)
  {
    summary := row.(total := row.total + e.duration, count := row.count + 1);
    if summary.first.None? || Less(e.start, summary.first.value) {
      summary := summary.(first := Some(e.start));
    }
    if summary.last.None? || Less(summary.last.value, e.end) {
      summary := summary.(last := Some(e.end));
    }
  }

  method Tabulate(entries: seq<Entry>) returns (table: map<string, HostSummary>)
    ensures TableOf(entries, table)
  {
    table := map[];
    for i := 0 to |entries|
      invariant TableOf(entries[..i], table)
    {
      var e := entries[i];
      TableKeysAreSeen(entries[..i], table, e.host);
      TableStep(entries[..i], e, table);
      assert entries[..i + 1] == entries[..i] + [e];
      var row := if e.host in table then table[e.host] else HostSummary(e.host, 0.0, 0, None, None);
      row := AddTo(row, e);
      table := table[e.host := row];
    }
    assert entries[..|entries|] == entries;
  }

  /** `into_values().collect()`: the rows, in some order. */
  method Collect(table: map<string, HostSummary>) returns (rows: seq<HostSummary>)
    requires forall h :: h in table ==> table[h].host == h
    ensures Distinct(rows)
    ensures forall i :: 0 <= i < |rows| ==> rows[i].host in table && rows[i] == table[rows[i].host]
    ensures forall h :: h in table ==> Lists(rows, h)
  {
    rows := [];
    var todo := table.Keys;
    while todo != {}
      invariant todo <= table.Keys && Distinct(rows)
      invariant forall i :: 0 <= i < |rows| ==> rows[i].host in table && rows[i].host !in todo && rows[i] == table[rows[i].host]
      invariant forall h :: h in table && h !in todo ==> Lists(rows, h)
    {
      var h :| h in todo;
      todo := todo - {h};
      ghost var before := rows;
      rows := rows + [table[h]];
      forall g | g in table && g !in todo ensures Lists(rows, g) {
        if g == h {
          assert rows[|before|].host == g;
        } else {
          var i :| 0 <= i < |before| && before[i].host == g;
          assert rows[i].host == g;
        }
      }
    }
  }

  /** `summarize_by_host`. */
  method SummarizeByHost(entries: seq<Entry>) returns (result: seq<HostSummary>)
    ensures IsSummary(entries, result)
    ensures SumCounts(result) == |entries| && SumTotals(result) == Duration(entries)
  {
    var table := Tabulate(entries);
    var rows := Collect(table);
    result := SortDesc(rows);
    SortedRows(entries, table, rows);
    Conserved(entries, result);
  }

  lemma SortedRows(entries: seq<Entry>, table: map<string, HostSummary>, rows: seq<HostSummary>)
    requires TableOf(entries, table) && Distinct(rows)
    requires forall i :: 0 <= i < |rows| ==> rows[i].host in table && rows[i] == table[rows[i].host]
    requires forall h :: h in table ==> Lists(rows, h)
    ensures IsSummary(entries, SortDesc(rows))
  {
    var result := SortDesc(rows);
    SortKeeps(rows);
    forall i | 0 <= i < |result| ensures Summarizes(entries, result[i]) {
      assert result[i] in multiset(rows);
      assert result[i] in rows;
    }
    forall i | 0 <= i < |entries| ensures Lists(result, entries[i].host) {
      SameHosts(rows, result, entries[i].host);
    }
  }
}
