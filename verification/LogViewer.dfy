/**
 The log viewer: filtered rows, their summaries and a selection, over every key sequence. Rows are
 indices into the log, newest first; the summaries are computed afresh from the rows shown, and the
 selection is moved and clamped as the rows change. Case folding is a parameter.
*/
module LogViewer {
  import opened Common
  import opened Summary

  datatype View = Entries | Summaries

  predicate OccursAt(s: string, q: string, i: nat) { i + |q| <= |s| && s[i..i + |q|] == q }

  predicate Contains(s: string, q: string) { exists i: nat :: i <= |s| && OccursAt(s, q, i) }

  /** The filter's test; `lower` is the library's case folding. */
  predicate Matches(lower: string -> string, e: Entry, filter: string) {
    var q := lower(filter);
    q == "" || Contains(lower(e.host), q) || Contains(lower(e.cmd), q)
    || Contains(lower(if e.args.Some? then e.args.value else ""), q)
  }

  /** `q` is part of `s`. */
  ghost predicate Within(q: string, s: string) { exists pre: string, post: string :: s == pre + q + post }

  lemma ContainsIff(s: string, q: string)
    ensures Contains(s, q) <==> Within(q, s)
  {
    if i: nat :| i <= |s| && OccursAt(s, q, i) {
      assert s == s[..i] + q + s[i + |q|..];
    }
    if pre: string, post: string :| s == pre + q + post {
      assert OccursAt(s, q, |pre|);
    }
  }

  /** An entry matches when its folded host, command or arguments contain the folded filter; the empty
      filter matches every entry. */
  lemma MatchesIff(lower: string -> string, e: Entry, filter: string)
    ensures Matches(lower, e, filter) <==>
      || Within(lower(filter), lower(e.host)) || Within(lower(filter), lower(e.cmd))
      || Within(lower(filter), lower(if e.args.None? then "" else e.args.value))
    ensures lower(filter) == "" ==> Matches(lower, e, filter)
  {
    ContainsIff(lower(e.host), lower(filter));
    ContainsIff(lower(e.cmd), lower(filter));
    ContainsIff(lower(if e.args.Some? then e.args.value else ""), lower(filter));
    if lower(filter) == "" {
      assert lower(e.host) == "" + lower(filter) + lower(e.host);
    }
  }

  function Keep(lower: string -> string, filter: string): Entry -> bool {
    e => Matches(lower, e, filter)
  }

  /** Indices below `n` that match, newest first. */
  function Matching(keep: Entry -> bool, entries: seq<Entry>, n: nat): seq<nat>
    requires n <= |entries|
  {
    if n == 0 then []
    else (if keep(entries[n - 1]) then [n - 1] else []) + Matching(keep, entries, n - 1)
  }

  predicate DescendingBelow(s: seq<nat>, n: nat) {
    && (forall i :: 0 <= i < |s| ==> s[i] < n)
    && (forall i, j :: 0 <= i < j < |s| ==> s[j] < s[i])
  }

  /** Each matching row is shown once, newest first, and nothing else is. */
  lemma {:induction false} MatchingIsExact(keep: Entry -> bool, entries: seq<Entry>, n: nat)
    requires n <= |entries|
    ensures DescendingBelow(Matching(keep, entries, n), n)
    ensures forall i :: 0 <= i < n ==> (i in Matching(keep, entries, n) <==> keep(entries[i]))
  {
    if n > 0 {
      MatchingIsExact(keep, entries, n - 1);
    }
  }

  function Rows(entries: seq<Entry>, indices: seq<nat>): (r: seq<Entry>)
    requires forall i :: 0 <= i < |indices| ==> indices[i] < |entries|
    ensures |r| == |indices| && forall i :: 0 <= i < |r| ==> r[i] == entries[indices[i]]
  {
    seq(|indices|, i requires 0 <= i < |indices| => entries[indices[i]])
  }

  // ---- Summaries do not depend on the order of the entries ---------------------------------

  function Reversed(s: seq<Entry>): (r: seq<Entry>)
    ensures |r| == |s| && forall i :: 0 <= i < |s| ==> r[i] == s[|s| - 1 - i]
  {
    seq(|s|, i requires 0 <= i < |s| => s[|s| - 1 - i])
  }

  lemma {:induction false} Prepended(e: Entry, s: seq<Entry>, h: string)
    ensures Count([e] + s, h) == Count(s, h) + if e.host == h then 1 else 0
    ensures Total([e] + s, h) == Total(s, h) + if e.host == h then e.duration else 0.0
    ensures Duration([e] + s) == Duration(s) + e.duration
    decreases |s|
  {
    if s == [] {
      assert ([e] + s)[..0] == [] && ([e] + s)[0] == e;
    } else {
      Prepended(e, s[..|s| - 1], h);
      assert ([e] + s)[..|s|] == [e] + s[..|s| - 1];
    }
  }

  lemma {:induction false} ReversedCounts(s: seq<Entry>, h: string)
    ensures Count(Reversed(s), h) == Count(s, h) && Total(Reversed(s), h) == Total(s, h)
    decreases |s|
  {
    if s != [] {
      var n := |s| - 1;
      ReversedCounts(s[..n], h);
      assert Reversed(s) == [s[n]] + Reversed(s[..n]);
      Prepended(s[n], Reversed(s[..n]), h);
    }
  }

  lemma ReversedFirst(s: seq<Entry>, h: string, t: string)
    ensures IsFirst(s, h, t) ==> IsFirst(Reversed(s), h, t)
    ensures IsLast(s, h, t) ==> IsLast(Reversed(s), h, t)
  {
    var r := Reversed(s);
    if IsFirst(s, h, t) {
      var i :| 0 <= i < |s| && s[i].host == h && s[i].start == t;
      assert r[|s| - 1 - i] == s[i];
    }
    if IsLast(s, h, t) {
      var i :| 0 <= i < |s| && s[i].host == h && s[i].end == t;
      assert r[|s| - 1 - i] == s[i];
    }
  }

  lemma ReversedSummary(s: seq<Entry>, result: seq<HostSummary>)
    requires IsSummary(s, result)
    ensures IsSummary(Reversed(s), result)
  {
    forall i | 0 <= i < |result| ensures Summarizes(Reversed(s), result[i]) {
      ReversedCounts(s, result[i].host);
      ReversedFirst(s, result[i].host, result[i].first.value);
      ReversedFirst(s, result[i].host, result[i].last.value);
    }
  }

  lemma {:induction false} KeepingAll(keep: Entry -> bool, entries: seq<Entry>, n: nat)
    requires n <= |entries| && forall e :: keep(e)
    ensures |Matching(keep, entries, n)| == n
    ensures forall i :: 0 <= i < n ==> Matching(keep, entries, n)[i] == n - 1 - i
  {
    if n > 0 {
      KeepingAll(keep, entries, n - 1);
    }
  }

  // ---- Selection --------------------------------------------------------------------------

  function NextSelection(selected: Option<nat>, count: nat): Option<nat> {
    if count == 0 then selected
    else if selected.None? then Some(0)
    else Some((selected.value + 1) % count)
  }

  function PrevSelection(selected: Option<nat>, count: nat): Option<nat> {
    if count == 0 then selected
    else if selected.None? || selected.value == 0 then Some(count - 1)
    else Some(selected.value - 1)
  }

  /** Moving there and back restores any selection that is in range. */
  lemma NextPrev(i: nat, count: nat)
    requires i < count
    ensures PrevSelection(NextSelection(Some(i), count), count) == Some(i)
    ensures NextSelection(PrevSelection(Some(i), count), count) == Some(i)
  {
    Wrap(i + 1, count);
    Wrap(i, count);
  }

  lemma Wrap(i: nat, count: nat)
    requires i <= count && count > 0
    ensures i % count == if i == count then 0 else i
  {
  }

  /** A selection names a visible row, except that row 0 stays selected in an empty view. */
  predicate SelectionOk(selected: Option<nat>, count: nat) {
    selected.Some? ==> selected.value < count || selected.value == 0
  }

  function Clamped(selected: Option<nat>, count: nat): Option<nat> {
    if count == 0 then None
    else if selected.Some? && selected.value >= count then Some(count - 1)
    else selected
  }

  // ---- The code ---------------------------------------------------------------------------

  method FilterRows(keep: Entry -> bool, entries: seq<Entry>) returns (rows: seq<nat>)
    ensures rows == Matching(keep, entries, |entries|)
    ensures forall i :: 0 <= i < |rows| ==> rows[i] < |entries|
  {
    rows := [];
    var i := |entries|;
    while i > 0
      invariant 0 <= i <= |entries|
      invariant rows + Matching(keep, entries, i) == Matching(keep, entries, |entries|)
    {
      i := i - 1;
      if keep(entries[i]) {
        rows := rows + [i];
      }
    }
    MatchingIsExact(keep, entries, |entries|);
  }

  lemma RowsReversed(entries: seq<Entry>, indices: seq<nat>)
    requires |indices| == |entries| && forall i :: 0 <= i < |entries| ==> indices[i] == |entries| - 1 - i
    ensures Rows(entries, indices) == Reversed(entries)
  {
  }

  lemma InitialRows(keep: Entry -> bool, entries: seq<Entry>, indices: seq<nat>)
    requires (forall e :: keep(e)) && |indices| == |entries|
    requires forall i :: 0 <= i < |entries| ==> indices[i] == |entries| - 1 - i
    ensures indices == Matching(keep, entries, |entries|)
  {
    KeepingAll(keep, entries, |entries|);
  }

  class App {
    const lower: string -> string
    const allEntries: seq<Entry>
    var filtered: seq<nat>
    var summaries: seq<HostSummary>
    var selected: Option<nat>
    var filter: string
    var view: View

    ghost predicate Valid()
      reads this
    {
      && filtered == Matching(Keep(lower, filter), allEntries, |allEntries|)
      && Below()
      && IsSummary(Rows(allEntries, filtered), summaries)
      && SelectionOk(selected, VisibleCount())
    }

    ghost predicate Below()
      reads this
    {
      forall i :: 0 <= i < |filtered| ==> filtered[i] < |allEntries|
    }

    function VisibleCount(): nat
      reads this
    {
      match view
      case Entries => |filtered|
      case Summaries => |summaries|
    }

    /** In every valid state the summaries account for exactly the rows shown. */
    lemma SummariesAddUp()
      requires Valid()
      ensures SumCounts(summaries) == |filtered|
      ensures SumTotals(summaries) == Duration(Rows(allEntries, filtered))
      ensures summaries == [] <==> filtered == []
    {
      Conserved(Rows(allEntries, filtered), summaries);
      if filtered != [] {
        assert Lists(summaries, Rows(allEntries, filtered)[0].host);
      }
      if summaries != [] {
        SumIsPositive(Rows(allEntries, filtered), summaries);
      }
    }

    constructor (lower: string -> string, entries: seq<Entry>)
      requires lower("") == ""
      ensures Valid() && this.lower == lower && allEntries == entries && filter == "" && view == Entries
      ensures |filtered| == |entries| && selected == if entries == [] then None else Some(0)
    {
      this.lower, allEntries := lower, entries;
      var result := SummarizeByHost(entries);
      summaries := result;
      filtered := seq(|entries|, i requires 0 <= i < |entries| => |entries| - 1 - i);
      selected := if entries == [] then None else Some(0);
      filter, view := "", Entries;
      new;
      InitialRows(Keep(lower, ""), entries, filtered);
      RowsReversed(entries, filtered);
      ReversedSummary(entries, result);
    }

    method Refilter()
      modifies this`filtered, this`summaries, this`selected
      ensures Valid() && selected == Clamped(old(selected), VisibleCount())
    {
      var rows := FilterRows(Keep(lower, filter), allEntries);
      var result := SummarizeByHost(Rows(allEntries, rows));
      filtered, summaries := rows, result;
      ClampSelection(VisibleCount());
    }

    method ClampSelection(count: nat)
      modifies this`selected
      ensures selected == Clamped(old(selected), count) && SelectionOk(selected, count)
    {
      if count == 0 {
        selected := None;
      } else {
        var sel := if selected.Some? then selected.value else 0;
        if sel >= count {
          selected := Some(count - 1);
        }
      }
    }

    method TypeChar(c: char)
      requires Valid()
      modifies this
      ensures Valid() && filter == old(filter) + [c] && view == old(view)
      ensures selected == Clamped(old(selected), VisibleCount())
    {
      filter := filter + [c];
      Refilter();
    }

    method EraseChar()
      requires Valid()
      modifies this
      ensures Valid() && view == old(view)
      ensures filter == if old(filter) == "" then "" else old(filter)[..|old(filter)| - 1]
      ensures selected == Clamped(old(selected), VisibleCount())
    {
      filter := if filter == "" then "" else filter[..|filter| - 1];
      Refilter();
    }

    method Next()
      requires Valid()
      modifies this`selected
      ensures Valid() && selected == NextSelection(old(selected), VisibleCount())
    {
      var count := VisibleCount();
      if count == 0 {
        return;
      }
      selected := match selected
        case Some(i) => Some((i + 1) % count)
        case None => Some(0);
    }

    method Prev()
      requires Valid()
      modifies this`selected
      ensures Valid() && selected == PrevSelection(old(selected), VisibleCount())
    {
      var count := VisibleCount();
      if count == 0 {
        return;
      }
      selected := if selected.None? || selected.value == 0 then Some(count - 1) else Some(selected.value - 1);
    }

    /** Selects row 0 of the other view, even when that view has no rows. */
    method ToggleView()
      requires Valid()
      modifies this`view, this`selected
      ensures Valid() && view != old(view) && selected == Some(0)
      ensures selected.value < VisibleCount() <==> filtered != []
    {
      SummariesAddUp();
      view := if view == Entries then Summaries else Entries;
      selected := Some(0);
    }
  }

  lemma SumIsPositive(entries: seq<Entry>, result: seq<HostSummary>)
    requires IsSummary(entries, result) && result != []
    ensures entries != []
  {
    assert Summarizes(entries, result[0]);
  }
}
