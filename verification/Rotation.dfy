/** The session log directory: monthly files, appended to by writes and deleted by rotation. */
module Rotation {
  import opened Common
  import opened Calendar
  import Numeral

  datatype Month = Month(year: int, month: nat)

  predicate MonthOk(m: Month) { 1 <= m.month <= 12 }

  function MonthOf(d: Date): Month { Month(d.year, d.month) }

  // ---- File names -------------------------------------------------------------------------

  function Digits(n: nat, width: nat): (s: string)
    ensures |s| == width
  {
    if width == 0 then "" else Digits(n / 10, width - 1) + [Numeral.Digit(n % 10)]
  }

  /** At least four digits. */
  function Padded(n: nat): string { if n < 10000 then Digits(n, 4) else Numeral.Text(n, 10) }

  /** `%Y`: years outside 0 to 9999 carry a sign. */
  function YearText(y: int): string {
    if y < 0 then "-" + Padded(-y) else if y < 10000 then Padded(y) else "+" + Padded(y)
  }

  /** `format("%Y-%m.jsonl")`. */
  function FileName(m: Month): string {
    YearText(m.year) + "-" + Digits(m.month, 2) + ".jsonl"
  }

  /** What the date parser is taken to do: it reads back the names that are written, and never
      yields a month outside the calendar. It may accept more names. */
  ghost predicate ParserOk(parse: string -> Option<Month>) {
    && (forall m: Month :: MonthOk(m) ==> parse(FileName(m)) == Some(m))
    && (forall s: string :: parse(s).Some? ==> MonthOk(parse(s).value))
  }

  function Pow10(k: nat): nat { if k == 0 then 1 else 10 * Pow10(k - 1) }

  lemma {:induction false} DigitsRoundTrip(n: nat, width: nat)
    requires n < Pow10(width)
    ensures Numeral.Value(Digits(n, width), 10) == n
  {
    if width > 0 {
      DigitsRoundTrip(n / 10, width - 1);
      var s := Digits(n, width);
      assert s[..width - 1] == Digits(n / 10, width - 1);
      Numeral.DigitRoundTrip(n % 10);
    }
  }

  lemma {:induction false} StartsWithDigit(n: nat, width: nat)
    requires width > 0
    ensures Numeral.IsDigit(Digits(n, width)[0])
  {
    if width == 1 {
      Numeral.DigitRoundTrip(n % 10);
    } else {
      StartsWithDigit(n / 10, width - 1);
    }
  }

  function ParseYear(s: string): int {
    if s == "" then 0
    else if s[0] == '-' then -Numeral.Value(s[1..], 10)
    else if s[0] == '+' then Numeral.Value(s[1..], 10)
    else Numeral.Value(s, 10)
  }

  /** A parser that does: the suffix, two digits and a dash are cut off the end. */
  function ParseName(s: string): Option<Month> {
    var n := |s| - 9;
    if n < 0 || s[n + 3..] != ".jsonl" then None
    else
      var month := Numeral.Value(s[n + 1..n + 3], 10);
      if 1 <= month <= 12 then Some(Month(ParseYear(s[..n]), month)) else None
  }

  lemma PaddedRoundTrip(n: nat)
    ensures Numeral.Value(Padded(n), 10) == n && Padded(n) != "" && Padded(n)[0] != '-' && Padded(n)[0] != '+'
  {
    assert Pow10(1) == 10 && Pow10(2) == 10 * Pow10(1) && Pow10(3) == 10 * Pow10(2) && Pow10(4) == 10 * Pow10(3);
    if n < 10000 {
      DigitsRoundTrip(n, 4);
      StartsWithDigit(n, 4);
    } else {
      Numeral.TextRoundTrip(n, 10);
    }
  }

  lemma YearRoundTrip(y: int)
    ensures ParseYear(YearText(y)) == y
  {
    var n := if y < 0 then -y else y;
    PaddedRoundTrip(n);
    var s := YearText(y);
    if y < 0 || y >= 10000 {
      assert s[1..] == Padded(n);
    }
  }

  /** Names and months determine each other: year, dash, month in two digits, suffix. */
  lemma NameRoundTrip(m: Month)
    requires MonthOk(m)
    ensures ParseName(FileName(m)) == Some(m)
    ensures var s := FileName(m); |s| > 9 && s[|s| - 9] == '-' && s[|s| - 6..] == ".jsonl" && (0 <= m.year < 10000 ==> |s| == 13)
  {
    var s := FileName(m);
    var n := |s| - 9;
    assert Pow10(1) == 10 && Pow10(2) == 10 * Pow10(1);
    DigitsRoundTrip(m.month, 2);
    YearRoundTrip(m.year);
    assert s[..n] == YearText(m.year) && s[n + 1..n + 3] == Digits(m.month, 2) && s[n + 3..] == ".jsonl";
  }

  lemma ParseNameOk()
    ensures ParserOk(ParseName)
  {
    forall m: Month | MonthOk(m) ensures ParseName(FileName(m)) == Some(m) {
      NameRoundTrip(m);
    }
  }

  // ---- Which files expire -----------------------------------------------------------------

  /** The last day, computed as the first of the next month minus one day. */
  function MonthEnd(m: Month): (d: Date)
    requires MonthOk(m)
    ensures Valid(d)
  {
    Minus(if m.month == 12 then Date(m.year + 1, 1, 1) else Date(m.year, m.month + 1, 1), 1)
  }

  predicate Expires(m: Month, today: Date, retainDays: nat)
    requires MonthOk(m) && Valid(today)
  {
    Before(MonthEnd(m), Minus(today, retainDays))
  }

  lemma MonthEndIsLast(m: Month, d: Date)
    requires MonthOk(m) && Valid(d) && MonthOf(d) == m
    ensures MonthOf(MonthEnd(m)) == m && !Before(MonthEnd(m), d)
  {
    assert Minus(Date(m.year + 1, 1, 1), 0) == Date(m.year + 1, 1, 1);
    assert m.month < 12 ==> Minus(Date(m.year, m.month + 1, 1), 0) == Date(m.year, m.month + 1, 1);
  }

  /** A month expires exactly when every one of its dates is more than the retention ago. */
  lemma ExpiresIff(m: Month, today: Date, retainDays: nat)
    requires MonthOk(m) && Valid(today)
    ensures Expires(m, today, retainDays) <==>
      forall d: Date :: Valid(d) && MonthOf(d) == m ==> DayNumber(d) < DayNumber(today) - retainDays
  {
    var end, cutoff := MonthEnd(m), Minus(today, retainDays);
    MinusCounts(today, retainDays);
    BeforeIff(end, cutoff);
    MonthEndIsLast(m, Date(m.year, m.month, 1));
    if Expires(m, today, retainDays) {
      forall d: Date | Valid(d) && MonthOf(d) == m ensures DayNumber(d) < DayNumber(today) - retainDays {
        MonthEndIsLast(m, d);
        BeforeIff(end, d);
      }
    }
  }

  // ---- The code ---------------------------------------------------------------------------

  /** What rotation deletes: files whose name is an expired month, if the removal succeeds. */
  predicate Doomed(parse: string -> Option<Month>, name: string, today: Date, retainDays: nat)
    requires Valid(today)
  {
    var m := parse(name);
    m.Some? && MonthOk(m.value) && Expires(m.value, today, retainDays)
  }

  /** Files by name; an entry is the line that was written. */
  class LogDir<Entry> {
    var files: map<string, seq<Entry>>

    constructor ()
      ensures files == map[]
    {
      files := map[];
    }

    /** `write_entry`; `writable` is whether the directory and file can be opened and written. */
    method WriteEntry(now: Date, entry: Entry, writable: bool) returns (ok: bool)
      requires Valid(now)
      modifies this
      ensures ok == writable && files == Written(old(files), now, entry, writable)
    {
      if !writable {
        return false;
      }
      var name := FileName(MonthOf(now));
      if name !in files {
        files := files[name := []];
      }
      files := files[name := files[name] + [entry]];
      ok := true;
    }

    /** `rotate_logs`: walks the directory in any order; some removals may fail. */
    method Rotate(parse: string -> Option<Month>, today: Date, retainDays: nat, readable: bool, removable: set<string>)
      requires Valid(today) && ParserOk(parse)
      modifies this
      ensures files == Rotated(parse, old(files), today, retainDays, readable, removable)
    {
      if !readable {
        return;
      }
      var cutoff := Minus(today, retainDays);
      var todo := files.Keys;
      ghost var all := files;
      while todo != {}
        invariant todo <= files.Keys <= all.Keys
        invariant forall name :: name in files ==> files[name] == all[name]
        invariant forall name :: name in all && name !in todo ==>
          (name in files <==> !(name in removable && Doomed(parse, name, today, retainDays)))
      {
        var name :| name in todo;
        todo := todo - {name};
        var date := parse(name);
        if date.Some? {
          var last := if date.value.month == 12 then Date(date.value.year + 1, 1, 1)
                      else Date(date.value.year, date.value.month + 1, 1);
          var monthEnd := Minus(last, 1);
          if Before(monthEnd, cutoff) && name in removable {
            files := files - {name};
          }
        }
      }
      assert files == Rotated(parse, all, today, retainDays, true, removable);
    }
  }

  function Contents<Entry>(files: map<string, seq<Entry>>, name: string): seq<Entry> {
    if name in files then files[name] else []
  }

  function Written<Entry>(files: map<string, seq<Entry>>, now: Date, entry: Entry, writable: bool): map<string, seq<Entry>>
  {
    var name := FileName(MonthOf(now));
    if writable then files[name := Contents(files, name) + [entry]] else files
  }

  function Rotated<Entry>(parse: string -> Option<Month>, files: map<string, seq<Entry>>, today: Date, retainDays: nat,
                          readable: bool, removable: set<string>): map<string, seq<Entry>>
    requires Valid(today)
  {
    map name | name in files && !(readable && name in removable && Doomed(parse, name, today, retainDays)) :: files[name]
  }

  // ---- Whole histories --------------------------------------------------------------------

  datatype Op<Entry> =
    | Write(now: Date, entry: Entry, writable: bool)
    | Rotate(now: Date, retainDays: nat, readable: bool, removable: set<string>)

  predicate OpOk<Entry>(op: Op<Entry>) { Valid(op.now) }

  predicate OpsOk<Entry>(ops: seq<Op<Entry>>) { forall i :: 0 <= i < |ops| ==> OpOk(ops[i]) }

  function Do<Entry>(parse: string -> Option<Month>, files: map<string, seq<Entry>>, op: Op<Entry>): map<string, seq<Entry>>
    requires OpOk(op)
  {
    match op
    case Write(now, entry, writable) => Written(files, now, entry, writable)
    case Rotate(now, retainDays, readable, removable) => Rotated(parse, files, now, retainDays, readable, removable)
  }

  function Run<Entry>(parse: string -> Option<Month>, files: map<string, seq<Entry>>, ops: seq<Op<Entry>>): map<string, seq<Entry>>
    requires OpsOk(ops)
    decreases |ops|
  {
    if ops == [] then files else Do(parse, Run(parse, files, ops[..|ops| - 1]), ops[|ops| - 1])
  }

  /** No rotation among these operations reaches back to `day`. */
  predicate Spares<Entry>(ops: seq<Op<Entry>>, day: Date)
    requires OpsOk(ops) && Valid(day)
  {
    forall i :: 0 <= i < |ops| && ops[i].Rotate? ==> DayNumber(ops[i].now) - ops[i].retainDays <= DayNumber(day)
  }

  /** A rotation loses a month's file exactly when it can remove it and no date of the month is
      within the retention. */
  lemma RotationLosesIff<Entry>(parse: string -> Option<Month>, files: map<string, seq<Entry>>, op: Op<Entry>, m: Month)
    requires ParserOk(parse) && OpOk(op) && op.Rotate? && MonthOk(m) && FileName(m) in files
    ensures FileName(m) !in Do(parse, files, op) <==>
      && op.readable && FileName(m) in op.removable
      && (forall d: Date :: Valid(d) && MonthOf(d) == m ==> DayNumber(d) < DayNumber(op.now) - op.retainDays)
  {
    ExpiresIff(m, op.now, op.retainDays);
  }

  /** A rotation keeps the file of every day within its retention, whole. */
  lemma RotationSpares<Entry>(parse: string -> Option<Month>, files: map<string, seq<Entry>>, op: Op<Entry>, day: Date)
    requires ParserOk(parse) && OpOk(op) && op.Rotate? && Valid(day)
    requires DayNumber(op.now) - op.retainDays <= DayNumber(day)
    ensures Contents(Do(parse, files, op), FileName(MonthOf(day))) == Contents(files, FileName(MonthOf(day)))
  {
    ExpiresIff(MonthOf(day), op.now, op.retainDays);
  }

  /** Operations that spare a day only ever append to its file. */
  lemma {:induction false} OnlyGrows<Entry>(parse: string -> Option<Month>, files: map<string, seq<Entry>>, ops: seq<Op<Entry>>, day: Date)
    requires ParserOk(parse) && OpsOk(ops) && Valid(day) && Spares(ops, day)
    ensures Contents(files, FileName(MonthOf(day))) <= Contents(Run(parse, files, ops), FileName(MonthOf(day)))
    decreases |ops|
  {
    if ops != [] {
      var last := ops[|ops| - 1];
      OnlyGrows(parse, files, ops[..|ops| - 1], day);
      if last.Rotate? {
        RotationSpares(parse, Run(parse, files, ops[..|ops| - 1]), last, day);
      }
    }
  }

  lemma RunSnoc<Entry>(parse: string -> Option<Month>, files: map<string, seq<Entry>>, ops: seq<Op<Entry>>, op: Op<Entry>)
    requires OpsOk(ops) && OpOk(op)
    ensures OpsOk(ops + [op]) && Run(parse, files, ops + [op]) == Do(parse, Run(parse, files, ops), op)
  {
    assert (ops + [op])[..|ops|] == ops;
  }

  lemma {:induction false} RunAppend<Entry>(parse: string -> Option<Month>, files: map<string, seq<Entry>>, a: seq<Op<Entry>>, b: seq<Op<Entry>>)
    requires OpsOk(a) && OpsOk(b)
    ensures OpsOk(a + b) && Run(parse, files, a + b) == Run(parse, Run(parse, files, a), b)
    decreases |b|
  {
    if b == [] {
      assert a + b == a;
    } else {
      var before, op := b[..|b| - 1], b[|b| - 1];
      RunAppend(parse, files, a, before);
      RunSnoc(parse, files, a + before, op);
      assert a + before + [op] == a + b;
    }
  }

  /** In any history, an entry that was written on `day` is still there as long as every rotation
      happened by `today` with a retention of at least `retainDays`, and `day` is within it. */
  lemma NoRecentLoss<Entry>(parse: string -> Option<Month>, files: map<string, seq<Entry>>, ops: seq<Op<Entry>>, k: nat,
                            today: Date, retainDays: nat)
    requires ParserOk(parse) && OpsOk(ops) && k < |ops| && ops[k].Write? && ops[k].writable && Valid(today)
    requires forall i :: k < i < |ops| && ops[i].Rotate? ==>
      DayNumber(ops[i].now) <= DayNumber(today) && ops[i].retainDays >= retainDays
    requires DayNumber(ops[k].now) >= DayNumber(today) - retainDays
    ensures ops[k].entry in Contents(Run(parse, files, ops), FileName(MonthOf(ops[k].now)))
  {
    var before, after := ops[..k + 1], ops[k + 1..];
    var day := ops[k].now;
    assert ops == before + after;
    RunAppend(parse, files, before, after);
    assert Spares(after, day);
    OnlyGrows(parse, Run(parse, files, before), after, day);
    JustWritten(parse, files, before);
    StillThere(ops[k].entry, Contents(Run(parse, files, before), FileName(MonthOf(day))),
               Contents(Run(parse, files, ops), FileName(MonthOf(day))));
  }

  /** With the parser above this holds outright: rotating today never loses what was written today,
      whatever the retention, in any history before it. */
  lemma TodayIsSafe<Entry>(files: map<string, seq<Entry>>, ops: seq<Op<Entry>>, entry: Entry, today: Date, retainDays: nat,
                           removable: set<string>)
    requires OpsOk(ops) && Valid(today)
    ensures var all := ops + [Write(today, entry, true), Rotate(today, retainDays, true, removable)];
      OpsOk(all) && entry in Contents(Run(ParseName, files, all), FileName(MonthOf(today)))
  {
    var all := ops + [Write(today, entry, true), Rotate(today, retainDays, true, removable)];
    ParseNameOk();
    assert all[|ops|] == Write(today, entry, true);
    NoRecentLoss(ParseName, files, all, |ops|, today, retainDays);
  }

  lemma JustWritten<Entry>(parse: string -> Option<Month>, files: map<string, seq<Entry>>, ops: seq<Op<Entry>>)
    requires OpsOk(ops) && ops != [] && ops[|ops| - 1].Write? && ops[|ops| - 1].writable
    ensures var op := ops[|ops| - 1];
      op.entry in Contents(Run(parse, files, ops), FileName(MonthOf(op.now)))
  {
    var op := ops[|ops| - 1];
    var here := Contents(Run(parse, files, ops), FileName(MonthOf(op.now)));
    assert here[|here| - 1] == op.entry;
  }

  lemma StillThere<T>(x: T, a: seq<T>, b: seq<T>)
    requires x in a && a <= b
    ensures x in b
  {
    var i :| 0 <= i < |a| && a[i] == x;
    assert b[i] == x;
  }
}
