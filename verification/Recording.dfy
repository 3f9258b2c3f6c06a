/** Export of a recorded session: cutting the payload out of the log and replaying its timing. */
module Recording {
  import opened Common

  const NEWLINE: byte := 10

  /** "Script done" in ASCII. */
  const DONE: seq<byte> := [83, 99, 114, 105, 112, 116, 32, 100, 111, 110, 101]

  // ---- The payload ------------------------------------------------------------------------

  predicate StartsWith(s: seq<byte>, p: seq<byte>) { |p| <= |s| && s[..|p|] == p }

  /** `i` is the first newline. */
  predicate IsHeaderEnd(log: seq<byte>, i: nat) { i < |log| && log[i] == NEWLINE && NEWLINE !in log[..i] }

  /** `i` is the last newline that is neither the first nor the last byte. */
  predicate IsLastBreak(log: seq<byte>, i: nat) {
    1 <= i < |log| - 1 && log[i] == NEWLINE && forall k :: i < k < |log| - 1 ==> log[k] != NEWLINE
  }

  predicate IsFooterBreak(log: seq<byte>, i: nat) { IsLastBreak(log, i) && StartsWith(log[i + 1..], DONE) }

  /** Where the payload starts and ends; `None` where the slice would be ill-formed. */
  method Slice(log: seq<byte>) returns (payload: Option<seq<byte>>)
    ensures payload.None? <==> exists i :: IsHeaderEnd(log, i) && IsFooterBreak(log, i)
    ensures payload.Some? ==> IsPayload(log, payload.value)
  {
    var start := HeaderSkip(log);
    var end := FooterCut(log);
    if start > end {
      assert IsHeaderEnd(log, end) && IsFooterBreak(log, end) by {
        OnlyBreak(log, start - 1, end);
      }
      return None;
    }
    SliceOk(log, start, end);
    payload := Some(log[start..end]);
  }

  predicate IsStart(log: seq<byte>, start: nat) {
    if start == 0 then NEWLINE !in log else IsHeaderEnd(log, start - 1)
  }

  ghost predicate IsEnd(log: seq<byte>, end: nat) {
    IsFooterBreak(log, end) || (end == |log| && !HasFooter(log))
  }

  ghost predicate HasFooter(log: seq<byte>) { exists i :: IsFooterBreak(log, i) }

  ghost predicate IsPayload(log: seq<byte>, payload: seq<byte>) {
    exists start, end :: 0 <= start <= end <= |log| && IsStart(log, start) && IsEnd(log, end) && payload == log[start..end]
  }

  method HeaderSkip(log: seq<byte>) returns (start: nat)
    ensures start <= |log| && IsStart(log, start)
  {
    for i := 0 to |log|
      invariant NEWLINE !in log[..i]
    {
      if log[i] == NEWLINE {
        return i + 1;
      }
    }
    assert log[..|log|] == log;
    start := 0;
  }

  method FooterCut(log: seq<byte>) returns (end: nat)
    ensures end <= |log| && IsEnd(log, end)
  {
    end := |log|;
    var i := if |log| == 0 then 0 else |log| - 1;
    while i > 1
      invariant 0 <= i <= |log| && end == |log|
      invariant |log| > 0 ==> i <= |log| - 1
      invariant i > 1 ==> |log| > 2
      invariant forall k :: i <= k < |log| - 1 ==> log[k] != NEWLINE
    {
      i := i - 1;
      if log[i] == NEWLINE {
        var line := log[i + 1..];
        if StartsWith(line, DONE) || StartsWith(line, [NEWLINE] + DONE) {
          SecondFormIsDead(log, i);
          end := i;
        } else {
          BreakIsUnique(log, i);
        }
        return;
      }
    }
  }

  /** The test for a blank line before "Script done" can never succeed at the last newline. */
  lemma SecondFormIsDead(log: seq<byte>, i: nat)
    requires IsLastBreak(log, i)
    ensures !StartsWith(log[i + 1..], [NEWLINE] + DONE)
  {
    var line := log[i + 1..];
    if |line| >= 12 {
      assert line[..12][0] == log[i + 1];
    }
  }

  lemma BreakIsUnique(log: seq<byte>, i: nat)
    requires IsLastBreak(log, i) && !StartsWith(log[i + 1..], DONE)
    ensures !HasFooter(log)
  {
    forall j | IsLastBreak(log, j) ensures j == i {
    }
  }

  lemma NotBefore(log: seq<byte>, h: nat, k: nat)
    requires IsHeaderEnd(log, h) && k < |log| && log[k] == NEWLINE
    ensures h <= k
  {
    assert forall j :: 0 <= j < h ==> log[..h][j] == log[j];
  }

  lemma OnlyBreak(log: seq<byte>, h: nat, end: nat)
    requires IsHeaderEnd(log, h) && IsEnd(log, end) && end <= h
    ensures IsFooterBreak(log, h) && end == h
  {
    NotBefore(log, h, end);
  }

  lemma SliceOk(log: seq<byte>, start: nat, end: nat)
    requires start <= end <= |log| && IsStart(log, start) && IsEnd(log, end)
    ensures IsPayload(log, log[start..end])
    ensures !exists i :: IsHeaderEnd(log, i) && IsFooterBreak(log, i)
  {
    if i :| IsHeaderEnd(log, i) && IsFooterBreak(log, i) {
      SameHeader(log, i, start);
      SameEnd(log, i, end);
      assert false;
    }
  }

  lemma SameHeader(log: seq<byte>, i: nat, start: nat)
    requires IsHeaderEnd(log, i) && IsStart(log, start)
    ensures start == i + 1
  {
    if start > 0 {
      NotBefore(log, i, start - 1);
      NotBefore(log, start - 1, i);
    }
  }

  lemma SameEnd(log: seq<byte>, i: nat, end: nat)
    requires IsFooterBreak(log, i) && IsEnd(log, end)
    ensures end == i
  {
  }

  lemma SameStart(log: seq<byte>, a: nat, c: nat)
    requires IsStart(log, a) && IsStart(log, c)
    ensures a == c
  {
    if a > 0 {
      SameHeader(log, a - 1, c);
    }
  }

  lemma SameCut(log: seq<byte>, b: nat, d: nat)
    requires IsEnd(log, b) && IsEnd(log, d)
    ensures b == d
  {
    if IsFooterBreak(log, b) {
      SameEnd(log, b, d);
    }
  }

  /** The payload is determined by the log. */
  lemma PayloadIsUnique(log: seq<byte>, p: seq<byte>, q: seq<byte>)
    requires IsPayload(log, p) && IsPayload(log, q)
    ensures p == q
  {
    var a, b :| 0 <= a <= b <= |log| && IsStart(log, a) && IsEnd(log, b) && p == log[a..b];
    var c, d :| 0 <= c <= d <= |log| && IsStart(log, c) && IsEnd(log, d) && q == log[c..d];
    SameStart(log, a, c);
    SameCut(log, b, d);
  }

  /** The bytes of a text of ASCII characters; others count as 0. */
  function Ascii(s: string): seq<byte> {
    seq(|s|, i requires 0 <= i < |s| => if s[i] < 128 as char then s[i] as int else 0)
  }

  /** script(1)'s layout is undone: header line, payload, and a footer line, with or without a
      final newline. The payload may hold anything, newlines included. */
  lemma ScriptLayout(header: seq<byte>, payload: seq<byte>, tail: seq<byte>, last: bool)
    requires NEWLINE !in header && NEWLINE !in tail
    ensures var log := header + [10] + payload + [10] + Ascii("Script done") + tail + if last then [10] else [];
      IsPayload(log, payload)
  {
    assert DONE == Ascii("Script done");
    var a := header + [NEWLINE] + payload;
    var footer := DONE + tail + if last then [NEWLINE] else [];
    var log := a + [NEWLINE] + footer;
    var i := |a|;
    assert log == header + [NEWLINE] + payload + [NEWLINE] + DONE + tail + if last then [NEWLINE] else [];
    assert log[..|header|] == header && log[|header|] == NEWLINE;
    assert IsStart(log, |header| + 1);
    assert log[i + 1..] == footer;
    assert footer[..|DONE|] == DONE;
    forall k | i < k < |log| - 1 ensures log[k] != NEWLINE {
      assert log[k] == footer[k - i - 1];
      assert k - i - 1 < |DONE| + |tail|;
      assert footer[k - i - 1] == (DONE + tail)[k - i - 1];
    }
    assert IsEnd(log, i);
    assert log[|header| + 1..i] == payload;
  }

  /** A log that cannot be sliced: a header line followed at once by the footer. */
  lemma FooterRightAfterHeader(log: seq<byte>)
    requires log == [120, NEWLINE] + DONE
    ensures IsHeaderEnd(log, 1) && IsFooterBreak(log, 1)
  {
    assert log[..1] == [120] && log[2..] == DONE && log[2..][..|DONE|] == DONE;
    forall k | 1 < k < |log| - 1 ensures log[k] != NEWLINE {
      assert log[k] == DONE[k - 2];
    }
  }

  // ---- The timing -------------------------------------------------------------------------

  const USIZE: nat := 0x1_0000_0000_0000_0000

  /** A line of the timing file: two fields that parse, or anything else, which is skipped. */
  datatype Line = Timing(delay: real, nbytes: nat) | Skipped

  datatype Event = Event(time: real, chunk: seq<byte>)

  function Bytes(lines: seq<Line>): nat
    decreases |lines|
  {
    if lines == [] then 0
    else Bytes(lines[..|lines| - 1]) + if lines[|lines| - 1].Timing? then lines[|lines| - 1].nbytes else 0
  }

  function Time(lines: seq<Line>): real
    decreases |lines|
  {
    if lines == [] then 0.0
    else Time(lines[..|lines| - 1]) + if lines[|lines| - 1].Timing? then lines[|lines| - 1].delay else 0.0
  }

  function Min(a: nat, b: nat): nat { if a < b then a else b }

  /** How far into the payload the lines reach. */
  function Reach(lines: seq<Line>, payload: seq<byte>): nat { Min(Bytes(lines), |payload|) }

  /** The events, each from the totals before and after its line. */
  function Events(lines: seq<Line>, payload: seq<byte>): seq<Event>
    decreases |lines|
  {
    if lines == [] then []
    else
      var before := lines[..|lines| - 1];
      var from, to := Reach(before, payload), Reach(lines, payload);
      Events(before, payload) + if from < to then [Event(Time(lines), payload[from..to])] else []
  }

  /** Adding a line's byte count to the offset stays within a machine word. */
  predicate Fits(lines: seq<Line>, payload: seq<byte>, i: nat)
    requires i < |lines|
  {
    lines[i].Timing? ==> Reach(lines[..i], payload) + lines[i].nbytes <= 0xFFFF_FFFF_FFFF_FFFF
  }

  /** The machine's sum of offset and byte count. */
  function Plus(a: nat, b: nat): nat { (a + b) % USIZE }

  lemma PlusWraps(a: nat, b: nat)
    requires a < USIZE && b < USIZE
    ensures Plus(a, b) == if a + b < USIZE then a + b else a + b - USIZE
  {
  }

  /** One line: the totals grow, and an event is added for the part of the payload it covers. */
  lemma EventsStep(lines: seq<Line>, i: nat, payload: seq<byte>)
    requires i < |lines|
    ensures lines[i].Skipped? ==>
      && Reach(lines[..i + 1], payload) == Reach(lines[..i], payload)
      && Time(lines[..i + 1]) == Time(lines[..i]) && Events(lines[..i + 1], payload) == Events(lines[..i], payload)
    ensures lines[i].Timing? ==>
      var from, to := Reach(lines[..i], payload), Min(Reach(lines[..i], payload) + lines[i].nbytes, |payload|);
      && Reach(lines[..i + 1], payload) == to && Time(lines[..i + 1]) == Time(lines[..i]) + lines[i].delay
      && Events(lines[..i + 1], payload) ==
           Events(lines[..i], payload) + if from < to then [Event(Time(lines[..i]) + lines[i].delay, payload[from..to])] else []
  {
    assert lines[..i + 1][..i] == lines[..i];
  }

  /** The bytes a line gets, and whether the slice for them is well-formed. */
  method Take(payload: seq<byte>, offset: nat, count: nat) returns (nbytes: nat, ok: bool)
    requires offset <= |payload| < USIZE && count < USIZE
    ensures ok <==> offset + count < USIZE
    ensures ok ==> offset + nbytes == Min(offset + count, |payload|)
  {
    PlusWraps(offset, count);
    nbytes := count;
    if Plus(offset, nbytes) > |payload| {
      nbytes := |payload| - offset;
      PlusWraps(offset, nbytes);
    }
    ok := nbytes == 0 || offset <= Plus(offset, nbytes);
  }

  /** The replay loop; `None` where it panics: on the overflow itself, or, with wrapping
      arithmetic, on the slice whose end then lies before its start. */
  method Replay(payload: seq<byte>, lines: seq<Line>) returns (events: Option<seq<Event>>)
    requires |payload| < USIZE && forall i :: 0 <= i < |lines| && lines[i].Timing? ==> lines[i].nbytes < USIZE
    ensures events.Some? <==> forall i :: 0 <= i < |lines| ==> Fits(lines, payload, i)
    ensures events.Some? ==> events.value == Events(lines, payload)
  {
    var out: seq<Event> := [];
    var time: real, offset: nat := 0.0, 0;
    for i := 0 to |lines|
      invariant out == Events(lines[..i], payload) && time == Time(lines[..i]) && offset == Reach(lines[..i], payload)
      invariant forall k :: 0 <= k < i ==> Fits(lines, payload, k)
    {
      EventsStep(lines, i, payload);
      if lines[i].Skipped? {
        continue;
      }
      time := time + lines[i].delay;
      assert Fits(lines, payload, i) <==> offset + lines[i].nbytes < USIZE;
      var nbytes, ok := Take(payload, offset, lines[i].nbytes);
      if !ok {
        return None;
      }
      if nbytes == 0 {
        continue;
      }
      var chunk := payload[offset..offset + nbytes];
      offset := offset + nbytes;
      out := out + [Event(time, chunk)];
    }
    assert lines[..|lines|] == lines;
    events := Some(out);
  }

  function Joined(events: seq<Event>): seq<byte>
    decreases |events|
  {
    if events == [] then [] else Joined(events[..|events| - 1]) + events[|events| - 1].chunk
  }

  lemma JoinedSnoc(events: seq<Event>, e: Event)
    ensures Joined(events + [e]) == Joined(events) + e.chunk
  {
    assert (events + [e])[..|events|] == events;
  }

  /** The chunks concatenate to the payload as far as the byte counts reach. */
  lemma {:induction false} ChunksJoin(lines: seq<Line>, payload: seq<byte>)
    ensures Joined(Events(lines, payload)) == payload[..Reach(lines, payload)]
    decreases |lines|
  {
    if lines != [] {
      var before := lines[..|lines| - 1];
      ChunksJoin(before, payload);
      var from, to := Reach(before, payload), Reach(lines, payload);
      if from < to {
        JoinedSnoc(Events(before, payload), Event(Time(lines), payload[from..to]));
        assert payload[..from] + payload[from..to] == payload[..to];
      } else {
        assert Events(before, payload) + [] == Events(before, payload);
      }
    }
  }

  predicate Ordered(events: seq<Event>, until: real) {
    && (forall i :: 0 <= i < |events| ==> events[i].chunk != [] && events[i].time <= until)
    && (forall i, j :: 0 <= i < j < |events| ==> events[i].time <= events[j].time)
  }

  /** With no negative delay the timestamps never go back, and no event is empty. */
  lemma {:induction false} TimesAreOrdered(lines: seq<Line>, payload: seq<byte>)
    requires forall i :: 0 <= i < |lines| && lines[i].Timing? ==> lines[i].delay >= 0.0
    ensures Ordered(Events(lines, payload), Time(lines))
    decreases |lines|
  {
    if lines != [] {
      TimesAreOrdered(lines[..|lines| - 1], payload);
    }
  }

  /** A timing file that makes the replay panic: one byte, and then as many as a word can count. */
  lemma OverflowExample(payload: seq<byte>, lines: seq<Line>)
    requires payload != [] && lines == [Timing(0.0, 1), Timing(0.0, USIZE - 1)]
    ensures Fits(lines, payload, 0) && !Fits(lines, payload, 1)
  {
    assert lines[..0] == [] && lines[..1] == [Timing(0.0, 1)] && lines[..1][..0] == [];
    assert Bytes(lines[..1]) == 1;
  }
}
