/** Batch transfers. */
module Batch {
  // The shared engine of `push-via-batch` and `pull-via-batch`.
  // One spawn loop, one task per file, a semaphore, a Ctrl+C flag, atomic counters and an append-only
  // index file. Every atomic action is one `Step`; a run is any sequence of enabled steps, so the
  // lemmas speak about all interleavings. What the resume probe and curl find is the argument of
  // `Settle`; the code's comparisons turn it into an outcome.

  import opened Common

  const U64 := 0x1_0000_0000_0000_0000

  /** A file to transfer. Uploads always know the size, a download only if the manifest said so. */
  datatype File = File(path: string, size: Option<nat>)

  datatype Config = Config(pull: bool, files: seq<File>, parallel: nat, resume: bool, indexed: bool)

  /** Why a file was skipped; a resume match names the size found at the other end. */
  datatype Reason = Cancelled | ResumeMatch(found: nat)

  /** `curl` fails, or succeeds and leaves a file of some length, which may not be put in place. */
  datatype Curl = Exited(message: string) | Wrote(length: nat, placed: bool)

  /** What a worker finds: the size of the file already there, if any, and what curl does. */
  datatype Seen = Seen(found: Option<nat>, curl: Curl)

  datatype Outcome =
    | Transferred(written: nat)
    | Skipped(reason: Reason)
    | Failed(message: string)

  /** Where a worker task is. The permit is held from `Holding` to phase `RECORDED`. */
  datatype Stage = Queued | Holding | Busy | Past(o: Outcome, phase: nat)

  // Phases of a worker whose outcome is known: the last shared action it has done.
  const SETTLED := 0
  const COUNTED := 1
  const TALLIED := 2
  const BILLED := 3
  const RECORDED := 4
  const FINISHED := 5

  datatype Worker = Worker(file: File, stage: Stage)

  datatype Line =
    | Record(path: string, size: Option<nat>, outcome: Outcome)
    | Footer(total: nat, ok: nat, skipped: nat, failed: nat, bytes: nat, cancelled: bool)

  datatype Main = LoopHead | Spawning | Joining(j: nat) | Closing | Returned

  datatype State = State(
    workers: seq<Worker>, main: Main, permits: nat, cancel: bool,
    done: nat, ok: nat, skipped: nat, failed: nat, bytes: nat, index: seq<Line>)

  datatype Step =
    | LoopCheck
    | Spawn
    | Acquire(i: nat)
    | CheckCancel(i: nat)
    | Settle(i: nat, seen: Seen)
    | CountDone(i: nat)
    | Tally(i: nat)
    | Bill(i: nat)
    | Append(i: nat)
    | Release(i: nat)
    | Join
    | Close
    | CtrlC

  function Limit(cfg: Config): nat {
    if cfg.parallel == 0 then 1 else cfg.parallel
  }

  function Init(cfg: Config): State {
    State([], LoopHead, Limit(cfg), false, 0, 0, 0, 0, 0, [])
  }

  /** The resume check: the sizes agree, or a download has no size to compare with. */
  predicate Matches(f: File, found: Option<nat>) {
    found.Some? && (f.size.Some? ==> found.value == f.size.value)
  }

  /** The worker's branches after its cancel check. An upload counts the listed size, a download
      what was written, after comparing the two. */
  function Judge(cfg: Config, f: File, seen: Seen): Outcome {
    if cfg.resume && Matches(f, seen.found) then Skipped(ResumeMatch(seen.found.value))
    else if seen.curl.Exited? then Failed(seen.curl.message)
    else if !cfg.pull then Transferred(if f.size.Some? then f.size.value else 0)
    else if f.size.Some? && seen.curl.length != f.size.value then Failed("size mismatch")
    else if !seen.curl.placed then Failed("replace")
    else Transferred(seen.curl.length)
  }

  /** What an outcome vouches for: the bytes of a success, and the file of a resume match, have
      the listed size. */
  predicate Plausible(cfg: Config, f: File, o: Outcome) {
    match o
    case Transferred(w) => f.size.Some? ==> w == f.size.value
    case Skipped(Cancelled) => false
    case Skipped(ResumeMatch(n)) => cfg.resume && (f.size.Some? ==> n == f.size.value)
    case Failed(_) => true
  }

  lemma JudgeIsPlausible(cfg: Config, f: File, seen: Seen)
    ensures Plausible(cfg, f, Judge(cfg, f, seen))
  {
  }

  /** How a worker ends, told from what it found. */
  datatype Ending = Won | Lost | AlreadyThere | Stopped

  /** The file at the other end is the one to transfer, as far as sizes tell. */
  predicate FoundThere(cfg: Config, f: File, seen: Seen) {
    cfg.resume && seen.found.Some? && (f.size.None? || seen.found == f.size)
  }

  /** `curl` succeeded, and a download has its listed length, if any, and was put in place. */
  predicate Delivered(cfg: Config, f: File, seen: Seen) {
    && seen.curl.Wrote?
    && (cfg.pull ==> seen.curl.placed && (f.size.None? || f.size == Some(seen.curl.length)))
  }

  predicate Finds(cfg: Config, f: File, seen: Seen, e: Ending) {
    match e
    case AlreadyThere => FoundThere(cfg, f, seen)
    case Won => !FoundThere(cfg, f, seen) && Delivered(cfg, f, seen)
    case Lost => !FoundThere(cfg, f, seen) && !Delivered(cfg, f, seen)
    case Stopped => false
  }

  function EndingOf(o: Outcome): Ending {
    match o
    case Transferred(_) => Won
    case Failed(_) => Lost
    case Skipped(ResumeMatch(_)) => AlreadyThere
    case Skipped(Cancelled) => Stopped
  }

  /** The bytes a success adds: those written by a download, the file's own size for an upload. */
  function BytesMoved(cfg: Config, f: File, seen: Seen): nat {
    if cfg.pull then (if seen.curl.Wrote? then seen.curl.length else 0)
    else if f.size.Some? then f.size.value else 0
  }

  /** What curl said, or what was wrong with the file it left. */
  function WhyLost(f: File, curl: Curl): string {
    match curl
    case Exited(message) => message
    case Wrote(length, _) => if f.size in [None, Some(length)] then "replace" else "size mismatch"
  }

  /** An outcome is the right one for the findings: its kind, its bytes, its reason. */
  predicate Right(cfg: Config, f: File, seen: Seen, o: Outcome) {
    && Finds(cfg, f, seen, EndingOf(o))
    && (o.Transferred? ==> o.written == BytesMoved(cfg, f, seen))
    && (o.Skipped? && o.reason.ResumeMatch? ==> seen.found == Some(o.reason.found))
    && (o.Failed? ==> o.message == WhyLost(f, seen.curl))
  }

  /** In particular a transfer succeeds exactly when the resume probe did not find the file and curl
      delivered it, and fails exactly when neither happened, for uploads and downloads. */
  lemma JudgeIsRight(cfg: Config, f: File, seen: Seen)
    ensures Right(cfg, f, seen, Judge(cfg, f, seen))
  {
  }

  function RecordOf(f: File, o: Outcome): Line {
    Record(f.path, if o.Transferred? && f.size.None? then Some(o.written) else f.size, o)
  }

  predicate AtWorker(s: State, i: nat) {
    i < |s.workers|
  }

  predicate AtPhase(s: State, i: nat, phase: nat) {
    AtWorker(s, i) && s.workers[i].stage.Past? && s.workers[i].stage.phase == phase
  }

  predicate HasFinished(w: Worker) { w.stage.Past? && w.stage.phase == FINISHED }

  predicate Enabled(cfg: Config, s: State, step: Step) {
    match step
    case LoopCheck => s.main.LoopHead?
    case Spawn => s.main.Spawning? && |s.workers| < |cfg.files|
    case Acquire(i) => AtWorker(s, i) && s.workers[i].stage.Queued? && s.permits > 0
    case CheckCancel(i) => AtWorker(s, i) && s.workers[i].stage.Holding?
    case Settle(i, _) => AtWorker(s, i) && s.workers[i].stage.Busy?
    case CountDone(i) => AtPhase(s, i, SETTLED)
    case Tally(i) => AtPhase(s, i, COUNTED)
    case Bill(i) => AtPhase(s, i, TALLIED) && s.workers[i].stage.o.Transferred?
    case Append(i) => AtPhase(s, i, BILLED) || (AtPhase(s, i, TALLIED) && !s.workers[i].stage.o.Transferred?)
    case Release(i) => AtPhase(s, i, RECORDED)
    case Join => s.main.Joining? && (s.main.j < |s.workers| ==> HasFinished(s.workers[s.main.j]))
    case Close => s.main.Closing?
    case CtrlC => !s.cancel && !s.main.Returned?
  }

  function Move(s: State, i: nat, stage: Stage): State
    requires i < |s.workers|
  {
    s.(workers := s.workers[i := s.workers[i].(stage := stage)])
  }

  function Do(cfg: Config, s: State, step: Step): State
    requires Enabled(cfg, s, step)
  {
    match step
    case LoopCheck =>
      s.(main := if |s.workers| < |cfg.files| && !s.cancel then Spawning else Joining(0))
    case Spawn =>
      s.(workers := s.workers + [Worker(cfg.files[|s.workers|], Queued)], main := LoopHead)
    case Acquire(i) => Move(s, i, Holding).(permits := s.permits - 1)
    case CheckCancel(i) => Move(s, i, if s.cancel then Past(Skipped(Cancelled), SETTLED) else Busy)
    case Settle(i, seen) => Move(s, i, Past(Judge(cfg, s.workers[i].file, seen), SETTLED))
    case CountDone(i) => Move(s, i, Past(s.workers[i].stage.o, COUNTED)).(done := s.done + 1)
    case Tally(i) =>
      var o := s.workers[i].stage.o;
      var t := Move(s, i, Past(o, TALLIED));
      (match o
       case Transferred(_) => t.(ok := s.ok + 1)
       case Skipped(_) => t.(skipped := s.skipped + 1)
       case Failed(_) => t.(failed := s.failed + 1))
    case Bill(i) =>
      var o := s.workers[i].stage.o;
      Move(s, i, Past(o, BILLED)).(bytes := (s.bytes + o.written) % U64)
    case Append(i) =>
      var w := s.workers[i];
      Move(s, i, Past(w.stage.o, RECORDED)).(
        index := if cfg.indexed then s.index + [RecordOf(w.file, w.stage.o)] else s.index)
    case Release(i) => Move(s, i, Past(s.workers[i].stage.o, FINISHED)).(permits := s.permits + 1)
    case Join => s.(main := if s.main.j < |s.workers| then Joining(s.main.j + 1) else Closing)
    case Close =>
      s.(main := Returned,
         index := if cfg.indexed
                  then s.index + [Footer(|cfg.files|, s.ok, s.skipped, s.failed, s.bytes, s.cancel)]
                  else s.index)
    case CtrlC => s.(cancel := true)
  }

  /** `steps` is a run from `s`: each step is enabled when its turn comes. */
  predicate IsRun(cfg: Config, s: State, steps: seq<Step>)
    decreases |steps|
  {
    steps == [] || (Enabled(cfg, s, steps[0]) && IsRun(cfg, Do(cfg, s, steps[0]), steps[1..]))
  }

  function Final(cfg: Config, s: State, steps: seq<Step>): State
    requires IsRun(cfg, s, steps)
    decreases |steps|
  {
    if steps == [] then s else Final(cfg, Do(cfg, s, steps[0]), steps[1..])
  }

  // ---- Weighted sums over the workers ---------------------------------------------------

  function Sum(ws: seq<Worker>, f: Worker -> nat): nat {
    if ws == [] then 0 else Sum(ws[..|ws| - 1], f) + f(ws[|ws| - 1])
  }

  function Holds(w: Worker): nat { if w.stage.Queued? || HasFinished(w) then 0 else 1 }

  predicate HasOutcome(w: Worker) { w.stage.Past? }

  /** The worker has incremented `done`. */
  function IsDone(w: Worker): nat { if w.stage.Past? && w.stage.phase >= COUNTED then 1 else 0 }

  predicate IsTallied(w: Worker) { w.stage.Past? && w.stage.phase >= TALLIED }

  function IsOk(w: Worker): nat { if IsTallied(w) && w.stage.o.Transferred? then 1 else 0 }
  function IsSkipped(w: Worker): nat { if IsTallied(w) && w.stage.o.Skipped? then 1 else 0 }
  function IsFailed(w: Worker): nat { if IsTallied(w) && w.stage.o.Failed? then 1 else 0 }

  /** Bytes the worker has added to the byte counter. */
  function BytesOf(w: Worker): nat {
    if w.stage.Past? && w.stage.phase >= BILLED && w.stage.o.Transferred? then w.stage.o.written else 0
  }

  function IsBusy(w: Worker): nat { if w.stage.Busy? then 1 else 0 }

  /** The worker's transfer ended by itself, not by the cancel check. */
  function RanToEnd(w: Worker): nat {
    if HasOutcome(w) && w.stage.o != Skipped(Cancelled) then 1 else 0
  }

  function Lines(w: Worker): multiset<Line> {
    if w.stage.Past? && w.stage.phase >= RECORDED then multiset{RecordOf(w.file, w.stage.o)} else multiset{}
  }

  function AllLines(ws: seq<Worker>): multiset<Line> {
    if ws == [] then multiset{} else AllLines(ws[..|ws| - 1]) + Lines(ws[|ws| - 1])
  }

  lemma {:induction false} SumUpdate(ws: seq<Worker>, i: nat, w: Worker, f: Worker -> nat)
    requires i < |ws|
    ensures Sum(ws[i := w], f) + f(ws[i]) == Sum(ws, f) + f(w)
    decreases |ws|
  {
    var n := |ws| - 1;
    if i < n {
      assert ws[i := w][..n] == ws[..n][i := w];
      SumUpdate(ws[..n], i, w, f);
    } else {
      assert ws[i := w][..n] == ws[..n];
    }
  }

  lemma AddSame(a: multiset<Line>, v: multiset<Line>, b: multiset<Line>, w: multiset<Line>, c: multiset<Line>)
    requires a + v == b + w
    ensures (a + c) + v == (b + c) + w
  {
    assert (a + c) + v == (a + v) + c;
    assert (b + c) + w == (b + w) + c;
  }

  lemma DropSame(a: multiset<Line>, b: multiset<Line>, c: multiset<Line>)
    requires a + c == b + c
    ensures a == b
  {
    assert a == (a + c) - c;
    assert b == (b + c) - c;
  }

  lemma LinesSnoc(ws: seq<Worker>, w: Worker)
    ensures AllLines(ws + [w]) == AllLines(ws) + Lines(w)
  {
    assert (ws + [w])[..|ws|] == ws;
  }

  lemma {:induction false} LinesUpdate(ws: seq<Worker>, i: nat, w: Worker)
    requires i < |ws|
    ensures AllLines(ws[i := w]) + Lines(ws[i]) == AllLines(ws) + Lines(w)
    decreases |ws|
  {
    var n := |ws| - 1;
    var before, last := ws[..n], ws[n];
    assert ws == before + [last];
    LinesSnoc(before, last);
    if i < n {
      assert ws[i := w] == before[i := w] + [last];
      LinesSnoc(before[i := w], last);
      LinesUpdate(before, i, w);
      AddSame(AllLines(before[i := w]), Lines(ws[i]), AllLines(before), Lines(w), Lines(last));
    } else {
      assert ws[i := w] == before + [w];
      LinesSnoc(before, w);
      Swap(AllLines(before), Lines(w), Lines(last));
    }
  }

  lemma Swap(a: multiset<Line>, b: multiset<Line>, c: multiset<Line>)
    ensures (a + b) + c == (a + c) + b
  {
  }

  /** Pointwise smaller weights give a smaller sum. */
  lemma {:induction false} SumMonotone(ws: seq<Worker>, f: Worker -> nat, g: Worker -> nat)
    requires forall i :: 0 <= i < |ws| ==> f(ws[i]) <= g(ws[i])
    ensures Sum(ws, f) <= Sum(ws, g)
  {
    if ws != [] {
      SumMonotone(ws[..|ws| - 1], f, g);
    }
  }

  lemma {:induction false} SumWitness(ws: seq<Worker>, f: Worker -> nat) returns (i: nat)
    requires Sum(ws, f) > 0
    ensures i < |ws| && f(ws[i]) > 0
  {
    i := |ws| - 1;
    if f(ws[i]) == 0 {
      i := SumWitness(ws[..i], f);
    }
  }

  lemma UpdateAll(ws: seq<Worker>, i: nat, w: Worker)
    requires i < |ws|
    ensures Sum(ws[i := w], Holds) + Holds(ws[i]) == Sum(ws, Holds) + Holds(w)
    ensures Sum(ws[i := w], IsDone) + IsDone(ws[i]) == Sum(ws, IsDone) + IsDone(w)
    ensures Sum(ws[i := w], IsOk) + IsOk(ws[i]) == Sum(ws, IsOk) + IsOk(w)
    ensures Sum(ws[i := w], IsSkipped) + IsSkipped(ws[i]) == Sum(ws, IsSkipped) + IsSkipped(w)
    ensures Sum(ws[i := w], IsFailed) + IsFailed(ws[i]) == Sum(ws, IsFailed) + IsFailed(w)
    ensures Sum(ws[i := w], BytesOf) + BytesOf(ws[i]) == Sum(ws, BytesOf) + BytesOf(w)
  {
    SumUpdate(ws, i, w, Holds);
    SumUpdate(ws, i, w, IsDone);
    SumUpdate(ws, i, w, IsOk);
    SumUpdate(ws, i, w, IsSkipped);
    SumUpdate(ws, i, w, IsFailed);
    SumUpdate(ws, i, w, BytesOf);
  }

  // ---- The invariant of all interleavings -----------------------------------------------

  predicate WorkerOk(cfg: Config, cancel: bool, i: nat, w: Worker) {
    && i < |cfg.files|
    && w.file == cfg.files[i]
    && (HasOutcome(w) ==> Plausible(cfg, w.file, w.stage.o) || (w.stage.o == Skipped(Cancelled) && cancel))
    && (HasOutcome(w) ==> w.stage.phase <= FINISHED)
    && (HasOutcome(w) && w.stage.phase == BILLED ==> w.stage.o.Transferred?)
  }

  predicate WorkersOk(cfg: Config, s: State) {
    forall i :: 0 <= i < |s.workers| ==> WorkerOk(cfg, s.cancel, i, s.workers[i])
  }

  predicate MainOk(cfg: Config, s: State) {
    && |s.workers| <= |cfg.files|
    && (s.main.Spawning? ==> |s.workers| < |cfg.files|)
    && (s.main.Joining? || s.main.Closing? || s.main.Returned? ==> |s.workers| == |cfg.files| || s.cancel)
    && (s.main.Joining? ==> s.main.j <= |s.workers|
                            && forall i :: 0 <= i < s.main.j ==> HasFinished(s.workers[i]))
    && (s.main.Closing? || s.main.Returned? ==> forall i :: 0 <= i < |s.workers| ==> HasFinished(s.workers[i]))
  }

  predicate CountersOk(cfg: Config, s: State) {
    && s.permits + Sum(s.workers, Holds) == Limit(cfg)
    && s.done == Sum(s.workers, IsDone)
    && s.ok == Sum(s.workers, IsOk)
    && s.skipped == Sum(s.workers, IsSkipped)
    && s.failed == Sum(s.workers, IsFailed)
    && s.bytes == Sum(s.workers, BytesOf) % U64
  }

  predicate EndsWithFooter(cfg: Config, s: State) {
    s.index != [] && s.index[|s.index| - 1] == Footer(|cfg.files|, s.ok, s.skipped, s.failed, s.bytes, s.cancel)
  }

  predicate IndexOk(cfg: Config, s: State) {
    if !cfg.indexed then s.index == []
    else if s.main.Returned? then
      EndsWithFooter(cfg, s) && multiset(s.index[..|s.index| - 1]) == AllLines(s.workers)
    else multiset(s.index) == AllLines(s.workers)
  }

  predicate Inv(cfg: Config, s: State) {
    WorkersOk(cfg, s) && MainOk(cfg, s) && CountersOk(cfg, s) && IndexOk(cfg, s)
  }

  lemma ModAdd(a: nat, b: nat)
    ensures (a % U64 + b) % U64 == (a + b) % U64
  {
    var q := a / U64;
    assert a == q * U64 + a % U64;
    assert (a % U64 + b + q * U64) % U64 == (a % U64 + b) % U64 by {
      ModShift(a % U64 + b, q);
    }
  }

  lemma {:induction false} ModShift(x: nat, q: nat)
    ensures (x + q * U64) % U64 == x % U64
  {
    if q > 0 {
      ModShift(x, q - 1);
      assert x + q * U64 == (x + (q - 1) * U64) + U64;
    }
  }

  predicate IsWorkerStep(step: Step) {
    !step.LoopCheck? && !step.Spawn? && !step.Join? && !step.Close? && !step.CtrlC?
  }

  /** From `s` to `t` only worker `i` moved. */
  predicate Moved(s: State, t: State, i: nat) {
    && i < |s.workers| == |t.workers|
    && t.workers == s.workers[i := t.workers[i]]
    && t.main == s.main && t.cancel == s.cancel
  }

  /** Every shared counter changed by exactly the difference of the worker's weights. */
  predicate Balanced(s: State, t: State, v: Worker, w: Worker) {
    && t.permits + Holds(w) == s.permits + Holds(v)
    && t.done + IsDone(v) == s.done + IsDone(w)
    && t.ok + IsOk(v) == s.ok + IsOk(w)
    && t.skipped + IsSkipped(v) == s.skipped + IsSkipped(w)
    && t.failed + IsFailed(v) == s.failed + IsFailed(w)
    && BytesOf(v) <= BytesOf(w)
    && t.bytes == (s.bytes + (BytesOf(w) - BytesOf(v))) % U64
  }

  predicate IndexBalanced(cfg: Config, s: State, t: State, v: Worker, w: Worker) {
    if cfg.indexed && Lines(v) != Lines(w) then Lines(v) == multiset{} && multiset(t.index) == multiset(s.index) + Lines(w)
    else t.index == s.index
  }

  lemma StepMoves(cfg: Config, s: State, step: Step)
    requires Enabled(cfg, s, step) && IsWorkerStep(step)
    ensures Moved(s, Do(cfg, s, step), step.i)
  {
  }

  lemma StepKeepsWorkers(cfg: Config, s: State, step: Step)
    requires Enabled(cfg, s, step) && IsWorkerStep(step) && WorkersOk(cfg, s)
    ensures WorkerOk(cfg, s.cancel, step.i, Do(cfg, s, step).workers[step.i])
    ensures !HasFinished(s.workers[step.i])
  {
    assert WorkerOk(cfg, s.cancel, step.i, s.workers[step.i]);
    if step.Settle? {
      JudgeIsPlausible(cfg, s.workers[step.i].file, step.seen);
    }
  }

  lemma StepIsBalanced(cfg: Config, s: State, step: Step)
    requires Enabled(cfg, s, step) && IsWorkerStep(step) && WorkersOk(cfg, s) && s.bytes < U64
    ensures Balanced(s, Do(cfg, s, step), s.workers[step.i], Do(cfg, s, step).workers[step.i])
  {
    assert WorkerOk(cfg, s.cancel, step.i, s.workers[step.i]);
    if step.Tally? {
      TallyIsBalanced(cfg, s, step.i);
    } else if step.CountDone? || step.Bill? || step.Append? {
      CountingIsBalanced(cfg, s, step);
    }
  }

  lemma TallyIsBalanced(cfg: Config, s: State, i: nat)
    requires Enabled(cfg, s, Tally(i)) && s.bytes < U64
    ensures Balanced(s, Do(cfg, s, Tally(i)), s.workers[i], Do(cfg, s, Tally(i)).workers[i])
  {
  }

  lemma CountingIsBalanced(cfg: Config, s: State, step: Step)
    requires (step.CountDone? || step.Bill? || step.Append?) && Enabled(cfg, s, step) && s.bytes < U64
    ensures Balanced(s, Do(cfg, s, step), s.workers[step.i], Do(cfg, s, step).workers[step.i])
  {
  }

  lemma StepIndexBalanced(cfg: Config, s: State, step: Step)
    requires Enabled(cfg, s, step) && IsWorkerStep(step)
    ensures IndexBalanced(cfg, s, Do(cfg, s, step), s.workers[step.i], Do(cfg, s, step).workers[step.i])
  {
  }

  lemma BalancedKeeps(cfg: Config, s: State, t: State, i: nat)
    requires CountersOk(cfg, s) && Moved(s, t, i) && Balanced(s, t, s.workers[i], t.workers[i])
    ensures CountersOk(cfg, t)
  {
    UpdateAll(s.workers, i, t.workers[i]);
    ModAdd(Sum(s.workers, BytesOf), BytesOf(t.workers[i]) - BytesOf(s.workers[i]));
  }

  lemma IndexKeeps(cfg: Config, s: State, t: State, i: nat)
    requires IndexOk(cfg, s) && !s.main.Returned?
    requires Moved(s, t, i) && IndexBalanced(cfg, s, t, s.workers[i], t.workers[i])
    ensures IndexOk(cfg, t)
  {
    LinesUpdate(s.workers, i, t.workers[i]);
    if Lines(s.workers[i]) == Lines(t.workers[i]) {
      DropSame(AllLines(t.workers), AllLines(s.workers), Lines(t.workers[i]));
    }
  }

  /** A worker's step keeps the invariant. */
  lemma WorkerStepKeeps(cfg: Config, s: State, step: Step)
    requires Inv(cfg, s) && Enabled(cfg, s, step) && IsWorkerStep(step)
    ensures Inv(cfg, Do(cfg, s, step))
  {
    var t := Do(cfg, s, step);
    StepMoves(cfg, s, step);
    StepKeepsWorkers(cfg, s, step);
    StepIsBalanced(cfg, s, step);
    BalancedKeeps(cfg, s, t, step.i);
    StepIndexBalanced(cfg, s, step);
    IndexKeeps(cfg, s, t, step.i);
  }

  lemma SumAppend(ws: seq<Worker>, w: Worker, f: Worker -> nat)
    ensures Sum(ws + [w], f) == Sum(ws, f) + f(w)
  {
    assert (ws + [w])[..|ws|] == ws;
  }

  /** A new task in the queue changes no sum. */
  lemma SpawnCounts(ws: seq<Worker>, w: Worker)
    requires w.stage.Queued?
    ensures Sum(ws + [w], Holds) == Sum(ws, Holds)
    ensures Sum(ws + [w], IsDone) == Sum(ws, IsDone)
    ensures Sum(ws + [w], IsOk) == Sum(ws, IsOk)
    ensures Sum(ws + [w], IsSkipped) == Sum(ws, IsSkipped)
    ensures Sum(ws + [w], IsFailed) == Sum(ws, IsFailed)
    ensures Sum(ws + [w], BytesOf) == Sum(ws, BytesOf)
    ensures AllLines(ws + [w]) == AllLines(ws)
  {
    SumAppend(ws, w, Holds);
    SumAppend(ws, w, IsDone);
    SumAppend(ws, w, IsOk);
    SumAppend(ws, w, IsSkipped);
    SumAppend(ws, w, IsFailed);
    SumAppend(ws, w, BytesOf);
    assert (ws + [w])[..|ws|] == ws;
  }

  lemma SpawnKeepsCounters(cfg: Config, s: State, t: State, w: Worker)
    requires CountersOk(cfg, s) && IndexOk(cfg, s) && !s.main.Returned? && !t.main.Returned?
    requires w.stage.Queued? && t == s.(workers := s.workers + [w], main := t.main)
    ensures CountersOk(cfg, t) && IndexOk(cfg, t)
  {
    SpawnCounts(s.workers, w);
  }

  lemma SpawnKeeps(cfg: Config, s: State)
    requires Inv(cfg, s) && Enabled(cfg, s, Spawn)
    ensures Inv(cfg, Do(cfg, s, Spawn))
  {
    var t := Do(cfg, s, Spawn);
    SpawnKeepsCounters(cfg, s, t, Worker(cfg.files[|s.workers|], Queued));
    SpawnKeepsWorkers(cfg, s);
  }

  lemma SpawnKeepsWorkers(cfg: Config, s: State)
    requires WorkersOk(cfg, s) && MainOk(cfg, s) && Enabled(cfg, s, Spawn)
    ensures WorkersOk(cfg, Do(cfg, s, Spawn)) && MainOk(cfg, Do(cfg, s, Spawn))
  {
  }

  lemma CloseKeeps(cfg: Config, s: State)
    requires Inv(cfg, s) && Enabled(cfg, s, Close)
    ensures Inv(cfg, Do(cfg, s, Close))
  {
    var t := Do(cfg, s, Close);
    if cfg.indexed {
      assert t.index[..|t.index| - 1] == s.index;
    }
  }

  lemma JoinKeeps(cfg: Config, s: State, step: Step)
    requires Inv(cfg, s) && Enabled(cfg, s, step)
    requires step.LoopCheck? || step.Join? || step.CtrlC?
    ensures Inv(cfg, Do(cfg, s, step))
  {
    var t := Do(cfg, s, step);
    assert CountersOk(cfg, t) && IndexOk(cfg, t);
    forall i | 0 <= i < |t.workers| ensures WorkerOk(cfg, t.cancel, i, t.workers[i]) {
      assert WorkerOk(cfg, s.cancel, i, s.workers[i]);
    }
  }

  lemma StepKeeps(cfg: Config, s: State, step: Step)
    requires Inv(cfg, s) && Enabled(cfg, s, step)
    ensures Inv(cfg, Do(cfg, s, step))
  {
    if IsWorkerStep(step) {
      WorkerStepKeeps(cfg, s, step);
    } else if step.Spawn? {
      SpawnKeeps(cfg, s);
    } else if step.Close? {
      CloseKeeps(cfg, s);
    } else {
      JoinKeeps(cfg, s, step);
    }
  }

  lemma {:induction false} RunKeeps(cfg: Config, s: State, steps: seq<Step>)
    requires Inv(cfg, s) && IsRun(cfg, s, steps)
    ensures Inv(cfg, Final(cfg, s, steps))
    decreases |steps|
  {
    if steps != [] {
      StepKeeps(cfg, s, steps[0]);
      RunKeeps(cfg, Do(cfg, s, steps[0]), steps[1..]);
    }
  }

  // ---- Main results ---------------------------------------------------------------------

  function OutcomeSum(s: State): nat { s.ok + s.skipped + s.failed }

  /** In every interleaving the semaphore bounds the transfers in flight, and `done` runs
      ahead of the outcome counters by at most the permits held. */
  lemma {:induction false} Bounds(cfg: Config, steps: seq<Step>)
    requires IsRun(cfg, Init(cfg), steps)
    ensures var s := Final(cfg, Init(cfg), steps);
      && (Sum(s.workers, Holds) <= cfg.parallel || (cfg.parallel == 0 && Sum(s.workers, Holds) <= 1))
      && OutcomeSum(s) <= s.done <= OutcomeSum(s) + Sum(s.workers, Holds)
      && s.done <= |s.workers| <= |cfg.files|
  {
    RunKeeps(cfg, Init(cfg), steps);
    DoneGap(Final(cfg, Init(cfg), steps).workers);
  }

  lemma {:induction false} DoneGap(ws: seq<Worker>)
    ensures Sum(ws, IsOk) + Sum(ws, IsSkipped) + Sum(ws, IsFailed) <= Sum(ws, IsDone)
    ensures Sum(ws, IsDone) <= Sum(ws, IsOk) + Sum(ws, IsSkipped) + Sum(ws, IsFailed) + Sum(ws, Holds)
    ensures Sum(ws, IsDone) <= |ws|
    ensures (forall i :: 0 <= i < |ws| ==> HasFinished(ws[i])) ==>
      Sum(ws, IsOk) + Sum(ws, IsSkipped) + Sum(ws, IsFailed) == Sum(ws, IsDone) == |ws|
  {
    if ws != [] {
      DoneGap(ws[..|ws| - 1]);
    }
  }

  /** The records one file must have in the finished index. */
  function ExpectedLines(ws: seq<Worker>): multiset<Line>
    requires forall i :: 0 <= i < |ws| ==> HasOutcome(ws[i])
  {
    if ws == [] then multiset{}
    else assert HasOutcome(ws[|ws| - 1]); ExpectedLines(ws[..|ws| - 1]) + multiset{RecordOf(ws[|ws| - 1].file, ws[|ws| - 1].stage.o)}
  }

  /** Bytes of a worker whose transfer succeeded. */
  function BytesWon(w: Worker): nat { if HasOutcome(w) && w.stage.o.Transferred? then w.stage.o.written else 0 }

  function TransferredBytes(ws: seq<Worker>): nat { Sum(ws, BytesWon) }

  lemma {:induction false} FinishedTotals(ws: seq<Worker>)
    requires forall i :: 0 <= i < |ws| ==> HasOutcome(ws[i]) && HasFinished(ws[i])
    ensures AllLines(ws) == ExpectedLines(ws)
    ensures Sum(ws, BytesOf) == TransferredBytes(ws)
    ensures Sum(ws, Holds) == 0
  {
    if ws != [] {
      FinishedTotals(ws[..|ws| - 1]);
    }
  }

  /** When `run` returns: nothing is in flight, `done` equals the outcome sum and the number of
      spawned files, the files never reached are exactly those missing from the sum, the byte
      counter is the total of the successful transfers (as a 64-bit counter), and the index is
      one record per spawned file followed by one footer with the same tallies. */
  lemma {:induction false} AtReturn(cfg: Config, steps: seq<Step>)
    requires IsRun(cfg, Init(cfg), steps)
    requires Final(cfg, Init(cfg), steps).main.Returned?
    ensures var s := Final(cfg, Init(cfg), steps);
      && s.done == OutcomeSum(s) == |s.workers| <= |cfg.files|
      && (forall i :: 0 <= i < |s.workers| ==>
            HasOutcome(s.workers[i]) && HasFinished(s.workers[i]) && s.workers[i].file == cfg.files[i])
      && s.permits == Limit(cfg)
      && (|s.workers| < |cfg.files| ==> s.cancel)
      && s.bytes == TransferredBytes(s.workers) % U64
      && (cfg.indexed ==>
            && |s.index| == |s.workers| + 1
            && multiset(s.index[..|s.workers|]) == ExpectedLines(s.workers)
            && EndsWithFooter(cfg, s))
      && (!cfg.indexed ==> s.index == [])
  {
    RunKeeps(cfg, Init(cfg), steps);
    var s := Final(cfg, Init(cfg), steps);
    CountersAtReturn(cfg, s);
    IndexAtReturn(cfg, s);
  }

  lemma CountersAtReturn(cfg: Config, s: State)
    requires Inv(cfg, s) && s.main.Returned?
    ensures s.done == OutcomeSum(s) == |s.workers| <= |cfg.files| && s.permits == Limit(cfg)
    ensures forall i :: 0 <= i < |s.workers| ==>
      HasOutcome(s.workers[i]) && HasFinished(s.workers[i]) && s.workers[i].file == cfg.files[i]
    ensures s.bytes == TransferredBytes(s.workers) % U64 && (|s.workers| < |cfg.files| ==> s.cancel)
  {
    DoneGap(s.workers);
    FinishedTotals(s.workers);
    forall i | 0 <= i < |s.workers| ensures s.workers[i].file == cfg.files[i] {
      assert WorkerOk(cfg, s.cancel, i, s.workers[i]);
    }
  }

  lemma IndexAtReturn(cfg: Config, s: State)
    requires IndexOk(cfg, s) && s.main.Returned?
    requires forall i :: 0 <= i < |s.workers| ==> HasOutcome(s.workers[i]) && HasFinished(s.workers[i])
    ensures cfg.indexed ==>
      |s.index| == |s.workers| + 1 && multiset(s.index[..|s.workers|]) == ExpectedLines(s.workers) && EndsWithFooter(cfg, s)
    ensures !cfg.indexed ==> s.index == []
  {
    FinishedTotals(s.workers);
    if cfg.indexed {
      IndexIsFull(s.index, s.workers);
    }
  }


  lemma SameSize(lines: seq<Line>, m: multiset<Line>)
    requires multiset(lines) == m
    ensures |lines| == |m|
  {
    assert |multiset(lines)| == |lines|;
  }

  lemma IndexIsFull(index: seq<Line>, ws: seq<Worker>)
    requires index != [] && forall i :: 0 <= i < |ws| ==> HasOutcome(ws[i])
    requires multiset(index[..|index| - 1]) == ExpectedLines(ws)
    ensures |index| == |ws| + 1 && multiset(index[..|ws|]) == ExpectedLines(ws)
  {
    ExpectedSize(ws);
    SameSize(index[..|index| - 1], ExpectedLines(ws));
  }

  lemma {:induction false} ExpectedSize(ws: seq<Worker>)
    requires forall i :: 0 <= i < |ws| ==> HasOutcome(ws[i])
    ensures |ExpectedLines(ws)| == |ws|
  {
    if ws != [] {
      ExpectedSize(ws[..|ws| - 1]);
    }
  }

  /** The worker already went past its cancel check without seeing the flag. */
  predicate PassedCheck(s: State, i: nat) {
    i < |s.workers| && (s.workers[i].stage.Busy? || RanToEnd(s.workers[i]) == 1)
  }

  lemma PotentialWorker(cfg: Config, s: State, step: Step)
    requires s.cancel && Enabled(cfg, s, step) && IsWorkerStep(step)
    ensures var v, w := s.workers[step.i], Do(cfg, s, step).workers[step.i];
      RanToEnd(w) + IsBusy(w) == RanToEnd(v) + IsBusy(v)
  {
  }

  function Potential(s: State): nat { Sum(s.workers, RanToEnd) + Sum(s.workers, IsBusy) }

  /** Files spawned, counting one whose turn in the loop has begun. */
  function Spawned(s: State): nat { |s.workers| + if s.main.Spawning? then 1 else 0 }

  lemma PotentialStep(cfg: Config, s: State, step: Step)
    requires s.cancel && Enabled(cfg, s, step)
    ensures Do(cfg, s, step).cancel
    ensures Potential(Do(cfg, s, step)) == Potential(s)
    ensures Spawned(Do(cfg, s, step)) <= Spawned(s)
  {
    var t := Do(cfg, s, step);
    if IsWorkerStep(step) {
      StepMoves(cfg, s, step);
      PotentialWorker(cfg, s, step);
      SumUpdate(s.workers, step.i, t.workers[step.i], RanToEnd);
      SumUpdate(s.workers, step.i, t.workers[step.i], IsBusy);
    } else if step.Spawn? {
      SumAppend(s.workers, Worker(cfg.files[|s.workers|], Queued), RanToEnd);
      SumAppend(s.workers, Worker(cfg.files[|s.workers|], Queued), IsBusy);
    }
  }

  lemma LatecomersStay(cfg: Config, s: State, step: Step, i: nat)
    requires s.cancel && Enabled(cfg, s, step) && PassedCheck(Do(cfg, s, step), i)
    ensures PassedCheck(s, i)
  {
    if IsWorkerStep(step) {
      StepMoves(cfg, s, step);
      PotentialWorker(cfg, s, step);
    }
  }

  lemma {:induction false} PotentialRun(cfg: Config, s: State, steps: seq<Step>)
    requires s.cancel && IsRun(cfg, s, steps)
    ensures var t := Final(cfg, s, steps);
      t.cancel && Potential(t) == Potential(s) && Spawned(t) <= Spawned(s) && (forall i: nat :: PassedCheck(t, i) ==> PassedCheck(s, i))
    decreases |steps|
  {
    if steps != [] {
      var u := Do(cfg, s, steps[0]);
      PotentialStep(cfg, s, steps[0]);
      PotentialRun(cfg, u, steps[1..]);
      forall i: nat | PassedCheck(u, i) ensures PassedCheck(s, i) {
        LatecomersStay(cfg, s, steps[0], i);
      }
    }
  }

  /** After Ctrl+C at most one more file is spawned, at most `Limit` transfers still run to an end
      of their own, and every worker that had not passed its check when the flag was set can only be skipped as cancelled. */
  lemma {:induction false} CancelDrains(cfg: Config, before: seq<Step>, after: seq<Step>)
    requires IsRun(cfg, Init(cfg), before)
    requires Final(cfg, Init(cfg), before).cancel
    requires IsRun(cfg, Final(cfg, Init(cfg), before), after)
    ensures var s := Final(cfg, Init(cfg), before);
      var t := Final(cfg, s, after);
      && Sum(t.workers, RanToEnd) <= Sum(s.workers, RanToEnd) + Limit(cfg)
      && |t.workers| <= |s.workers| + 1
      && (forall i :: 0 <= i < |t.workers| && !PassedCheck(s, i) && HasOutcome(t.workers[i]) ==>
            t.workers[i].stage.o == Skipped(Cancelled))
  {
    var s := Final(cfg, Init(cfg), before);
    RunKeeps(cfg, Init(cfg), before);
    PotentialRun(cfg, s, after);
    SumMonotone(s.workers, IsBusy, Holds);
    var t := Final(cfg, s, after);
    forall i | 0 <= i < |t.workers| && !PassedCheck(s, i) && HasOutcome(t.workers[i])
      ensures t.workers[i].stage.o == Skipped(Cancelled)
    {
      assert !PassedCheck(t, i);
    }
  }

  // ---- The outcomes are what the workers found ---------------------------------------------

  function Ends(e: Ending): Worker -> nat {
    (w: Worker) => if HasOutcome(w) && EndingOf(w.stage.o) == e then 1 else 0
  }

  predicate SettlesAs(cfg: Config, step: Step, e: Ending) {
    step.Settle? && step.i < |cfg.files| && Finds(cfg, cfg.files[step.i], step.seen, e)
  }

  /** What a step decides: a worker that settles ends as it finds, and one that checks a set flag
      is stopped. */
  function Decides(cfg: Config, cancel: bool, step: Step, e: Ending): nat {
    if SettlesAs(cfg, step, e) || (e.Stopped? && step.CheckCancel? && cancel) then 1 else 0
  }

  function Decided(cfg: Config, cancel: bool, steps: seq<Step>, e: Ending): nat
    decreases |steps|
  {
    if steps == [] then 0
    else Decides(cfg, cancel, steps[0], e) + Decided(cfg, cancel || steps[0].CtrlC?, steps[1..], e)
  }

  function BytesDecided(cfg: Config, steps: seq<Step>): nat
    decreases |steps|
  {
    if steps == [] then 0
    else (if SettlesAs(cfg, steps[0], Won) then BytesMoved(cfg, cfg.files[steps[0].i], steps[0].seen) else 0)
         + BytesDecided(cfg, steps[1..])
  }

  lemma WorkerDecides(cfg: Config, s: State, step: Step, e: Ending)
    requires WorkersOk(cfg, s) && Enabled(cfg, s, step) && IsWorkerStep(step)
    ensures var v, w := s.workers[step.i], Do(cfg, s, step).workers[step.i];
      && Ends(e)(w) == Ends(e)(v) + Decides(cfg, s.cancel, step, e)
      && BytesWon(w) == BytesWon(v) + BytesDecided(cfg, [step])
  {
    assert WorkerOk(cfg, s.cancel, step.i, s.workers[step.i]);
    if step.Settle? {
      JudgeIsRight(cfg, s.workers[step.i].file, step.seen);
    }
  }

  lemma MoveCounts(ws: seq<Worker>, i: nat, w: Worker, e: Ending)
    requires i < |ws|
    ensures Sum(ws[i := w], Ends(e)) + Ends(e)(ws[i]) == Sum(ws, Ends(e)) + Ends(e)(w)
    ensures Sum(ws[i := w], BytesWon) + BytesWon(ws[i]) == Sum(ws, BytesWon) + BytesWon(w)
  {
    SumUpdate(ws, i, w, Ends(e));
    SumUpdate(ws, i, w, BytesWon);
  }

  lemma SpawnDecides(ws: seq<Worker>, f: File, e: Ending)
    ensures Sum(ws + [Worker(f, Queued)], Ends(e)) == Sum(ws, Ends(e))
    ensures Sum(ws + [Worker(f, Queued)], BytesWon) == Sum(ws, BytesWon)
  {
    SumAppend(ws, Worker(f, Queued), Ends(e));
    SumAppend(ws, Worker(f, Queued), BytesWon);
  }

  lemma StepDecides(cfg: Config, s: State, step: Step, e: Ending)
    requires WorkersOk(cfg, s) && Enabled(cfg, s, step)
    ensures var t := Do(cfg, s, step);
      && Sum(t.workers, Ends(e)) == Sum(s.workers, Ends(e)) + Decides(cfg, s.cancel, step, e)
      && Sum(t.workers, BytesWon) == Sum(s.workers, BytesWon) + BytesDecided(cfg, [step])
  {
    if IsWorkerStep(step) {
      StepMoves(cfg, s, step);
      WorkerDecides(cfg, s, step, e);
      MoveCounts(s.workers, step.i, Do(cfg, s, step).workers[step.i], e);
    } else if step.Spawn? {
      SpawnDecides(s.workers, cfg.files[|s.workers|], e);
    }
  }

  lemma StepCancels(cfg: Config, s: State, step: Step)
    requires Enabled(cfg, s, step)
    ensures Do(cfg, s, step).cancel == (s.cancel || step.CtrlC?)
  {
  }

  lemma {:induction false} RunDecides(cfg: Config, s: State, steps: seq<Step>, e: Ending)
    requires Inv(cfg, s) && IsRun(cfg, s, steps)
    ensures var t := Final(cfg, s, steps);
      && Sum(t.workers, Ends(e)) == Sum(s.workers, Ends(e)) + Decided(cfg, s.cancel, steps, e)
      && Sum(t.workers, BytesWon) == Sum(s.workers, BytesWon) + BytesDecided(cfg, steps)
    decreases |steps|
  {
    if steps != [] {
      StepKeeps(cfg, s, steps[0]);
      StepDecides(cfg, s, steps[0], e);
      StepCancels(cfg, s, steps[0]);
      RunDecides(cfg, Do(cfg, s, steps[0]), steps[1..], e);
    }
  }

  lemma {:induction false} FinishedEndings(ws: seq<Worker>)
    requires forall i :: 0 <= i < |ws| ==> HasFinished(ws[i])
    ensures Sum(ws, IsOk) == Sum(ws, Ends(Won)) && Sum(ws, IsFailed) == Sum(ws, Ends(Lost))
    ensures Sum(ws, IsSkipped) == Sum(ws, Ends(AlreadyThere)) + Sum(ws, Ends(Stopped))
  {
    if ws != [] {
      FinishedEndings(ws[..|ws| - 1]);
    }
  }

  /** The totals at return are told by the findings of the run alone: `ok` counts the workers that
      found a delivered file, `failed` those that found neither that nor the file already there,
      `skipped` the latter and the workers that checked the flag once it was set; and the bytes are
      those of the delivered files. For uploads and downloads, in every interleaving. */
  lemma {:induction false} TalliesAreFindings(cfg: Config, steps: seq<Step>)
    requires IsRun(cfg, Init(cfg), steps)
    requires Final(cfg, Init(cfg), steps).main.Returned?
    ensures var s := Final(cfg, Init(cfg), steps);
      && s.ok == Decided(cfg, false, steps, Won)
      && s.failed == Decided(cfg, false, steps, Lost)
      && s.skipped == Decided(cfg, false, steps, AlreadyThere) + Decided(cfg, false, steps, Stopped)
      && s.bytes == BytesDecided(cfg, steps) % U64
  {
    RunKeeps(cfg, Init(cfg), steps);
    EndingsDecided(cfg, steps);
    EndingsTallied(cfg, Final(cfg, Init(cfg), steps));
  }

  lemma EndingsDecided(cfg: Config, steps: seq<Step>)
    requires IsRun(cfg, Init(cfg), steps)
    ensures var ws := Final(cfg, Init(cfg), steps).workers;
      && (forall e :: Sum(ws, Ends(e)) == Decided(cfg, false, steps, e))
      && TransferredBytes(ws) == BytesDecided(cfg, steps)
  {
    RunDecides(cfg, Init(cfg), steps, Won);
    forall e ensures Sum(Final(cfg, Init(cfg), steps).workers, Ends(e)) == Decided(cfg, false, steps, e) {
      RunDecides(cfg, Init(cfg), steps, e);
    }
  }

  lemma EndingsTallied(cfg: Config, s: State)
    requires Inv(cfg, s) && s.main.Returned?
    ensures s.ok == Sum(s.workers, Ends(Won)) && s.failed == Sum(s.workers, Ends(Lost))
    ensures s.skipped == Sum(s.workers, Ends(AlreadyThere)) + Sum(s.workers, Ends(Stopped))
    ensures s.bytes == TransferredBytes(s.workers) % U64
  {
    FinishedEndings(s.workers);
    CountersAtReturn(cfg, s);
  }

  /** Worker `i` has ended, rightly for what it found. */
  predicate EndedRight(cfg: Config, s: State, i: nat, seen: Seen) {
    AtWorker(s, i) && i < |cfg.files| && HasOutcome(s.workers[i]) && Right(cfg, cfg.files[i], seen, s.workers[i].stage.o)
  }

  lemma SettleEndsRight(cfg: Config, s: State, i: nat, seen: Seen)
    requires WorkersOk(cfg, s) && Enabled(cfg, s, Settle(i, seen))
    ensures EndedRight(cfg, Do(cfg, s, Settle(i, seen)), i, seen)
  {
    assert WorkerOk(cfg, s.cancel, i, s.workers[i]);
    JudgeIsRight(cfg, cfg.files[i], seen);
  }

  lemma OutcomeStays(cfg: Config, s: State, step: Step, i: nat)
    requires Enabled(cfg, s, step) && AtWorker(s, i) && HasOutcome(s.workers[i])
    ensures var t := Do(cfg, s, step);
      AtWorker(t, i) && HasOutcome(t.workers[i]) && t.workers[i].stage.o == s.workers[i].stage.o
  {
  }

  lemma {:induction false} EndedRightStays(cfg: Config, s: State, steps: seq<Step>, i: nat, seen: Seen)
    requires IsRun(cfg, s, steps) && EndedRight(cfg, s, i, seen)
    ensures EndedRight(cfg, Final(cfg, s, steps), i, seen)
    decreases |steps|
  {
    if steps != [] {
      OutcomeStays(cfg, s, steps[0], i);
      EndedRightStays(cfg, Do(cfg, s, steps[0]), steps[1..], i, seen);
    }
  }

  /** Whatever a worker finds during a run is how its file stands at the end of it. */
  lemma {:induction false} FindingsStand(cfg: Config, s: State, steps: seq<Step>, k: nat)
    requires Inv(cfg, s) && IsRun(cfg, s, steps) && k < |steps| && steps[k].Settle?
    ensures EndedRight(cfg, Final(cfg, s, steps), steps[k].i, steps[k].seen)
    decreases |steps|
  {
    var t := Do(cfg, s, steps[0]);
    if k == 0 {
      SettleEndsRight(cfg, s, steps[0].i, steps[0].seen);
      EndedRightStays(cfg, t, steps[1..], steps[0].i, steps[0].seen);
    } else {
      StepKeeps(cfg, s, steps[0]);
      assert steps[k] == steps[1..][k - 1];
      FindingsStand(cfg, t, steps[1..], k - 1);
    }
  }

  lemma {:induction false} EndedStays(cfg: Config, s: State, steps: seq<Step>, i: nat)
    requires IsRun(cfg, s, steps) && AtWorker(s, i) && HasOutcome(s.workers[i])
    ensures !WasSettled(steps, i)
    decreases |steps|
  {
    if steps != [] {
      OutcomeStays(cfg, s, steps[0], i);
      EndedStays(cfg, Do(cfg, s, steps[0]), steps[1..], i);
      assert forall k :: 0 < k < |steps| ==> steps[k] == steps[1..][k - 1];
    }
  }

  /** No file is settled twice. */
  lemma {:induction false} SettledOnce(cfg: Config, s: State, steps: seq<Step>, k: nat, l: nat)
    requires IsRun(cfg, s, steps) && k < l < |steps| && steps[k].Settle? && steps[l].Settle?
    ensures steps[k].i != steps[l].i
    decreases |steps|
  {
    var t := Do(cfg, s, steps[0]);
    assert steps[l] == steps[1..][l - 1];
    if k == 0 {
      assert AtWorker(t, steps[0].i) && HasOutcome(t.workers[steps[0].i]);
      EndedStays(cfg, t, steps[1..], steps[0].i);
    } else {
      assert steps[k] == steps[1..][k - 1];
      SettledOnce(cfg, t, steps[1..], k - 1, l - 1);
    }
  }

  predicate WasSettled(steps: seq<Step>, i: nat) { exists k :: 0 <= k < |steps| && steps[k].Settle? && steps[k].i == i }

  lemma {:induction false} EndedBySettling(cfg: Config, s: State, steps: seq<Step>, i: nat)
    requires IsRun(cfg, s, steps) && AtWorker(Final(cfg, s, steps), i) && RanToEnd(Final(cfg, s, steps).workers[i]) == 1
    requires AtWorker(s, i) ==> RanToEnd(s.workers[i]) == 0
    ensures WasSettled(steps, i)
    decreases |steps|
  {
    if steps != [] {
      var t := Do(cfg, s, steps[0]);
      if AtWorker(t, i) && RanToEnd(t.workers[i]) == 1 {
        assert steps[0].Settle? && steps[0].i == i;
      } else {
        EndedBySettling(cfg, t, steps[1..], i);
        var k :| 0 <= k < |steps[1..]| && steps[1..][k].Settle? && steps[1..][k].i == i;
        assert steps[k + 1] == steps[1..][k];
      }
    }
  }

  /** A skip for cancellation happens only after Ctrl+C; without it every file is spawned, settles
      once and ends as it finds. */
  lemma {:induction false} NoCancelNoLoss(cfg: Config, steps: seq<Step>)
    requires IsRun(cfg, Init(cfg), steps)
    requires Final(cfg, Init(cfg), steps).main.Returned? && !Final(cfg, Init(cfg), steps).cancel
    ensures var s := Final(cfg, Init(cfg), steps);
      && |s.workers| == |cfg.files| == OutcomeSum(s)
      && forall i :: 0 <= i < |cfg.files| ==> SettledRight(cfg, s, steps, i)
  {
    AtReturn(cfg, steps);
    RunKeeps(cfg, Init(cfg), steps);
    var s := Final(cfg, Init(cfg), steps);
    forall i | 0 <= i < |cfg.files| ensures SettledRight(cfg, s, steps, i) {
      assert WorkerOk(cfg, s.cancel, i, s.workers[i]);
      EndedBySettling(cfg, Init(cfg), steps, i);
      var k :| 0 <= k < |steps| && steps[k].Settle? && steps[k].i == i;
      FindingsStand(cfg, Init(cfg), steps, k);
    }
  }

  /** Some settling of file `i` says how it ended. */
  predicate SettledRight(cfg: Config, s: State, steps: seq<Step>, i: nat) {
    exists k :: 0 <= k < |steps| && steps[k].Settle? && steps[k].i == i && EndedRight(cfg, s, i, steps[k].seen)
  }

  predicate SaysOutcome(cfg: Config, steps: seq<Step>, i: nat, o: Outcome)
    requires i < |cfg.files|
  {
    if WasSettled(steps, i) then
      exists k :: 0 <= k < |steps| && steps[k].Settle? && steps[k].i == i && Right(cfg, cfg.files[i], steps[k].seen, o)
    else o == Skipped(Cancelled)
  }

  /** A line of the index names the file and says how it ended; a size that no manifest gave is the
      one the download wrote. */
  predicate Tells(cfg: Config, steps: seq<Step>, i: nat, line: Line)
    requires i < |cfg.files|
  {
    && line.Record? && line.path == cfg.files[i].path && SaysOutcome(cfg, steps, i, line.outcome)
    && (cfg.files[i].size.Some? ==> line.size == cfg.files[i].size)
    && (cfg.files[i].size.None? ==> line.size == if line.outcome.Transferred? then Some(line.outcome.written) else None)
  }

  predicate IndexHas(cfg: Config, s: State, steps: seq<Step>, i: nat)
    requires i < |cfg.files|
  {
    exists p :: 0 <= p < |s.index| && Tells(cfg, steps, i, s.index[p])
  }

  lemma {:induction false} ExpectedHas(ws: seq<Worker>, i: nat)
    requires i < |ws| && HasOutcome(ws[i]) && forall j :: 0 <= j < |ws| ==> HasOutcome(ws[j])
    ensures RecordOf(ws[i].file, ws[i].stage.o) in ExpectedLines(ws)
  {
    if i < |ws| - 1 {
      ExpectedHas(ws[..|ws| - 1], i);
    }
  }

  /** The finished index has a true line for every file that was reached. */
  lemma {:induction false} IndexTells(cfg: Config, steps: seq<Step>, i: nat)
    requires IsRun(cfg, Init(cfg), steps) && cfg.indexed
    requires Final(cfg, Init(cfg), steps).main.Returned? && i < |Final(cfg, Init(cfg), steps).workers|
    ensures i < |cfg.files| && IndexHas(cfg, Final(cfg, Init(cfg), steps), steps, i)
  {
    AtReturn(cfg, steps);
    var s := Final(cfg, Init(cfg), steps);
    var w := s.workers[i];
    assert HasOutcome(w);
    ExpectedHas(s.workers, i);
    assert RecordOf(w.file, w.stage.o) in multiset(s.index[..|s.workers|]);
    var p :| 0 <= p < |s.workers| && s.index[p] == RecordOf(w.file, w.stage.o);
    OutcomeSaid(cfg, steps, i);
    assert Tells(cfg, steps, i, s.index[p]);
  }

  lemma {:induction false} OutcomeSaid(cfg: Config, steps: seq<Step>, i: nat)
    requires IsRun(cfg, Init(cfg), steps) && i < |cfg.files|
    requires AtWorker(Final(cfg, Init(cfg), steps), i) && HasOutcome(Final(cfg, Init(cfg), steps).workers[i])
    ensures SaysOutcome(cfg, steps, i, Final(cfg, Init(cfg), steps).workers[i].stage.o)
  {
    RunKeeps(cfg, Init(cfg), steps);
    if WasSettled(steps, i) {
      var k :| 0 <= k < |steps| && steps[k].Settle? && steps[k].i == i;
      FindingsStand(cfg, Init(cfg), steps, k);
    } else if RanToEnd(Final(cfg, Init(cfg), steps).workers[i]) == 1 {
      EndedBySettling(cfg, Init(cfg), steps, i);
    }
  }

  // ---- The bound on the transfers in flight is reached -------------------------------------

  /** Extends a run by one step. */
  lemma Go(cfg: Config, steps: seq<Step>, s: State, step: Step) returns (steps': seq<Step>, t: State)
    requires IsRun(cfg, Init(cfg), steps) && s == Final(cfg, Init(cfg), steps) && Enabled(cfg, s, step)
    ensures t == Do(cfg, s, step) && IsRun(cfg, Init(cfg), steps') && t == Final(cfg, Init(cfg), steps')
  {
    steps', t := steps + [step], Do(cfg, s, step);
    RunSnoc(cfg, Init(cfg), steps, step);
  }

  lemma {:induction false} RunSnoc(cfg: Config, s: State, steps: seq<Step>, step: Step)
    requires IsRun(cfg, s, steps) && Enabled(cfg, Final(cfg, s, steps), step)
    ensures IsRun(cfg, s, steps + [step]) && Final(cfg, s, steps + [step]) == Do(cfg, Final(cfg, s, steps), step)
    decreases |steps|
  {
    if steps == [] {
      assert [step][1..] == [];
    } else {
      assert (steps + [step])[1..] == steps[1..] + [step];
      RunSnoc(cfg, Do(cfg, s, steps[0]), steps[1..], step);
    }
  }

  /** `n` files in transfer. */
  function InTransfer(cfg: Config, n: nat): State
    requires n <= |cfg.files| && n <= Limit(cfg)
  {
    Init(cfg).(workers := seq(n, i requires 0 <= i < n => Worker(cfg.files[i], Busy)), permits := Limit(cfg) - n)
  }

  lemma {:induction false} TransferRun(cfg: Config, n: nat) returns (steps: seq<Step>, s: State)
    requires n <= |cfg.files| && n <= Limit(cfg)
    ensures IsRun(cfg, Init(cfg), steps) && s == Final(cfg, Init(cfg), steps) && s == InTransfer(cfg, n)
  {
    if n == 0 {
      steps, s := [], Init(cfg);
      assert s.workers == InTransfer(cfg, 0).workers;
    } else {
      steps, s := TransferRun(cfg, n - 1);
      steps, s := Go(cfg, steps, s, LoopCheck);
      steps, s := Go(cfg, steps, s, Spawn);
      steps, s := Go(cfg, steps, s, Acquire(n - 1));
      steps, s := Go(cfg, steps, s, CheckCancel(n - 1));
      assert s.workers == InTransfer(cfg, n).workers;
    }
  }

  lemma {:induction false} AllBusy(ws: seq<Worker>)
    requires forall i :: 0 <= i < |ws| ==> ws[i].stage.Busy?
    ensures Sum(ws, IsBusy) == |ws|
  {
    if ws != [] {
      AllBusy(ws[..|ws| - 1]);
    }
  }

  /** As many transfers as asked for, and no fewer if there are the files, can be in flight at once;
      a parallelism of 0 still gives one. */
  lemma FullyParallel(cfg: Config) returns (steps: seq<Step>, s: State)
    requires cfg.files != []
    ensures IsRun(cfg, Init(cfg), steps) && s == Final(cfg, Init(cfg), steps)
    ensures var n := Sum(s.workers, IsBusy);
      n == |cfg.files| <= cfg.parallel || n == cfg.parallel || (cfg.parallel == 0 && n == 1)
    ensures Sum(s.workers, IsBusy) >= 1
  {
    var n := if Limit(cfg) <= |cfg.files| then Limit(cfg) else |cfg.files|;
    steps, s := TransferRun(cfg, n);
    AllBusy(s.workers);
  }

  // ---- Every run ends, and only by returning --------------------------------------------

  function StageRank(w: Worker): nat {
    match w.stage
    case Queued => 8
    case Holding => 7
    case Busy => 6
    case Past(_, phase) => if phase <= FINISHED then FINISHED - phase else 0
  }

  function MainRank(cfg: Config, s: State): int {
    var n := |cfg.files| - |s.workers|;
    match s.main
    case LoopHead => 11 * n + |cfg.files| + 3
    case Spawning => 11 * n + |cfg.files| + 2
    case Joining(j) => |s.workers| - j + 2
    case Closing => 1
    case Returned => 0
  }

  function Rank(cfg: Config, s: State): int {
    Sum(s.workers, StageRank) + (if s.cancel then 0 else 1) + MainRank(cfg, s)
  }

  lemma StageDrops(cfg: Config, s: State, step: Step)
    requires Enabled(cfg, s, step) && IsWorkerStep(step) && WorkersOk(cfg, s)
    ensures StageRank(Do(cfg, s, step).workers[step.i]) < StageRank(s.workers[step.i])
  {
    assert WorkerOk(cfg, s.cancel, step.i, s.workers[step.i]);
  }

  lemma MainRankDrops(cfg: Config, s: State, step: Step)
    requires MainOk(cfg, s) && Enabled(cfg, s, step) && MainOk(cfg, Do(cfg, s, step))
    ensures 0 <= MainRank(cfg, Do(cfg, s, step))
    ensures IsWorkerStep(step) || step.CtrlC? ==> MainRank(cfg, Do(cfg, s, step)) == MainRank(cfg, s)
    ensures step.LoopCheck? || step.Join? || step.Close? ==> MainRank(cfg, Do(cfg, s, step)) < MainRank(cfg, s)
    ensures step.Spawn? ==> MainRank(cfg, Do(cfg, s, step)) + 8 < MainRank(cfg, s)
  {
  }

  lemma RankDrops(cfg: Config, s: State, step: Step)
    requires Inv(cfg, s) && Enabled(cfg, s, step) && MainOk(cfg, Do(cfg, s, step))
    ensures 0 <= Rank(cfg, Do(cfg, s, step)) < Rank(cfg, s)
  {
    MainRankDrops(cfg, s, step);
    var t := Do(cfg, s, step);
    if IsWorkerStep(step) {
      StepMoves(cfg, s, step);
      SumUpdate(s.workers, step.i, t.workers[step.i], StageRank);
      StageDrops(cfg, s, step);
    } else if step.Spawn? {
      SumAppend(s.workers, Worker(cfg.files[|s.workers|], Queued), StageRank);
    }
  }

  lemma {:induction false} RunIsShort(cfg: Config, s: State, steps: seq<Step>)
    requires Inv(cfg, s) && IsRun(cfg, s, steps)
    ensures |steps| <= Rank(cfg, s)
    decreases |steps|
  {
    if steps != [] {
      StepKeeps(cfg, s, steps[0]);
      RankDrops(cfg, s, steps[0]);
      RunIsShort(cfg, Do(cfg, s, steps[0]), steps[1..]);
    }
  }

  /** The step of a worker that already holds a permit. */
  function NextOf(s: State, i: nat): Step
    requires i < |s.workers|
  {
    match s.workers[i].stage
    case Queued => Acquire(i)
    case Holding => CheckCancel(i)
    case Busy => Settle(i, Seen(None, Exited("")))
    case Past(o, phase) =>
      if phase == SETTLED then CountDone(i)
      else if phase == COUNTED then Tally(i)
      else if phase == TALLIED && o.Transferred? then Bill(i)
      else if phase <= BILLED then Append(i)
      else Release(i)
  }

  /** No deadlock: until `run` returns, some task can always move without another Ctrl+C. */
  lemma Progress(cfg: Config, s: State) returns (step: Step)
    requires Inv(cfg, s) && !s.main.Returned?
    ensures Enabled(cfg, s, step) && !step.CtrlC?
  {
    match s.main
    case LoopHead => step := LoopCheck;
    case Spawning => step := Spawn;
    case Closing => step := Close;
    case Joining(j) =>
      if j == |s.workers| || HasFinished(s.workers[j]) {
        step := Join;
      } else if !s.workers[j].stage.Queued? || s.permits > 0 {
        step := NextOf(s, j);
      } else {
        var i := SumWitness(s.workers, Holds);
        step := NextOf(s, i);
      }
  }

  /** Every run from the start has at most 12 steps per file plus 4, and a run that cannot be
      extended has returned: the batch always drains, whatever the schedule. */
  lemma {:induction false} AlwaysDrains(cfg: Config, steps: seq<Step>)
    requires IsRun(cfg, Init(cfg), steps)
    ensures |steps| <= 12 * |cfg.files| + 4
    ensures (forall step :: !Enabled(cfg, Final(cfg, Init(cfg), steps), step)) ==>
      Final(cfg, Init(cfg), steps).main.Returned?
  {
    RunIsShort(cfg, Init(cfg), steps);
    RunKeeps(cfg, Init(cfg), steps);
    var s := Final(cfg, Init(cfg), steps);
    if !s.main.Returned? {
      var step := Progress(cfg, s);
    }
  }
}
