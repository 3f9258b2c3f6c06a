/** Updates. */
module Watchdog {
  // The post-update watchdog probe and the auto-upgrade loop of one server process.
  // Both and the operator read and write the same persisted status; a read and the write that follows
  // it are separate steps, and either may fail silently. A run is any interleaving.

  import opened Common

  const ROLLBACK_FAILURE_THRESHOLD := 3

  datatype Status = Status(active: bool, failures: nat)

  datatype Action = Continue | ClearWatchdog | RollbackTriggered

  /** What `record_heartbeat_outcome` does with an armed status. */
  function Record(s: Status, ok: bool): (Status, Action)
    requires s.active
  {
    if ok then (Status(false, 0), ClearWatchdog)
    else if s.failures + 1 >= ROLLBACK_FAILURE_THRESHOLD then (Status(false, 0), RollbackTriggered)
    else (s.(failures := s.failures + 1), Continue)
  }

  datatype Probe = PIdle | PCheck | PRegister | PRecord(ok: bool) | PWrite(s: Status, action: Action) | PDone

  datatype Loop = LIdle | LQuery | LGate | LJitter | LRecheck | LSwap | LSwapping | LDone

  /** The probe's history: outcomes with the flag they were recorded against, and rollbacks. */
  datatype PEvent = Heartbeat(ok: bool, armed: bool) | Rollback

  datatype LEvent = Advert | SawClear | SawArmed | SwapCalled(insecureNoVerify: bool, armed: bool) | SwapOk | SwapFailed

  datatype State = State(status: Status, probe: Probe, loop: Loop, plog: seq<PEvent>, llog: seq<LEvent>)

  datatype Step =
    | Tick
    | ProbeStops
    | CheckFlag(readable: bool)
    | Register(ok: bool)
    | RecordRead(readable: bool)
    | RecordWrite(saved: bool)
    | LoopTick
    | LoopStops
    | Query(found: bool)
    | GateRead(readable: bool)
    | JitterEnds
    | Recheck(readable: bool)
    | CallSwap
    | SwapReturns(ok: bool, touched: bool)
    | Arm
    | Disarm

  /** The probe task is spawned only when the status is armed at startup. */
  function Init(status: Status): State {
    State(status, if status.active then PIdle else PDone, LIdle, [], [])
  }

  predicate Enabled(s: State, step: Step) {
    match step
    case Tick => s.probe.PIdle?
    case ProbeStops => s.probe.PIdle? || s.probe.PCheck?
    case CheckFlag(_) => s.probe.PCheck?
    case Register(_) => s.probe.PRegister?
    case RecordRead(_) => s.probe.PRecord?
    case RecordWrite(_) => s.probe.PWrite?
    case LoopTick => s.loop.LIdle?
    case LoopStops => s.loop.LIdle? || s.loop.LJitter?
    case Query(_) => s.loop.LQuery?
    case GateRead(_) => s.loop.LGate?
    case JitterEnds => s.loop.LJitter?
    case Recheck(_) => s.loop.LRecheck?
    case CallSwap => s.loop.LSwap?
    case SwapReturns(_, _) => s.loop.LSwapping?
    case Arm => true
    case Disarm => true
  }

  /** A status file that cannot be read or parsed reads as the default: not armed. */
  function Seen(s: State, readable: bool): Status { if readable then s.status else Status(false, 0) }

  /** An outcome that finds the watchdog unarmed is not recorded. */
  function AfterRead(seen: Status, ok: bool): Probe {
    if seen.active then var (t, action) := Record(seen, ok); PWrite(t, action) else PIdle
  }

  function Do(autoUpgrade: bool, s: State, step: Step): State
    requires Enabled(s, step)
  {
    match step
    case Tick => s.(probe := PCheck)
    case ProbeStops => s.(probe := PDone)
    case CheckFlag(readable) => s.(probe := if Seen(s, readable).active then PRegister else PDone)
    case Register(ok) => s.(probe := PRecord(ok))
    case RecordRead(readable) =>
      var seen := Seen(s, readable);
      s.(probe := AfterRead(seen, s.probe.ok), plog := s.plog + [Heartbeat(s.probe.ok, seen.active)])
    case RecordWrite(saved) =>
      var t := if saved then s.(status := s.probe.s) else s;
      (match s.probe.action
       case Continue => t.(probe := PIdle)
       case ClearWatchdog => t.(probe := PDone)
       case RollbackTriggered => t.(probe := PDone, plog := s.plog + [Rollback]))
    case LoopTick => s.(loop := LQuery)
    case LoopStops => s.(loop := LDone)
    case Query(found) => if found then s.(loop := LGate, llog := s.llog + [Advert]) else s.(loop := LIdle)
    case GateRead(readable) =>
      if !autoUpgrade then s.(loop := LIdle)
      else if Seen(s, readable).active then s.(loop := LIdle, llog := s.llog + [SawArmed])
      else s.(loop := LJitter, llog := s.llog + [SawClear])
    case JitterEnds => s.(loop := LRecheck)
    case Recheck(readable) =>
      if Seen(s, readable).active then s.(loop := LIdle, llog := s.llog + [SawArmed])
      else s.(loop := LSwap, llog := s.llog + [SawClear])
    case CallSwap => s.(loop := LSwapping, llog := s.llog + [SwapCalled(false, s.status.active)])
    case SwapReturns(ok, touched) =>
      var t := if touched then s.(status := Status(ok, 0)) else s;
      if ok then t.(loop := LDone, llog := s.llog + [SwapOk]) else t.(loop := LIdle, llog := s.llog + [SwapFailed])
    case Arm => s.(status := Status(true, 0))
    case Disarm => s.(status := Status(false, 0))
  }

  predicate IsRun(autoUpgrade: bool, s: State, steps: seq<Step>)
    decreases |steps|
  {
    steps == [] || (Enabled(s, steps[0]) && IsRun(autoUpgrade, Do(autoUpgrade, s, steps[0]), steps[1..]))
  }

  function Final(autoUpgrade: bool, s: State, steps: seq<Step>): State
    requires IsRun(autoUpgrade, s, steps)
    decreases |steps|
  {
    if steps == [] then s else Final(autoUpgrade, Do(autoUpgrade, s, steps[0]), steps[1..])
  }

  // ---- The upgrade loop -------------------------------------------------------------------

  /** The swap call at `k` comes straight after an advert and two clear reads. */
  predicate GatedSwap(autoUpgrade: bool, log: seq<LEvent>, k: nat) {
    && 3 <= k < |log|
    && autoUpgrade
    && log[k].SwapCalled? && !log[k].insecureNoVerify
    && log[k - 3] == Advert && log[k - 2] == SawClear && log[k - 1] == SawClear
  }

  predicate SawAdvert(log: seq<LEvent>) {
    |log| >= 1 && log[|log| - 1] == Advert
  }

  predicate SawAdvertClear(log: seq<LEvent>) {
    |log| >= 2 && log[|log| - 2] == Advert && log[|log| - 1] == SawClear
  }

  predicate SawAdvertClearClear(log: seq<LEvent>) {
    |log| >= 3 && log[|log| - 3] == Advert && log[|log| - 2] == SawClear && log[|log| - 1] == SawClear
  }

  predicate SwapsOk(autoUpgrade: bool, log: seq<LEvent>) {
    forall k :: 0 <= k < |log| && log[k].SwapCalled? ==> GatedSwap(autoUpgrade, log, k)
  }

  predicate EndsAtSwap(loop: Loop, log: seq<LEvent>) {
    forall k :: 0 <= k < |log| && log[k].SwapOk? ==> k == |log| - 1 && loop.LDone?
  }

  /** What the loop has just seen, at each of its program points. */
  predicate JustSaw(autoUpgrade: bool, loop: Loop, log: seq<LEvent>) {
    && (loop.LGate? ==> SawAdvert(log))
    && (loop.LJitter? || loop.LRecheck? ==> autoUpgrade && SawAdvertClear(log))
    && (loop.LSwap? ==> autoUpgrade && SawAdvertClearClear(log))
  }

  predicate LoopInv(autoUpgrade: bool, s: State) {
    SwapsOk(autoUpgrade, s.llog) && EndsAtSwap(s.loop, s.llog) && JustSaw(autoUpgrade, s.loop, s.llog)
  }

  lemma LoopStep(autoUpgrade: bool, s: State, step: Step)
    requires LoopInv(autoUpgrade, s) && Enabled(s, step)
    ensures LoopInv(autoUpgrade, Do(autoUpgrade, s, step))
  {
    if step.CallSwap? {
      SwapStep(autoUpgrade, s);
    } else {
      OtherLoopStep(autoUpgrade, s, step);
    }
  }

  lemma SwapStep(autoUpgrade: bool, s: State)
    requires LoopInv(autoUpgrade, s) && s.loop.LSwap?
    ensures LoopInv(autoUpgrade, Do(autoUpgrade, s, CallSwap))
  {
    var e := SwapCalled(false, s.status.active);
    assert GatedSwap(autoUpgrade, s.llog + [e], |s.llog|);
    SwapsGrow(autoUpgrade, s.llog, e);
  }

  lemma OtherLoopStep(autoUpgrade: bool, s: State, step: Step)
    requires LoopInv(autoUpgrade, s) && Enabled(s, step) && !step.CallSwap?
    ensures LoopInv(autoUpgrade, Do(autoUpgrade, s, step))
  {
    var t := Do(autoUpgrade, s, step);
    if t.llog != s.llog {
      var e := t.llog[|s.llog|];
      assert t.llog == s.llog + [e];
      SwapsGrow(autoUpgrade, s.llog, e);
    }
  }

  lemma SwapsGrow(autoUpgrade: bool, log: seq<LEvent>, e: LEvent)
    requires SwapsOk(autoUpgrade, log) && (e.SwapCalled? ==> GatedSwap(autoUpgrade, log + [e], |log|))
    ensures SwapsOk(autoUpgrade, log + [e])
  {
    forall k | 0 <= k < |log| && log[k].SwapCalled? ensures GatedSwap(autoUpgrade, log + [e], k) {
      assert GatedSwap(autoUpgrade, log, k);
    }
  }

  lemma {:induction false} LoopRun(autoUpgrade: bool, s: State, steps: seq<Step>)
    requires LoopInv(autoUpgrade, s) && IsRun(autoUpgrade, s, steps)
    ensures LoopInv(autoUpgrade, Final(autoUpgrade, s, steps))
    decreases |steps|
  {
    if steps != [] {
      LoopStep(autoUpgrade, s, steps[0]);
      LoopRun(autoUpgrade, Do(autoUpgrade, s, steps[0]), steps[1..]);
    }
  }

  /** In every interleaving, each swap call follows an advert and two clear reads of the flag, on
      an opted-in host, with verification on; and nothing follows a successful swap. */
  lemma {:induction false} SwapsAreGated(autoUpgrade: bool, status: Status, steps: seq<Step>)
    requires IsRun(autoUpgrade, Init(status), steps)
    ensures var s := Final(autoUpgrade, Init(status), steps);
      && (forall k :: 0 <= k < |s.llog| && s.llog[k].SwapCalled? ==> GatedSwap(autoUpgrade, s.llog, k))
      && (forall k :: 0 <= k < |s.llog| && s.llog[k].SwapOk? ==> k == |s.llog| - 1 && s.loop.LDone?)
  {
    LoopRun(autoUpgrade, Init(status), steps);
  }

  // ---- The watchdog probe -----------------------------------------------------------------

  function Failed(log: seq<PEvent>): nat {
    if log == [] then 0
    else Failed(log[..|log| - 1]) + (if log[|log| - 1] == Heartbeat(false, true) then 1 else 0)
  }

  /** A rollback is the last event of a finished probe. */
  predicate RollbackLast(p: Probe, log: seq<PEvent>) {
    forall k :: 0 <= k < |log| && log[k].Rollback? ==> k == |log| - 1 && p.PDone?
  }

  /** A success recorded while armed is the last event, and only the clearing write may follow. */
  predicate SuccessLast(p: Probe, log: seq<PEvent>) {
    forall k :: 0 <= k < |log| && log[k] == Heartbeat(true, true) ==>
      k == |log| - 1 && (p.PDone? || (p.PWrite? && p.action.ClearWatchdog?))
  }

  predicate FailuresOk(f0: nat, s: State) {
    && s.status.failures <= f0 + Failed(s.plog)
    && (s.probe.PWrite? ==>
          && s.probe.s.failures <= f0 + Failed(s.plog)
          && (s.probe.action.RollbackTriggered? ==> f0 + Failed(s.plog) >= ROLLBACK_FAILURE_THRESHOLD))
    && (Rollback in s.plog ==> f0 + Failed(s.plog) >= ROLLBACK_FAILURE_THRESHOLD)
  }

  predicate WriteFollowsRead(p: Probe, log: seq<PEvent>) {
    p.PWrite? ==> log != [] && log[|log| - 1] == Heartbeat(p.action.ClearWatchdog?, true)
  }

  predicate ProbeInv(f0: nat, s: State) {
    && RollbackLast(s.probe, s.plog)
    && SuccessLast(s.probe, s.plog)
    && FailuresOk(f0, s)
    && WriteFollowsRead(s.probe, s.plog)
  }

  lemma FailedAppend(log: seq<PEvent>, e: PEvent)
    ensures Failed(log + [e]) == Failed(log) + (if e == Heartbeat(false, true) then 1 else 0)
  {
    assert (log + [e])[..|log|] == log;
  }

  lemma ProbeStep(autoUpgrade: bool, f0: nat, s: State, step: Step)
    requires ProbeInv(f0, s) && Enabled(s, step)
    ensures ProbeInv(f0, Do(autoUpgrade, s, step))
  {
    if step.RecordRead? {
      ReadStep(f0, s, Seen(s, step.readable), s.probe.ok);
    } else if step.RecordWrite? {
      WriteStep(autoUpgrade, f0, s, step);
    } else {
      assert Do(autoUpgrade, s, step).plog == s.plog;
    }
  }

  /** A heartbeat is logged while the probe has no write pending. */
  lemma HeartbeatKeepsOrder(p: Probe, q: Probe, log: seq<PEvent>, ok: bool, armed: bool)
    requires RollbackLast(p, log) && SuccessLast(p, log) && p.PRecord?
    requires q.PIdle? || q.PWrite?
    requires ok && armed ==> q.PWrite? && q.action.ClearWatchdog?
    ensures RollbackLast(q, log + [Heartbeat(ok, armed)]) && SuccessLast(q, log + [Heartbeat(ok, armed)])
  {
  }

  lemma HeartbeatKeepsCount(f0: nat, s: State, seen: Status, ok: bool)
    requires FailuresOk(f0, s) && Rollback !in s.plog && seen.active && seen.failures <= s.status.failures
    ensures var (t, action) := Record(seen, ok);
      FailuresOk(f0, s.(probe := PWrite(t, action), plog := s.plog + [Heartbeat(ok, true)]))
  {
    FailedAppend(s.plog, Heartbeat(ok, true));
  }

  lemma HeartbeatUnrecorded(f0: nat, s: State, ok: bool)
    requires FailuresOk(f0, s) && Rollback !in s.plog
    ensures FailuresOk(f0, s.(probe := PIdle, plog := s.plog + [Heartbeat(ok, false)]))
  {
    FailedAppend(s.plog, Heartbeat(ok, false));
  }

  lemma NoRollbackYet(p: Probe, log: seq<PEvent>)
    requires RollbackLast(p, log) && !p.PDone?
    ensures Rollback !in log
  {
  }

  lemma ReadStep(f0: nat, s: State, seen: Status, ok: bool)
    requires ProbeInv(f0, s) && s.probe == PRecord(ok) && seen.failures <= s.status.failures
    ensures ProbeInv(f0, s.(probe := AfterRead(seen, ok), plog := s.plog + [Heartbeat(ok, seen.active)]))
  {
    NoRollbackYet(s.probe, s.plog);
    HeartbeatKeepsOrder(s.probe, AfterRead(seen, ok), s.plog, ok, seen.active);
    if seen.active {
      HeartbeatKeepsCount(f0, s, seen, ok);
    } else {
      HeartbeatUnrecorded(f0, s, ok);
    }
  }

  lemma RollbackKeepsOrder(p: Probe, log: seq<PEvent>)
    requires RollbackLast(p, log) && SuccessLast(p, log) && WriteFollowsRead(p, log) && p.PWrite? && p.action.RollbackTriggered?
    ensures RollbackLast(PDone, log + [Rollback]) && SuccessLast(PDone, log + [Rollback])
  {
  }

  lemma WriteStep(autoUpgrade: bool, f0: nat, s: State, step: Step)
    requires ProbeInv(f0, s) && s.probe.PWrite? && step.RecordWrite?
    ensures ProbeInv(f0, Do(autoUpgrade, s, step))
  {
    if s.probe.action.RollbackTriggered? {
      FailedAppend(s.plog, Rollback);
      RollbackKeepsOrder(s.probe, s.plog);
    }
  }

  lemma {:induction false} ProbeRun(autoUpgrade: bool, f0: nat, s: State, steps: seq<Step>)
    requires ProbeInv(f0, s) && IsRun(autoUpgrade, s, steps)
    ensures ProbeInv(f0, Final(autoUpgrade, s, steps))
    decreases |steps|
  {
    if steps != [] {
      ProbeStep(autoUpgrade, f0, s, steps[0]);
      ProbeRun(autoUpgrade, f0, Do(autoUpgrade, s, steps[0]), steps[1..]);
    }
  }

  /** In every interleaving the rollback runs at most once and is the probe's last act; it needs
      three recorded failures, counting those persisted before the restart; and a success that is
      recorded while the flag is armed rules it out. */
  lemma {:induction false} RollbackIsRare(autoUpgrade: bool, status: Status, steps: seq<Step>)
    requires IsRun(autoUpgrade, Init(status), steps)
    ensures var s := Final(autoUpgrade, Init(status), steps);
      && (forall k :: 0 <= k < |s.plog| && s.plog[k].Rollback? ==> k == |s.plog| - 1 && s.probe.PDone?)
      && (Rollback in s.plog ==> status.failures + Failed(s.plog) >= ROLLBACK_FAILURE_THRESHOLD)
      && (Rollback in s.plog ==> Heartbeat(true, true) !in s.plog)
  {
    ProbeRun(autoUpgrade, status.failures, Init(status), steps);
  }

  // ---- What the environment may do --------------------------------------------------------

  /** The swap of the upgrade loop ended and recorded its outcome, which sets the flag. */
  predicate Records(step: Step, ok: bool) { step.SwapReturns? && step.touched && step.ok == ok }

  predicate Misreads(step: Step) {
    (step.CheckFlag? || step.RecordRead? || step.GateRead? || step.Recheck?) && !step.readable
  }

  /** What may happen around the probe: the operator arms or disarms, the program's own swap records
      a success or a failure, the status cannot be read. */
  datatype Env = Env(mayArm: bool, mayDisarm: bool, mayRecordOk: bool, mayRecordFailed: bool, mayMisread: bool)

  predicate Permitted(env: Env, step: Step) {
    && (step.Arm? ==> env.mayArm)
    && (step.Disarm? ==> env.mayDisarm)
    && (Records(step, true) ==> env.mayRecordOk)
    && (Records(step, false) ==> env.mayRecordFailed)
    && (Misreads(step) ==> env.mayMisread)
  }

  predicate Permits(env: Env, steps: seq<Step>) { forall i :: 0 <= i < |steps| ==> Permitted(env, steps[i]) }

  lemma PermitsTail(env: Env, steps: seq<Step>)
    requires Permits(env, steps) && steps != []
    ensures Permitted(env, steps[0]) && Permits(env, steps[1..])
  {
    assert forall i :: 0 <= i < |steps[1..]| ==> steps[1..][i] == steps[i + 1];
  }

  /** While the probe runs the flag is armed, so that every heartbeat is recorded and the loop goes no
      further than its first look at the flag. */
  predicate ArmedInv(s: State) {
    && (!s.probe.PDone? ==>
          s.status.active && !s.loop.LJitter? && !s.loop.LRecheck? && !s.loop.LSwap? && !s.loop.LSwapping?)
    && (s.probe.PWrite? && s.probe.action.Continue? ==> s.probe.s.active)
    && (forall k :: 0 <= k < |s.plog| && s.plog[k].Heartbeat? ==> s.plog[k].armed)
  }

  lemma ArmedStep(autoUpgrade: bool, env: Env, s: State, step: Step)
    requires ArmedInv(s) && Enabled(s, step) && Permitted(env, step) && !env.mayDisarm && !env.mayMisread
    ensures ArmedInv(Do(autoUpgrade, s, step))
  {
  }

  lemma {:induction false} ArmedRun(autoUpgrade: bool, env: Env, s: State, steps: seq<Step>)
    requires ArmedInv(s) && IsRun(autoUpgrade, s, steps) && Permits(env, steps) && !env.mayDisarm && !env.mayMisread
    ensures ArmedInv(Final(autoUpgrade, s, steps))
    decreases |steps|
  {
    if steps != [] {
      PermitsTail(env, steps);
      ArmedStep(autoUpgrade, env, s, steps[0]);
      ArmedRun(autoUpgrade, env, Do(autoUpgrade, s, steps[0]), steps[1..]);
    }
  }

  /** After a success that was not recorded the flag is off, and the probe will see that. */
  predicate OffInv(s: State) {
    && RollbackLast(s.probe, s.plog)
    && (Heartbeat(true, false) in s.plog ==>
          !s.status.active && (s.probe.PIdle? || s.probe.PCheck? || s.probe.PDone?) && Rollback !in s.plog)
  }

  lemma OffStep(autoUpgrade: bool, env: Env, f0: nat, s: State, step: Step)
    requires OffInv(s) && ProbeInv(f0, s) && Enabled(s, step) && Permitted(env, step) && !env.mayArm && !env.mayRecordOk && !env.mayMisread
    ensures OffInv(Do(autoUpgrade, s, step))
  {
    ProbeStep(autoUpgrade, f0, s, step);
    if step.RecordRead? {
      NoRollbackYet(s.probe, s.plog);
    }
  }

  lemma {:induction false} OffRun(autoUpgrade: bool, env: Env, f0: nat, s: State, steps: seq<Step>)
    requires OffInv(s) && ProbeInv(f0, s) && IsRun(autoUpgrade, s, steps) && Permits(env, steps)
    requires !env.mayArm && !env.mayRecordOk && !env.mayMisread
    ensures OffInv(Final(autoUpgrade, s, steps))
    decreases |steps|
  {
    if steps != [] {
      PermitsTail(env, steps);
      OffStep(autoUpgrade, env, f0, s, steps[0]);
      ProbeStep(autoUpgrade, f0, s, steps[0]);
      OffRun(autoUpgrade, env, f0, Do(autoUpgrade, s, steps[0]), steps[1..]);
    }
  }

  predicate LateRollback(log: seq<PEvent>) {
    Rollback in log && (Heartbeat(true, true) in log || Heartbeat(true, false) in log)
  }

  /** The documented promise, on its ground: the status is always readable, and the operator does not
      disarm, or else nothing arms the flag again. The program's own swaps never break it. */
  lemma {:induction false} NoRollbackAfterSuccess(autoUpgrade: bool, env: Env, status: Status, steps: seq<Step>)
    requires IsRun(autoUpgrade, Init(status), steps) && Permits(env, steps)
    requires !env.mayMisread && !(env.mayDisarm && (env.mayArm || env.mayRecordOk))
    ensures !LateRollback(Final(autoUpgrade, Init(status), steps).plog)
  {
    RollbackIsRare(autoUpgrade, status, steps);
    if env.mayDisarm {
      OffRun(autoUpgrade, env, status.failures, Init(status), steps);
    } else {
      ArmedRun(autoUpgrade, env, Init(status), steps);
    }
  }

  // ---- Witnesses --------------------------------------------------------------------------

  /** Where a run of permitted steps leads; `None` if a step is not enabled or not permitted. */
  function RunTo(autoUpgrade: bool, env: Env, s: State, steps: seq<Step>): Option<State>
    decreases |steps|
  {
    if steps == [] then Some(s)
    else if Enabled(s, steps[0]) && Permitted(env, steps[0]) then RunTo(autoUpgrade, env, Do(autoUpgrade, s, steps[0]), steps[1..])
    else None
  }

  lemma {:induction false} RunToIs(autoUpgrade: bool, env: Env, s: State, steps: seq<Step>)
    requires RunTo(autoUpgrade, env, s, steps).Some?
    ensures IsRun(autoUpgrade, s, steps) && Permits(env, steps)
    ensures RunTo(autoUpgrade, env, s, steps) == Some(Final(autoUpgrade, s, steps))
    decreases |steps|
  {
    if steps != [] {
      RunToIs(autoUpgrade, env, Do(autoUpgrade, s, steps[0]), steps[1..]);
    }
  }

  lemma {:induction false} RunToAppend(autoUpgrade: bool, env: Env, s: State, a: seq<Step>, b: seq<Step>)
    requires RunTo(autoUpgrade, env, s, a).Some?
    ensures RunTo(autoUpgrade, env, s, a + b) == RunTo(autoUpgrade, env, RunTo(autoUpgrade, env, s, a).value, b)
    decreases |a|
  {
    if a == [] {
      assert a + b == b;
    } else {
      assert (a + b)[1..] == a[1..] + b;
      RunToAppend(autoUpgrade, env, Do(autoUpgrade, s, a[0]), a[1..], b);
    }
  }

  /** Extends a run by one permitted step. */
  lemma Go(autoUpgrade: bool, env: Env, s0: State, steps: seq<Step>, s: State, step: Step) returns (steps': seq<Step>, t: State)
    requires RunTo(autoUpgrade, env, s0, steps) == Some(s) && Enabled(s, step) && Permitted(env, step)
    ensures t == Do(autoUpgrade, s, step) && RunTo(autoUpgrade, env, s0, steps') == Some(t)
  {
    steps', t := steps + [step], Do(autoUpgrade, s, step);
    assert [step][1..] == [];
    RunToAppend(autoUpgrade, env, s0, steps, [step]);
  }

  /** One probe cycle with a failed heartbeat. */
  lemma FailingCycle(a: bool, env: Env, s0: State, steps: seq<Step>, s: State) returns (steps': seq<Step>, t: State)
    requires RunTo(a, env, s0, steps) == Some(s) && s.probe.PIdle? && s.status.active
    ensures RunTo(a, env, s0, steps') == Some(t)
    ensures s.status.failures < 2 ==>
      t == s.(status := Status(true, s.status.failures + 1), plog := s.plog + [Heartbeat(false, true)])
    ensures s.status.failures >= 2 ==>
      t == s.(status := Status(false, 0), probe := PDone, plog := s.plog + [Heartbeat(false, true)] + [Rollback])
  {
    steps', t := Go(a, env, s0, steps, s, Tick);
    steps', t := Go(a, env, s0, steps', t, CheckFlag(true));
    steps', t := Go(a, env, s0, steps', t, Register(false));
    steps', t := Go(a, env, s0, steps', t, RecordRead(true));
    steps', t := Go(a, env, s0, steps', t, RecordWrite(true));
  }

  lemma ThreeFailures(a: bool, env: Env, s0: State, steps: seq<Step>, s: State) returns (steps': seq<Step>, t: State)
    requires RunTo(a, env, s0, steps) == Some(s) && s.probe.PIdle? && s.status == Status(true, 0)
    requires s.plog == [Heartbeat(true, false)]
    ensures RunTo(a, env, s0, steps') == Some(t) && LateRollback(t.plog)
  {
    steps', t := FailingCycle(a, env, s0, steps, s);
    steps', t := FailingCycle(a, env, s0, steps', t);
    steps', t := FailingCycle(a, env, s0, steps', t);
    assert t.plog[0] == Heartbeat(true, false);
  }

  /** A heartbeat that succeeds and is about to be recorded. */
  lemma GoodHeartbeat(a: bool, env: Env) returns (s0: State, steps: seq<Step>, s: State)
    ensures s0 == Init(Status(true, 0)) && RunTo(a, env, s0, steps) == Some(s) && s == s0.(probe := PRecord(true))
  {
    s0 := Init(Status(true, 0));
    steps, s := Go(a, env, s0, [], s0, Tick);
    steps, s := Go(a, env, s0, steps, s, CheckFlag(true));
    steps, s := Go(a, env, s0, steps, s, Register(true));
  }

  /** The operator disarms while a heartbeat is in flight, and its success is not recorded. */
  lemma UnrecordedSuccess(a: bool, env: Env) returns (s0: State, steps: seq<Step>, s: State)
    requires env.mayDisarm
    ensures s0 == Init(Status(true, 0)) && RunTo(a, env, s0, steps) == Some(s)
    ensures s == s0.(status := Status(false, 0), plog := [Heartbeat(true, false)])
  {
    s0, steps, s := GoodHeartbeat(a, env);
    steps, s := Go(a, env, s0, steps, s, Disarm);
    steps, s := Go(a, env, s0, steps, s, RecordRead(true));
  }

  /** Then the operator arms again, and three failures roll the binary back. */
  lemma RollbackAfterSuccess(env: Env) returns (steps: seq<Step>, s: State)
    requires env.mayDisarm && env.mayArm
    ensures RunTo(false, env, Init(Status(true, 0)), steps) == Some(s) && LateRollback(s.plog)
  {
    var s0;
    s0, steps, s := UnrecordedSuccess(false, env);
    steps, s := Go(false, env, s0, steps, s, Arm);
    steps, s := ThreeFailures(false, env, s0, steps, s);
  }

  /** Or the program's own swap arms it, with the same end. */
  lemma RollbackAfterOwnSwap(env: Env) returns (steps: seq<Step>, s: State)
    requires env.mayDisarm && env.mayRecordOk
    ensures RunTo(true, env, Init(Status(true, 0)), steps) == Some(s) && LateRollback(s.plog)
  {
    var s0;
    s0, steps, s := UnrecordedSuccess(true, env);
    steps, s := UpToRecheck(env, s0, steps, s, true);
    steps, s := Go(true, env, s0, steps, s, CallSwap);
    steps, s := Go(true, env, s0, steps, s, SwapReturns(true, true));
    steps, s := ThreeFailures(true, env, s0, steps, s);
  }

  /** The status cannot be read when a success is to be recorded: nobody touches the flag, and
      three failures roll the binary back. */
  lemma RollbackAfterMisread(env: Env) returns (steps: seq<Step>, s: State)
    requires env.mayMisread
    ensures RunTo(false, env, Init(Status(true, 0)), steps) == Some(s) && LateRollback(s.plog)
  {
    var s0;
    s0, steps, s := GoodHeartbeat(false, env);
    steps, s := Go(false, env, s0, steps, s, RecordRead(false));
    steps, s := ThreeFailures(false, env, s0, steps, s);
  }

  predicate Safe(autoUpgrade: bool, env: Env, status: Status, steps: seq<Step>) {
    IsRun(autoUpgrade, Init(status), steps) && Permits(env, steps) ==>
      !LateRollback(Final(autoUpgrade, Init(status), steps).plog)
  }

  /** Exactly when the promise holds on all hosts, from every status and in every interleaving: the
      status is always readable, and it does not happen both that the operator disarms and that the
      operator or a swap arms. On a host nobody touches it always holds. */
  lemma SafeIff(env: Env)
    ensures (forall autoUpgrade, status, steps :: Safe(autoUpgrade, env, status, steps))
      <==> !env.mayMisread && !(env.mayDisarm && (env.mayArm || env.mayRecordOk))
  {
    if env.mayMisread {
      var steps, s := RollbackAfterMisread(env);
      RunToIs(false, env, Init(Status(true, 0)), steps);
      assert !Safe(false, env, Status(true, 0), steps);
    } else if env.mayDisarm && env.mayArm {
      var steps, s := RollbackAfterSuccess(env);
      RunToIs(false, env, Init(Status(true, 0)), steps);
      assert !Safe(false, env, Status(true, 0), steps);
    } else if env.mayDisarm && env.mayRecordOk {
      var steps, s := RollbackAfterOwnSwap(env);
      RunToIs(true, env, Init(Status(true, 0)), steps);
      assert !Safe(true, env, Status(true, 0), steps);
    } else {
      forall autoUpgrade, status, steps ensures Safe(autoUpgrade, env, status, steps) {
        if IsRun(autoUpgrade, Init(status), steps) && Permits(env, steps) {
          NoRollbackAfterSuccess(autoUpgrade, env, status, steps);
        }
      }
    }
  }

  // ---- A recorded success ends the watch --------------------------------------------------

  /** A heartbeat recorded while armed, if its read and its write succeed with nothing in between:
      a success turns the flag off and ends the probe, the third failure in a row does the same and
      rolls back, and the two before it are counted. */
  lemma OutcomeIsRecorded(autoUpgrade: bool, s: State, ok: bool)
    requires s.probe == PRecord(ok) && s.status.active
    ensures var t := Do(autoUpgrade, Do(autoUpgrade, s, RecordRead(true)), RecordWrite(true));
      && t.loop == s.loop && t.llog == s.llog
      && (ok ==> t.status == Status(false, 0) && t.probe.PDone? && t.plog == s.plog + [Heartbeat(true, true)])
      && (!ok && s.status.failures < 2 ==>
            t.status == Status(true, s.status.failures + 1) && t.probe.PIdle? && t.plog == s.plog + [Heartbeat(false, true)])
      && (!ok && s.status.failures >= 2 ==>
            t.status == Status(false, 0) && t.probe.PDone? && t.plog == s.plog + [Heartbeat(false, true), Rollback])
  {
    assert s.plog + [Heartbeat(false, true)] + [Rollback] == s.plog + [Heartbeat(false, true), Rollback];
  }

  predicate Arms(step: Step) { step.Arm? || Records(step, true) }

  predicate Disarms(step: Step) { step.Disarm? || Records(step, false) }

  /** Some step arms the flag, and none after it disarms it. */
  predicate LeavesArmed(steps: seq<Step>) {
    exists i :: 0 <= i < |steps| && Arms(steps[i]) && NoneDisarms(steps[i + 1..])
  }

  predicate NoneDisarms(steps: seq<Step>) { forall j :: 0 <= j < |steps| ==> !Disarms(steps[j]) }

  lemma NoneDisarmsTail(steps: seq<Step>)
    requires steps != []
    ensures NoneDisarms(steps) <==> !Disarms(steps[0]) && NoneDisarms(steps[1..])
  {
    assert forall j :: 0 < j < |steps| ==> steps[j] == steps[1..][j - 1];
  }

  lemma LeavesArmedTail(steps: seq<Step>)
    requires steps != []
    ensures LeavesArmed(steps) <==> (Arms(steps[0]) && NoneDisarms(steps[1..])) || LeavesArmed(steps[1..])
  {
    forall i | 0 <= i < |steps[1..]| ensures steps[1..][i] == steps[i + 1] && steps[1..][i + 1..] == steps[i + 2..] {
    }
    if i :| 0 < i < |steps| && Arms(steps[i]) && NoneDisarms(steps[i + 1..]) {
      assert Arms(steps[1..][i - 1]) && NoneDisarms(steps[1..][i - 1 + 1..]);
    }
    if i :| 0 <= i < |steps[1..]| && Arms(steps[1..][i]) && NoneDisarms(steps[1..][i + 1..]) {
      assert Arms(steps[i + 1]) && NoneDisarms(steps[i + 1 + 1..]);
    }
  }

  lemma DoneStep(autoUpgrade: bool, s: State, step: Step)
    requires s.probe.PDone? && Enabled(s, step)
    ensures var t := Do(autoUpgrade, s, step);
      t.probe.PDone? && t.status.active == (Arms(step) || (s.status.active && !Disarms(step)))
  {
  }

  /** Once the probe is done, only the operator and the recorded swaps decide the flag. */
  lemma {:induction false} DoneRun(autoUpgrade: bool, s: State, steps: seq<Step>)
    requires s.probe.PDone? && IsRun(autoUpgrade, s, steps)
    ensures Final(autoUpgrade, s, steps).status.active <==>
      LeavesArmed(steps) || (s.status.active && NoneDisarms(steps))
    decreases |steps|
  {
    if steps != [] {
      DoneStep(autoUpgrade, s, steps[0]);
      DoneRun(autoUpgrade, Do(autoUpgrade, s, steps[0]), steps[1..]);
      NoneDisarmsTail(steps);
      LeavesArmedTail(steps);
    }
  }

  /** In every run, whatever interfered before: when the write that follows a success recorded while
      armed is saved, the flag is off, and at the end of the run it is on exactly when the operator or
      a recorded swap has armed it since and nothing has disarmed it after that. */
  lemma {:induction false} HealthyStaysOff(autoUpgrade: bool, status: Status, before: seq<Step>, after: seq<Step>)
    requires IsRun(autoUpgrade, Init(status), before)
    requires var s := Final(autoUpgrade, Init(status), before); s.probe.PWrite? && Heartbeat(true, true) in s.plog
    requires IsRun(autoUpgrade, Do(autoUpgrade, Final(autoUpgrade, Init(status), before), RecordWrite(true)), after)
    ensures var t := Do(autoUpgrade, Final(autoUpgrade, Init(status), before), RecordWrite(true));
      && !t.status.active && t.probe.PDone?
      && (Final(autoUpgrade, t, after).status.active <==> LeavesArmed(after))
  {
    var s := Final(autoUpgrade, Init(status), before);
    ProbeRun(autoUpgrade, status.failures, Init(status), before);
    ClearsRun(autoUpgrade, Init(status), before);
    DoneRun(autoUpgrade, Do(autoUpgrade, s, RecordWrite(true)), after);
  }

  /** The write that ends the watch, and the one that rolls back, turn the flag off. */
  predicate ClearsInv(s: State) { s.probe.PWrite? && !s.probe.action.Continue? ==> s.probe.s == Status(false, 0) }

  lemma {:induction false} ClearsRun(autoUpgrade: bool, s: State, steps: seq<Step>)
    requires ClearsInv(s) && IsRun(autoUpgrade, s, steps)
    ensures ClearsInv(Final(autoUpgrade, s, steps))
    decreases |steps|
  {
    if steps != [] {
      ClearsRun(autoUpgrade, Do(autoUpgrade, s, steps[0]), steps[1..]);
    }
  }

  /** An opted-in host that starts armed: its first heartbeat succeeds, and it goes on to swap. */
  lemma HealthyHostSwaps(env: Env) returns (steps: seq<Step>, s: State)
    requires env.mayRecordOk
    ensures RunTo(true, env, Init(Status(true, 0)), steps) == Some(s)
    ensures s.plog == [Heartbeat(true, true)]
    ensures s.llog == [Advert, SawClear, SawClear, SwapCalled(false, false), SwapOk] && s.status == Status(true, 0)
  {
    var s0;
    s0, steps, s := GoodHeartbeat(true, env);
    steps, s := Go(true, env, s0, steps, s, RecordRead(true));
    steps, s := Go(true, env, s0, steps, s, RecordWrite(true));
    assert s == s0.(status := Status(false, 0), probe := PDone, plog := [Heartbeat(true, true)]);
    steps, s := UpToRecheck(env, s0, steps, s, true);
    steps, s := Go(true, env, s0, steps, s, CallSwap);
    steps, s := Go(true, env, s0, steps, s, SwapReturns(true, true));
  }

  /** A write that is lost leaves the host armed without a probe, for good. */
  lemma UnsavedStaysArmed(autoUpgrade: bool, env: Env) returns (steps: seq<Step>, s: State)
    ensures RunTo(autoUpgrade, env, Init(Status(true, 0)), steps) == Some(s)
    ensures s == State(Status(true, 0), PDone, LIdle, [Heartbeat(true, true)], [])
  {
    var s0;
    s0, steps, s := GoodHeartbeat(autoUpgrade, env);
    steps, s := Go(autoUpgrade, env, s0, steps, s, RecordRead(true));
    steps, s := Go(autoUpgrade, env, s0, steps, s, RecordWrite(false));
  }

  // ---- When the two tasks end -------------------------------------------------------------

  predicate HasLoopStop(steps: seq<Step>) { exists i :: 0 <= i < |steps| && steps[i].LoopStops? }

  lemma HasLoopStopTail(steps: seq<Step>)
    requires steps != []
    ensures HasLoopStop(steps) <==> steps[0].LoopStops? || HasLoopStop(steps[1..])
  {
    assert forall i :: 0 < i < |steps| ==> steps[i] == steps[1..][i - 1];
  }

  lemma LoopEndStep(autoUpgrade: bool, s: State, step: Step)
    requires Enabled(s, step) && (SwapOk in s.llog ==> s.loop.LDone?)
    ensures var t := Do(autoUpgrade, s, step);
      (SwapOk in t.llog ==> t.loop.LDone?) && (t.loop.LDone? <==> s.loop.LDone? || step.LoopStops? || SwapOk in t.llog)
  {
  }

  lemma {:induction false} LoopEndRun(autoUpgrade: bool, s: State, steps: seq<Step>)
    requires IsRun(autoUpgrade, s, steps) && (SwapOk in s.llog ==> s.loop.LDone?)
    ensures var t := Final(autoUpgrade, s, steps);
      t.loop.LDone? <==> s.loop.LDone? || HasLoopStop(steps) || SwapOk in t.llog
    decreases |steps|
  {
    if steps != [] {
      LoopEndStep(autoUpgrade, s, steps[0]);
      HasLoopStopTail(steps);
      LoopEndRun(autoUpgrade, Do(autoUpgrade, s, steps[0]), steps[1..]);
      LogGrows(autoUpgrade, Do(autoUpgrade, s, steps[0]), steps[1..]);
    }
  }

  lemma {:induction false} LogGrows(autoUpgrade: bool, s: State, steps: seq<Step>)
    requires IsRun(autoUpgrade, s, steps)
    ensures s.llog <= Final(autoUpgrade, s, steps).llog && s.plog <= Final(autoUpgrade, s, steps).plog
    decreases |steps|
  {
    if steps != [] {
      LogGrows(autoUpgrade, Do(autoUpgrade, s, steps[0]), steps[1..]);
    }
  }

  /** The upgrade loop ends when it is cancelled or its swap succeeds, and for no other reason: an
      armed flag, a missing advert and a failed swap only put the upgrade off. */
  lemma {:induction false} LoopEndsIff(autoUpgrade: bool, status: Status, steps: seq<Step>)
    requires IsRun(autoUpgrade, Init(status), steps)
    ensures var s := Final(autoUpgrade, Init(status), steps);
      s.loop.LDone? <==> HasLoopStop(steps) || SwapOk in s.llog
  {
    LoopEndRun(autoUpgrade, Init(status), steps);
  }

  /** The probe is cancelled, gives up, reads at its check that the flag is off, or writes what ends
      the watch. */
  predicate EndsProbe(s: State, step: Step) {
    || step.ProbeStops?
    || (step.CheckFlag? && !Seen(s, step.readable).active)
    || (step.RecordWrite? && s.probe.PWrite? && s.plog != [] && s.plog[|s.plog| - 1] == Heartbeat(true, true))
    || (step.RecordWrite? && s.probe.PWrite? && s.probe.action.RollbackTriggered?)
  }

  predicate SomeEndsProbe(autoUpgrade: bool, s: State, steps: seq<Step>)
    requires IsRun(autoUpgrade, s, steps)
    decreases |steps|
  {
    steps != [] && (EndsProbe(s, steps[0]) || SomeEndsProbe(autoUpgrade, Do(autoUpgrade, s, steps[0]), steps[1..]))
  }

  lemma ProbeEndStep(autoUpgrade: bool, s: State, step: Step)
    requires Enabled(s, step) && WriteFollowsRead(s.probe, s.plog)
    ensures WriteFollowsRead(Do(autoUpgrade, s, step).probe, Do(autoUpgrade, s, step).plog)
    ensures Do(autoUpgrade, s, step).probe.PDone? <==> s.probe.PDone? || EndsProbe(s, step)
  {
  }

  lemma {:induction false} ProbeEndRun(autoUpgrade: bool, s: State, steps: seq<Step>)
    requires IsRun(autoUpgrade, s, steps) && WriteFollowsRead(s.probe, s.plog)
    ensures Final(autoUpgrade, s, steps).probe.PDone? <==> s.probe.PDone? || SomeEndsProbe(autoUpgrade, s, steps)
    decreases |steps|
  {
    if steps != [] {
      ProbeEndStep(autoUpgrade, s, steps[0]);
      ProbeEndRun(autoUpgrade, Do(autoUpgrade, s, steps[0]), steps[1..]);
    }
  }

  /** The probe runs exactly while the status was armed at startup and none of these has happened:
      a failed heartbeat, or one that finds the flag off, does not end it. */
  lemma {:induction false} ProbeEndsIff(autoUpgrade: bool, status: Status, steps: seq<Step>)
    requires IsRun(autoUpgrade, Init(status), steps)
    ensures Final(autoUpgrade, Init(status), steps).probe.PDone? <==>
      !status.active || SomeEndsProbe(autoUpgrade, Init(status), steps)
  {
    ProbeEndRun(autoUpgrade, Init(status), steps);
  }

  // ---- Is the flag clear when the swap is called? -----------------------------------------

  predicate SwapsClear(log: seq<LEvent>) { forall k :: 0 <= k < |log| && log[k].SwapCalled? ==> !log[k].armed }

  predicate ClearInv(s: State) {
    && ArmedInv(s)
    && (s.loop.LJitter? || s.loop.LRecheck? || s.loop.LSwap? ==> !s.status.active)
    && SwapsClear(s.llog)
  }

  /** Nobody but the program touches the flag, and it is always readable. */
  predicate Untouched(env: Env) { !env.mayArm && !env.mayDisarm && !env.mayMisread }

  lemma ClearStep(autoUpgrade: bool, env: Env, s: State, step: Step)
    requires ClearInv(s) && Enabled(s, step) && Permitted(env, step) && Untouched(env)
    ensures ClearInv(Do(autoUpgrade, s, step))
  {
    ArmedStep(autoUpgrade, env, s, step);
  }

  lemma {:induction false} ClearRun(autoUpgrade: bool, env: Env, s: State, steps: seq<Step>)
    requires ClearInv(s) && IsRun(autoUpgrade, s, steps) && Permits(env, steps) && Untouched(env)
    ensures ClearInv(Final(autoUpgrade, s, steps))
    decreases |steps|
  {
    if steps != [] {
      PermitsTail(env, steps);
      ClearStep(autoUpgrade, env, s, steps[0]);
      ClearRun(autoUpgrade, env, Do(autoUpgrade, s, steps[0]), steps[1..]);
    }
  }

  /** The loop from its tick to just before its second look at the flag. */
  lemma UpToRecheck(env: Env, s0: State, steps: seq<Step>, s: State, readable: bool) returns (steps': seq<Step>, t: State)
    requires RunTo(true, env, s0, steps) == Some(s) && s.loop.LIdle? && s.llog == [] && !Seen(s, readable).active
    requires readable || env.mayMisread
    ensures RunTo(true, env, s0, steps') == Some(t) && t == s.(loop := LSwap, llog := [Advert, SawClear, SawClear])
  {
    steps', t := Go(true, env, s0, steps, s, LoopTick);
    steps', t := Go(true, env, s0, steps', t, Query(true));
    steps', t := Go(true, env, s0, steps', t, GateRead(readable));
    steps', t := Go(true, env, s0, steps', t, JitterEnds);
    steps', t := Go(true, env, s0, steps', t, Recheck(readable));
  }

  lemma SwapArmed(env: Env, s0: State, steps: seq<Step>, s: State) returns (steps': seq<Step>, t: State)
    requires RunTo(true, env, s0, steps) == Some(s) && s.loop.LSwap? && s.status.active
    ensures RunTo(true, env, s0, steps') == Some(t) && !SwapsClear(t.llog)
  {
    steps', t := Go(true, env, s0, steps, s, CallSwap);
    assert t.llog[|s.llog|] == SwapCalled(false, true);
  }

  /** The operator arms between the second look and the call. */
  lemma ArmedBeforeSwap(env: Env) returns (s0: State, steps: seq<Step>, s: State)
    requires env.mayArm
    ensures s0 == Init(Status(false, 0)) && RunTo(true, env, s0, steps) == Some(s) && !SwapsClear(s.llog)
  {
    s0 := Init(Status(false, 0));
    steps, s := UpToRecheck(env, s0, [], s0, true);
    steps, s := Go(true, env, s0, steps, s, Arm);
    steps, s := SwapArmed(env, s0, steps, s);
  }

  /** The probe has recorded a failure and not yet written it. */
  lemma WritePending(env: Env) returns (s0: State, steps: seq<Step>, s: State)
    ensures s0 == Init(Status(true, 0)) && RunTo(true, env, s0, steps) == Some(s)
    ensures s == s0.(probe := PWrite(Status(true, 1), Continue), plog := [Heartbeat(false, true)])
  {
    s0 := Init(Status(true, 0));
    steps, s := Go(true, env, s0, [], s0, Tick);
    steps, s := Go(true, env, s0, steps, s, CheckFlag(true));
    steps, s := Go(true, env, s0, steps, s, Register(false));
    steps, s := Go(true, env, s0, steps, s, RecordRead(true));
  }

  /** The probe read the flag before it was turned off, and writes it back as armed. */
  lemma StaleWriteBeforeSwap(env: Env) returns (s0: State, steps: seq<Step>, s: State)
    requires env.mayDisarm
    ensures s0 == Init(Status(true, 0)) && RunTo(true, env, s0, steps) == Some(s) && !SwapsClear(s.llog)
  {
    s0, steps, s := WritePending(env);
    steps, s := Go(true, env, s0, steps, s, Disarm);
    steps, s := UpToRecheck(env, s0, steps, s, true);
    steps, s := Go(true, env, s0, steps, s, RecordWrite(true));
    steps, s := SwapArmed(env, s0, steps, s);
  }

  lemma MisreadBeforeSwap(env: Env) returns (s0: State, steps: seq<Step>, s: State)
    requires env.mayMisread
    ensures s0 == Init(Status(true, 0)) && RunTo(true, env, s0, steps) == Some(s) && !SwapsClear(s.llog)
  {
    s0 := Init(Status(true, 0));
    steps, s := UpToRecheck(env, s0, [], s0, false);
    steps, s := SwapArmed(env, s0, steps, s);
  }

  predicate SwapsOnlyClear(autoUpgrade: bool, env: Env, status: Status, steps: seq<Step>) {
    IsRun(autoUpgrade, Init(status), steps) && Permits(env, steps) ==> SwapsClear(Final(autoUpgrade, Init(status), steps).llog)
  }

  /** Two clear reads do not make the flag clear when the swap is called: that holds in every run
      exactly when the operator does not touch the flag and the status is always readable. What the
      program's own swaps record does no harm. */
  lemma SwapOnClearFlagIff(env: Env)
    ensures (forall autoUpgrade, status, steps :: SwapsOnlyClear(autoUpgrade, env, status, steps)) <==> Untouched(env)
  {
    if Untouched(env) {
      forall autoUpgrade, status, steps ensures SwapsOnlyClear(autoUpgrade, env, status, steps) {
        if IsRun(autoUpgrade, Init(status), steps) && Permits(env, steps) {
          ClearRun(autoUpgrade, env, Init(status), steps);
        }
      }
    } else {
      var s0, steps, s;
      if env.mayArm {
        s0, steps, s := ArmedBeforeSwap(env);
      } else if env.mayDisarm {
        s0, steps, s := StaleWriteBeforeSwap(env);
      } else {
        s0, steps, s := MisreadBeforeSwap(env);
      }
      assert s0 == Init(s0.status);
      RunToIs(true, env, s0, steps);
      assert !SwapsOnlyClear(true, env, s0.status, steps);
    }
  }
}
