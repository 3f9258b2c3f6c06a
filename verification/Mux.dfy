/** The control master. */
module Mux {
  // Local clients and a keepalive on one remote stream behind a mutex.
  // The remote answers requests in order. A query is named by its position in `forwarded`, so an
  // answer says which query it answers. A run is any interleaving of clients, keepalive, remote and
  // failures.

  import opened Common

  datatype Request = Request(stop: bool, text: string)

  /** What a local client reads back. `Answer(pos, asked)` is the remote's answer to query
      `pos`, handed to the client whose own query is `asked`. `RemoteError(q)` reports a request
      that failed: after it was sent as query `q`, or before it was sent. */
  datatype Reply = Answer(pos: nat, asked: nat) | Stopping | RemoteError(q: Option<nat>) | Garbled

  /** What a failed read does to the reply: it is consumed (it arrived whole and could not be
      decoded), left on the stream, or torn (part of its bytes are gone). */
  datatype Fate = Consumed | Left | Torn

  /** Tasks that talk to the remote. */
  datatype Owner = Client(c: nat) | Keepalive

  datatype Query = FromClient(c: nat, k: nat) | Ping

  datatype Stage = Reading | Waiting | Asking | Sent | Replying(r: Reply) | Closed

  /** One mux client: what it wrote, how much the handler took, what came back. */
  datatype Conn = Conn(sent: seq<Request>, taken: nat, stage: Stage, got: seq<Reply>)

  datatype State = State(
    conns: seq<Conn>, keep: Stage, lock: Option<Owner>,
    forwarded: seq<Query>, answered: nat, read: nat,
    leftover: nat, torn: bool, stopped: bool)

  datatype Step =
    | Connect
    | Write(c: nat, req: Request)
    | Take(c: nat)
    | HangUp(c: nat)
    | Tick
    | Lock(o: Owner)
    | Send(o: Owner)
    | SendFails(o: Owner, partly: bool)
    | RemoteAnswers
    | Read(o: Owner)
    | ReadFails(o: Owner, fate: Fate)
    | Deliver(c: nat)
    | DeliverFails(c: nat)

  function Init(): State {
    State([], Reading, None, [], 0, 0, 0, false, false)
  }

  predicate Known(s: State, o: Owner) { o.Client? ==> o.c < |s.conns| }

  function StageOf(s: State, o: Owner): Stage
    requires Known(s, o)
  {
    if o.Client? then s.conns[o.c].stage else s.keep
  }

  function SetStage(s: State, o: Owner, stage: Stage): State
    requires Known(s, o)
  {
    if o.Client? then s.(conns := s.conns[o.c := s.conns[o.c].(stage := stage)]) else s.(keep := stage)
  }

  predicate At(s: State, o: Owner, stage: Stage) { Known(s, o) && StageOf(s, o) == stage }

  function QueryOf(s: State, o: Owner): Query
    requires Known(s, o) && (o.Client? ==> s.conns[o.c].taken > 0)
  {
    if o.Client? then FromClient(o.c, s.conns[o.c].taken - 1) else Ping
  }

  predicate Enabled(s: State, step: Step) {
    match step
    case Connect => true
    case Write(c, _) => c < |s.conns|
    case Take(c) => At(s, Client(c), Reading) && s.conns[c].taken < |s.conns[c].sent|
    case HangUp(c) => At(s, Client(c), Reading)
    case Tick => s.keep.Reading?
    case Lock(o) => At(s, o, Waiting) && s.lock.None?
    case Send(o) => At(s, o, Asking) && (o.Client? ==> s.conns[o.c].taken > 0)
    case SendFails(o, _) => At(s, o, Asking)
    case RemoteAnswers => s.answered < |s.forwarded|
    case Read(o) => At(s, o, Sent) && s.read < s.answered && s.forwarded != []
    case ReadFails(o, fate) => At(s, o, Sent) && s.forwarded != [] && (fate.Consumed? ==> s.read < s.answered && !s.torn)
    case Deliver(c) => c < |s.conns| && s.conns[c].stage.Replying?
    case DeliverFails(c) => c < |s.conns| && s.conns[c].stage.Replying?
  }

  /** The request failed: a client is told so, the keepalive task stops the master. */
  function GiveUp(s: State, o: Owner, q: Option<nat>): State
    requires Known(s, o)
  {
    if o.Client? then SetStage(s, o, Replying(RemoteError(q))).(lock := None)
    else SetStage(s, o, Closed).(lock := None, stopped := true)
  }

  function Do(s: State, step: Step): State
    requires Enabled(s, step)
  {
    match step
    case Connect => s.(conns := s.conns + [Conn([], 0, Reading, [])])
    case Write(c, req) => s.(conns := s.conns[c := s.conns[c].(sent := s.conns[c].sent + [req])])
    case Take(c) =>
      var n := s.conns[c];
      if n.sent[n.taken].stop then
        s.(conns := s.conns[c := n.(taken := n.taken + 1, stage := Closed, got := n.got + [Stopping])],
           stopped := true)
      else
        s.(conns := s.conns[c := n.(taken := n.taken + 1, stage := Waiting)])
    case HangUp(c) => SetStage(s, Client(c), Closed)
    case Tick => s.(keep := Waiting)
    case Lock(o) => SetStage(s, o, Asking).(lock := Some(o))
    case Send(o) => SetStage(s, o, Sent).(forwarded := s.forwarded + [QueryOf(s, o)])
    case SendFails(o, partly) => GiveUp(s, o, None).(torn := s.torn || partly)
    case RemoteAnswers => s.(answered := s.answered + 1)
    case Read(o) =>
      if s.torn then SetStage(s, o, if o.Client? then Replying(Garbled) else Reading).(leftover := s.leftover + 1, lock := None)
      else
        SetStage(s, o, if o.Client? then Replying(Answer(s.read, |s.forwarded| - 1)) else Reading).(
          read := s.read + 1, lock := None)
    case ReadFails(o, fate) =>
      var t := GiveUp(s, o, Some(|s.forwarded| - 1));
      if fate.Consumed? then t.(read := s.read + 1) else t.(leftover := s.leftover + 1, torn := s.torn || fate.Torn?)
    case Deliver(c) =>
      var n := s.conns[c];
      s.(conns := s.conns[c := n.(stage := Reading, got := n.got + [n.stage.r])])
    case DeliverFails(c) => SetStage(s, Client(c), Closed)
  }

  predicate IsRun(s: State, steps: seq<Step>)
    decreases |steps|
  {
    steps == [] || (Enabled(s, steps[0]) && IsRun(Do(s, steps[0]), steps[1..]))
  }

  function Final(s: State, steps: seq<Step>): State
    requires IsRun(s, steps)
    decreases |steps|
  {
    if steps == [] then s else Final(Do(s, steps[0]), steps[1..])
  }

  // ---- Invariant ------------------------------------------------------------------------

  predicate InFlight(stage: Stage) { stage.Asking? || stage.Sent? }

  predicate Pending(stage: Stage) { stage.Waiting? || InFlight(stage) || stage.Replying? }

  /** `r` is a right reply to request `k` of client `c`, off by at most `slack` queries. */
  predicate ReplyOk(sent: seq<Request>, forwarded: seq<Query>, slack: nat, c: nat, k: nat, r: Reply) {
    && k < |sent|
    && (r.Stopping? <==> sent[k].stop)
    && (r.Answer? ==> r.asked < |forwarded| && forwarded[r.asked] == FromClient(c, k)
                      && r.pos <= r.asked <= r.pos + slack)
    && (r.RemoteError? && r.q.Some? ==> r.q.value < |forwarded| && forwarded[r.q.value] == FromClient(c, k))
    && (r.Garbled? ==> slack > 0)
  }

  predicate ConnOk(forwarded: seq<Query>, slack: nat, c: nat, n: Conn) {
    && n.taken <= |n.sent|
    && (if n.stage.Closed? then |n.got| <= n.taken else |n.got| + (if Pending(n.stage) then 1 else 0) == n.taken)
    && (Pending(n.stage) ==> !n.sent[n.taken - 1].stop)
    && (n.stage.Replying? ==> ReplyOk(n.sent, forwarded, slack, c, n.taken - 1, n.stage.r))
    && (forall j :: 0 <= j < |n.got| ==> ReplyOk(n.sent, forwarded, slack, c, j, n.got[j]))
  }

  predicate QueryOk(conns: seq<Conn>, q: Query) {
    q.FromClient? ==>
      && q.c < |conns|
      && q.k < conns[q.c].taken <= |conns[q.c].sent|
      && !conns[q.c].sent[q.k].stop
      && (conns[q.c].stage.Waiting? || conns[q.c].stage.Asking? ==> q.k < conns[q.c].taken - 1)
  }

  predicate SameClient(p: Query, q: Query) { p.FromClient? && q.FromClient? && p.c == q.c }

  predicate ConnsOk(s: State) {
    forall c :: 0 <= c < |s.conns| ==> ConnOk(s.forwarded, s.leftover, c, s.conns[c])
  }

  predicate QueriesOk(s: State) {
    && (forall i :: 0 <= i < |s.forwarded| ==> QueryOk(s.conns, s.forwarded[i]))
    && (forall i, j :: 0 <= i < j < |s.forwarded| && SameClient(s.forwarded[i], s.forwarded[j]) ==>
          s.forwarded[i].k < s.forwarded[j].k)
  }

  /** The mutex: the owner is the one task in flight. */
  predicate LockOk(s: State) {
    && (s.lock.Some? ==> Known(s, s.lock.value) && InFlight(StageOf(s, s.lock.value)))
    && (forall c :: 0 <= c < |s.conns| && InFlight(s.conns[c].stage) ==> s.lock == Some(Client(c)))
    && (InFlight(s.keep) ==> s.lock == Some(Keepalive))
    && !s.keep.Replying?
  }

  predicate AwaitingAnswer(s: State) {
    s.lock.Some? && Known(s, s.lock.value) && StageOf(s, s.lock.value).Sent?
  }

  predicate StreamOk(s: State) {
    && s.read <= s.answered <= |s.forwarded|
    && |s.forwarded| - s.read == s.leftover + (if AwaitingAnswer(s) then 1 else 0)
    && (AwaitingAnswer(s) ==>
          && s.forwarded != []
          && (s.lock.value.Client? ==> s.conns[s.lock.value.c].taken > 0)
          && s.forwarded[|s.forwarded| - 1] == QueryOf(s, s.lock.value))
  }

  predicate NotForwarded(forwarded: seq<Query>, c: nat, k: nat) {
    forall i :: 0 <= i < |forwarded| ==> forwarded[i] != FromClient(c, k)
  }

  /** A request reported as failed before sending was indeed never sent. */
  predicate UnsentOk(forwarded: seq<Query>, c: nat, n: Conn) {
    && (n.stage == Replying(RemoteError(None)) && n.taken > 0 ==> NotForwarded(forwarded, c, n.taken - 1))
    && (forall j :: 0 <= j < |n.got| && n.got[j] == RemoteError(None) ==> NotForwarded(forwarded, c, j))
  }

  predicate UnsentsOk(s: State) {
    forall c :: 0 <= c < |s.conns| ==> UnsentOk(s.forwarded, c, s.conns[c])
  }

  predicate Inv(s: State) {
    ConnsOk(s) && QueriesOk(s) && LockOk(s) && StreamOk(s) && UnsentsOk(s)
  }

  lemma ConnGrows(f: seq<Query>, g: seq<Query>, a: nat, b: nat, c: nat, n: Conn)
    requires ConnOk(f, a, c, n) && f <= g && a <= b
    ensures ConnOk(g, b, c, n)
  {
    forall j | 0 <= j < |n.got| ensures ReplyOk(n.sent, g, b, c, j, n.got[j]) {
      assert ReplyOk(n.sent, f, a, c, j, n.got[j]);
    }
  }

  lemma KeepsConns(s: State, step: Step)
    requires Inv(s) && Enabled(s, step)
    ensures ConnsOk(Do(s, step))
  {
    var t := Do(s, step);
    assert s.forwarded <= t.forwarded && s.leftover <= t.leftover;
    forall c | 0 <= c < |t.conns| ensures ConnOk(t.forwarded, t.leftover, c, t.conns[c]) {
      if c < |s.conns| {
        ConnGrows(s.forwarded, t.forwarded, s.leftover, t.leftover, c, s.conns[c]);
        ConnStep(s, step, t, c);
      }
    }
  }

  predicate IsOwnerStep(step: Step) {
    step.Lock? || step.Send? || step.SendFails? || step.Read? || step.ReadFails?
  }

  /** What a step does to one connection. */
  lemma ConnStep(s: State, step: Step, t: State, c: nat)
    requires LockOk(s) && StreamOk(s) && Enabled(s, step) && t == Do(s, step) && c < |s.conns| && c < |t.conns|
    requires ConnOk(s.forwarded, s.leftover, c, s.conns[c]) && ConnOk(t.forwarded, t.leftover, c, s.conns[c])
    ensures ConnOk(t.forwarded, t.leftover, c, t.conns[c])
  {
    if IsOwnerStep(step) {
      if step.o == Client(c) {
        ConnOwnerStep(s, step);
      }
    } else if step.Write? {
      ConnWrite(s.forwarded, s.leftover, c, s.conns[c], t.conns[c]);
    } else {
      ConnLocalStep(s, step, c);
    }
  }

  lemma ConnLocalStep(s: State, step: Step, c: nat)
    requires Enabled(s, step) && !IsOwnerStep(step) && !step.Write? && c < |s.conns|
    requires ConnOk(s.forwarded, s.leftover, c, s.conns[c])
    ensures ConnOk(s.forwarded, s.leftover, c, Do(s, step).conns[c])
  {
  }

  lemma ConnOwnerStep(s: State, step: Step)
    requires LockOk(s) && StreamOk(s) && Enabled(s, step) && IsOwnerStep(step) && step.o.Client?
    requires ConnOk(Do(s, step).forwarded, Do(s, step).leftover, step.o.c, s.conns[step.o.c])
    ensures ConnOk(Do(s, step).forwarded, Do(s, step).leftover, step.o.c, Do(s, step).conns[step.o.c])
  {
    if step.Read? || step.ReadFails? {
      assert s.lock == Some(step.o);
    }
  }

  lemma ConnWrite(f: seq<Query>, a: nat, c: nat, n: Conn, m: Conn)
    requires ConnOk(f, a, c, n) && n.sent <= m.sent && m == n.(sent := m.sent)
    ensures ConnOk(f, a, c, m)
  {
    forall j | 0 <= j < |n.got| ensures ReplyOk(m.sent, f, a, c, j, m.got[j]) {
      assert ReplyOk(n.sent, f, a, c, j, n.got[j]);
    }
  }

  lemma KeepsQueries(s: State, step: Step)
    requires Inv(s) && Enabled(s, step)
    ensures QueriesOk(Do(s, step))
  {
    var t := Do(s, step);
    forall i | 0 <= i < |s.forwarded| ensures QueryOk(t.conns, s.forwarded[i]) {
      assert QueryOk(s.conns, s.forwarded[i]);
      QueryStep(s, step, s.forwarded[i]);
    }
    if step.Send? {
      SendKeepsQueries(s, step.o);
    } else {
      assert t.forwarded == s.forwarded;
    }
  }

  lemma SendKeepsQueries(s: State, o: Owner)
    requires ConnsOk(s) && QueriesOk(s) && Enabled(s, Send(o))
    ensures var t := Do(s, Send(o));
      && QueryOk(t.conns, t.forwarded[|s.forwarded|])
      && forall i :: 0 <= i < |s.forwarded| && SameClient(s.forwarded[i], t.forwarded[|s.forwarded|]) ==>
           s.forwarded[i].k < t.forwarded[|s.forwarded|].k
  {
    if o.Client? {
      assert ConnOk(s.forwarded, s.leftover, o.c, s.conns[o.c]);
      forall i | 0 <= i < |s.forwarded| && SameClient(s.forwarded[i], QueryOf(s, o)) ensures s.forwarded[i].k < QueryOf(s, o).k {
        assert QueryOk(s.conns, s.forwarded[i]);
      }
    }
  }

  /** How a connection moves: it only takes requests one by one, and never goes back to waiting for
      a request it has sent. */
  lemma ConnMoves(s: State, step: Step, c: nat)
    requires Enabled(s, step) && c < |s.conns| && s.conns[c].taken <= |s.conns[c].sent|
    ensures c < |Do(s, step).conns|
    ensures var n, m := s.conns[c], Do(s, step).conns[c];
      && n.taken <= m.taken <= |m.sent| && n.sent <= m.sent
      && (m.stage.Waiting? || m.stage.Asking? ==> m.taken > n.taken || n.stage.Waiting? || n.stage.Asking?)
  {
  }

  lemma QueryStep(s: State, step: Step, q: Query)
    requires Enabled(s, step) && QueryOk(s.conns, q)
    ensures QueryOk(Do(s, step).conns, q)
  {
    if q.FromClient? {
      ConnMoves(s, step, q.c);
    }
  }

  lemma NotYetForwarded(conns: seq<Conn>, forwarded: seq<Query>, c: nat)
    requires c < |conns| && (conns[c].stage.Asking?) && conns[c].taken > 0
    requires forall i :: 0 <= i < |forwarded| ==> QueryOk(conns, forwarded[i])
    ensures NotForwarded(forwarded, c, conns[c].taken - 1)
  {
    forall i | 0 <= i < |forwarded| ensures forwarded[i] != FromClient(c, conns[c].taken - 1) {
      assert QueryOk(conns, forwarded[i]);
    }
  }

  lemma UnsentSend(forwarded: seq<Query>, c: nat, n: Conn, q: Query)
    requires UnsentOk(forwarded, c, n) && (q.FromClient? && q.c == c ==> q.k >= |n.got| && !n.stage.Replying?)
    ensures UnsentOk(forwarded + [q], c, n)
  {
  }

  /** The handler's reply reaches the client. */
  lemma UnsentDeliver(forwarded: seq<Query>, c: nat, n: Conn)
    requires UnsentOk(forwarded, c, n) && n.stage.Replying? && |n.got| + 1 == n.taken
    ensures UnsentOk(forwarded, c, n.(stage := Reading, got := n.got + [n.stage.r]))
  {
  }

  /** Steps that add no reply of this kind. */
  lemma UnsentSame(forwarded: seq<Query>, c: nat, n: Conn, m: Conn)
    requires UnsentOk(forwarded, c, n) && (m.got == n.got || m.got == n.got + [Stopping])
    requires m.stage == Replying(RemoteError(None)) ==> m.stage == n.stage && m.taken == n.taken
    ensures UnsentOk(forwarded, c, m)
  {
  }

  lemma QuietStep(s: State, step: Step, c: nat)
    requires Enabled(s, step) && c < |s.conns| && !(step.SendFails? && step.o == Client(c)) && step != Deliver(c)
    ensures var n, m := s.conns[c], Do(s, step).conns[c];
      && (m.got == n.got || m.got == n.got + [Stopping])
      && (m.stage == Replying(RemoteError(None)) ==> m.stage == n.stage && m.taken == n.taken)
  {
  }

  lemma UnsentStep(s: State, step: Step, c: nat)
    requires Enabled(s, step) && !step.Send? && c < |s.conns| && QueriesOk(s)
    requires UnsentOk(s.forwarded, c, s.conns[c]) && ConnOk(s.forwarded, s.leftover, c, s.conns[c])
    ensures UnsentOk(s.forwarded, c, Do(s, step).conns[c])
  {
    if step.SendFails? && step.o == Client(c) {
      NotYetForwarded(s.conns, s.forwarded, c);
    } else if step == Deliver(c) {
      UnsentDeliver(s.forwarded, c, s.conns[c]);
    } else {
      QuietStep(s, step, c);
      UnsentSame(s.forwarded, c, s.conns[c], Do(s, step).conns[c]);
    }
  }

  lemma KeepsUnsent(s: State, step: Step)
    requires Inv(s) && Enabled(s, step)
    ensures UnsentsOk(Do(s, step))
  {
    var t := Do(s, step);
    forall c | 0 <= c < |t.conns| ensures UnsentOk(t.forwarded, c, t.conns[c]) {
      if c < |s.conns| {
        assert UnsentOk(s.forwarded, c, s.conns[c]) && ConnOk(s.forwarded, s.leftover, c, s.conns[c]);
        if step.Send? {
          UnsentSend(s.forwarded, c, s.conns[c], QueryOf(s, step.o));
        } else {
          UnsentStep(s, step, c);
        }
      }
    }
  }

  lemma OwnerHoldsLock(s: State, step: Step)
    requires LockOk(s) && Enabled(s, step) && IsOwnerStep(step)
    ensures step.Lock? ==> s.lock.None?
    ensures !step.Lock? ==> s.lock == Some(step.o)
  {
  }

  /** A step of an owner changes its own stage, and the lock to match. */
  lemma OwnerStepEffect(s: State, step: Step)
    requires LockOk(s) && Enabled(s, step) && IsOwnerStep(step)
    ensures var t := Do(s, step);
      && |t.conns| == |s.conns| && t.conns == (SetStage(s, step.o, StageOf(t, step.o))).conns
      && t.keep == (SetStage(s, step.o, StageOf(t, step.o))).keep
  {
  }

  lemma OwnerStepLock(s: State, step: Step)
    requires LockOk(s) && Enabled(s, step) && IsOwnerStep(step)
    ensures var t := Do(s, step);
      && (InFlight(StageOf(t, step.o)) <==> t.lock == Some(step.o))
      && (!InFlight(StageOf(t, step.o)) ==> t.lock.None?)
      && (step.o.Keepalive? ==> !t.keep.Replying?)
  {
  }

  lemma KeepsLock(s: State, step: Step)
    requires LockOk(s) && Enabled(s, step)
    ensures LockOk(Do(s, step))
  {
    if IsOwnerStep(step) {
      OwnerHoldsLock(s, step);
      OwnerStepEffect(s, step);
      OwnerStepLock(s, step);
    } else {
      LocalStepLock(s, step);
    }
  }

  lemma LocalStepLock(s: State, step: Step)
    requires LockOk(s) && Enabled(s, step) && !IsOwnerStep(step)
    ensures LockOk(Do(s, step))
  {
  }

  lemma KeepsStreamOwner(s: State, step: Step)
    requires LockOk(s) && StreamOk(s) && Enabled(s, step) && IsOwnerStep(step)
    ensures StreamOk(Do(s, step))
  {
    OwnerHoldsLock(s, step);
  }

  lemma KeepsStreamOther(s: State, step: Step)
    requires LockOk(s) && StreamOk(s) && Enabled(s, step) && !IsOwnerStep(step)
    ensures StreamOk(Do(s, step))
  {
    var t := Do(s, step);
    if s.lock.Some? {
      assert StageOf(t, s.lock.value) == StageOf(s, s.lock.value);
      assert AwaitingAnswer(t) == AwaitingAnswer(s);
    }
  }

  lemma StepKeeps(s: State, step: Step)
    requires Inv(s) && Enabled(s, step)
    ensures Inv(Do(s, step))
  {
    KeepsConns(s, step);
    KeepsQueries(s, step);
    KeepsLock(s, step);
    KeepsUnsent(s, step);
    if IsOwnerStep(step) {
      KeepsStreamOwner(s, step);
    } else {
      KeepsStreamOther(s, step);
    }
  }

  lemma {:induction false} RunKeeps(s: State, steps: seq<Step>)
    requires Inv(s) && IsRun(s, steps)
    ensures Inv(Final(s, steps))
    decreases |steps|
  {
    if steps != [] {
      StepKeeps(s, steps[0]);
      RunKeeps(Do(s, steps[0]), steps[1..]);
    }
  }

  // ---- Main results ---------------------------------------------------------------------

  /** The step leaves the stream out of step: a failed read that does not consume its reply (a
      timeout, a connection error), or a request that is sent in part. */
  predicate Unsettles(step: Step) { (step.ReadFails? && !step.fate.Consumed?) || (step.SendFails? && step.partly) }

  predicate Clean(steps: seq<Step>) { forall i :: 0 <= i < |steps| ==> !Unsettles(steps[i]) }

  predicate Settled(s: State) { s.leftover == 0 && !s.torn }

  lemma CleanStep(steps: seq<Step>)
    requires steps != []
    ensures Clean(steps) <==> !Unsettles(steps[0]) && Clean(steps[1..])
  {
    assert forall i :: 0 < i < |steps| ==> steps[i] == steps[1..][i - 1];
  }

  lemma {:induction false} NeverSettlesAgain(s: State, steps: seq<Step>)
    requires IsRun(s, steps) && !Settled(s)
    ensures !Settled(Final(s, steps))
    decreases |steps|
  {
    if steps != [] {
      NeverSettlesAgain(Do(s, steps[0]), steps[1..]);
    }
  }

  lemma {:induction false} SettledIff(s: State, steps: seq<Step>)
    requires IsRun(s, steps) && Settled(s)
    ensures Settled(Final(s, steps)) <==> Clean(steps)
    decreases |steps|
  {
    if steps != [] {
      CleanStep(steps);
      assert Settled(Do(s, steps[0])) <==> !Unsettles(steps[0]);
      if Unsettles(steps[0]) {
        NeverSettlesAgain(Do(s, steps[0]), steps[1..]);
      } else {
        SettledIff(Do(s, steps[0]), steps[1..]);
      }
    }
  }

  /** In every interleaving in which no step leaves the stream out of step, a free lock means a
      quiet stream, and reply `j` of every client answers exactly its request `j`, or says truly
      that it failed before or after it was sent; there is at most one such report for each failure
      of that client's own requests. */
  lemma {:induction false} RepliesArePaired(steps: seq<Step>)
    requires IsRun(Init(), steps) && Clean(steps)
    ensures var s := Final(Init(), steps);
      && (s.lock.None? ==> s.read == s.answered == |s.forwarded|)
      && (forall c :: 0 <= c < |s.conns| ==> PairedConn(s.forwarded, c, s.conns[c]))
      && (forall c: nat :: Held(s, c, AnError) <= Caused(false, steps, c, AnError))
  {
    forall c: nat ensures Held(Final(Init(), steps), c, AnError) <= Caused(false, steps, c, AnError) {
      RepliesAreCaused(steps, c, AnError);
    }
    RunKeeps(Init(), steps);
    SettledIff(Init(), steps);
    var s := Final(Init(), steps);
    forall c | 0 <= c < |s.conns| ensures PairedConn(s.forwarded, c, s.conns[c]) {
      assert ConnOk(s.forwarded, 0, c, s.conns[c]) && UnsentOk(s.forwarded, c, s.conns[c]);
      forall j | 0 <= j < |s.conns[c].got| ensures PairedReply(s.forwarded, c, s.conns[c].sent, j, s.conns[c].got[j]) {
        assert ReplyOk(s.conns[c].sent, s.forwarded, 0, c, j, s.conns[c].got[j]);
      }
    }
  }

  predicate PairedReply(forwarded: seq<Query>, c: nat, sent: seq<Request>, j: nat, r: Reply) {
    && j < |sent|
    && (sent[j].stop <==> r == Stopping) && !r.Garbled?
    && (r.Answer? ==> r.pos < |forwarded| && forwarded[r.pos] == FromClient(c, j))
    && (r.RemoteError? && r.q.Some? ==> r.q.value < |forwarded| && forwarded[r.q.value] == FromClient(c, j))
    && (r == RemoteError(None) ==> NotForwarded(forwarded, c, j))
  }

  /** Replies come in request order, none is missing or extra while the connection is up. */
  predicate PairedConn(forwarded: seq<Query>, c: nat, n: Conn) {
    && |n.got| <= n.taken <= |n.sent|
    && (!n.stage.Closed? ==> n.taken <= |n.got| + 1)
    && (forall j :: 0 <= j < |n.got| ==> PairedReply(forwarded, c, n.sent, j, n.got[j]))
  }

  // ---- Every reply has its cause -----------------------------------------------------------

  /** Kinds of replies to a request that is forwarded. */
  datatype Kind = AnAnswer | AnError | Garbage

  predicate IsKind(r: Reply, k: Kind) {
    match k
    case AnAnswer => r.Answer?
    case AnError => r.RemoteError?
    case Garbage => r.Garbled?
  }

  /** The step cuts a frame in two. */
  predicate Tears(step: Step) { (step.ReadFails? && step.fate.Torn?) || (step.SendFails? && step.partly) }

  /** The step makes a reply of kind `k` for client `c`: a read answers it, or garbles it if a frame
      was cut before; only a failure makes an error. */
  predicate Causes(torn: bool, step: Step, c: nat, k: Kind) {
    match k
    case AnAnswer => step == Read(Client(c)) && !torn
    case Garbage => step == Read(Client(c)) && torn
    case AnError => (step.SendFails? || step.ReadFails?) && step.o == Client(c)
  }

  function Caused(torn: bool, steps: seq<Step>, c: nat, k: Kind): nat
    decreases |steps|
  {
    if steps == [] then 0
    else (if Causes(torn, steps[0], c, k) then 1 else 0) + Caused(torn || Tears(steps[0]), steps[1..], c, k)
  }

  function CountKind(got: seq<Reply>, k: Kind): nat {
    if got == [] then 0
    else CountKind(got[..|got| - 1], k) + (if IsKind(got[|got| - 1], k) then 1 else 0)
  }

  /** Replies of a kind a client was given, or is about to be. */
  function Held(s: State, c: nat, k: Kind): nat {
    if c >= |s.conns| then 0
    else CountKind(s.conns[c].got, k)
         + (if s.conns[c].stage.Replying? && IsKind(s.conns[c].stage.r, k) then 1 else 0)
  }

  lemma CountSnoc(got: seq<Reply>, r: Reply, k: Kind)
    ensures CountKind(got + [r], k) == CountKind(got, k) + (if IsKind(r, k) then 1 else 0)
  {
    assert (got + [r])[..|got|] == got;
  }

  lemma OwnerCauses(s: State, step: Step, c: nat, k: Kind)
    requires Enabled(s, step) && IsOwnerStep(step) && c < |s.conns|
    ensures var n, m := s.conns[c], Do(s, step).conns[c];
      && m.got == n.got
      && (step.o == Client(c) ==> (m.stage.Replying? && IsKind(m.stage.r, k) <==> Causes(s.torn, step, c, k)))
      && (step.o == Client(c) ==> !n.stage.Replying?)
      && (step.o != Client(c) ==> m == n && !Causes(s.torn, step, c, k))
  {
  }

  /** The other steps move the reply on or leave it. */
  lemma LocalCauses(s: State, step: Step, c: nat)
    requires Enabled(s, step) && !IsOwnerStep(step) && c < |s.conns| && step != Deliver(c) && step != DeliverFails(c)
    ensures var n, m := s.conns[c], Do(s, step).conns[c];
      && (m.got == n.got || m.got == n.got + [Stopping])
      && (m.stage.Replying? || n.stage.Replying? ==> m.stage == n.stage)
  {
  }

  lemma StepCauses(s: State, step: Step, c: nat, k: Kind)
    requires Enabled(s, step) && step != DeliverFails(c)
    ensures Held(Do(s, step), c, k) == Held(s, c, k) + (if Causes(s.torn, step, c, k) then 1 else 0)
  {
    if c < |s.conns| {
      if IsOwnerStep(step) {
        OwnerCauses(s, step, c, k);
      } else if step == Deliver(c) {
        CountSnoc(s.conns[c].got, s.conns[c].stage.r, k);
      } else {
        CountSnoc(s.conns[c].got, Stopping, k);
        LocalCauses(s, step, c);
      }
    } else {
      NewConnHoldsNothing(s, step, c, k);
    }
  }

  lemma NewConnHoldsNothing(s: State, step: Step, c: nat, k: Kind)
    requires Enabled(s, step) && c >= |s.conns|
    ensures Held(Do(s, step), c, k) == 0 && !Causes(s.torn, step, c, k)
  {
  }

  lemma StepTears(s: State, step: Step)
    requires Enabled(s, step)
    ensures Do(s, step).torn == (s.torn || Tears(step))
  {
  }

  lemma {:induction false} RunCauses(s: State, steps: seq<Step>, c: nat, k: Kind)
    requires IsRun(s, steps)
    ensures Held(Final(s, steps), c, k) <= Held(s, c, k) + Caused(s.torn, steps, c, k)
    ensures DeliverFails(c) !in steps ==> Held(Final(s, steps), c, k) == Held(s, c, k) + Caused(s.torn, steps, c, k)
    decreases |steps|
  {
    if steps != [] {
      if steps[0] != DeliverFails(c) {
        StepCauses(s, steps[0], c, k);
      }
      StepTears(s, steps[0]);
      RunCauses(Do(s, steps[0]), steps[1..], c, k);
    }
  }

  /** In every run, whatever fails: of each kind a client gets no more replies than the run has causes
      for, and exactly as many unless a delivery to it failed. So every whole read on an uncut stream
      is answered, and there is at most one error for each failure of that client's own requests. */
  lemma {:induction false} RepliesAreCaused(steps: seq<Step>, c: nat, k: Kind)
    requires IsRun(Init(), steps)
    ensures Held(Final(Init(), steps), c, k) <= Caused(false, steps, c, k)
    ensures DeliverFails(c) !in steps ==> Held(Final(Init(), steps), c, k) == Caused(false, steps, c, k)
  {
    RunCauses(Init(), steps, c, k);
  }

  predicate OwnFailure(step: Step, c: nat) { (step.SendFails? || step.ReadFails?) && step.o == Client(c) }

  lemma {:induction false} NoCause(torn: bool, steps: seq<Step>, c: nat)
    ensures (forall i :: 0 <= i < |steps| ==> !OwnFailure(steps[i], c)) ==> Caused(torn, steps, c, AnError) == 0
    ensures !torn && (forall i :: 0 <= i < |steps| ==> !Tears(steps[i])) ==> Caused(torn, steps, c, Garbage) == 0
    decreases |steps|
  {
    if steps != [] {
      NoCause(torn || Tears(steps[0]), steps[1..], c);
      assert forall i :: 0 < i < |steps| ==> steps[i] == steps[1..][i - 1];
    }
  }

  lemma {:induction false} NoneCounted(got: seq<Reply>, k: Kind, j: nat)
    requires CountKind(got, k) == 0 && j < |got|
    ensures !IsKind(got[j], k)
  {
    if j < |got| - 1 {
      NoneCounted(got[..|got| - 1], k, j);
    }
  }

  /** A client none of whose requests failed, in a run in which no step leaves the stream out of step,
      reads nothing but the answers to its own requests and the farewell to its stop. */
  lemma {:induction false} UnfailedIsAnswered(steps: seq<Step>, c: nat, j: nat)
    requires IsRun(Init(), steps) && Clean(steps) && forall i :: 0 <= i < |steps| ==> !OwnFailure(steps[i], c)
    requires c < |Final(Init(), steps).conns| && j < |Final(Init(), steps).conns[c].got|
    ensures var s := Final(Init(), steps);
      var r := s.conns[c].got[j];
      && j < |s.conns[c].sent|
      && if s.conns[c].sent[j].stop then r == Stopping
         else r.Answer? && r.pos < |s.forwarded| && s.forwarded[r.pos] == FromClient(c, j)
  {
    var s := Final(Init(), steps);
    RepliesArePaired(steps);
    assert PairedConn(s.forwarded, c, s.conns[c]);
    assert PairedReply(s.forwarded, c, s.conns[c].sent, j, s.conns[c].got[j]);
    RepliesAreCaused(steps, c, AnError);
    NoCause(false, steps, c);
    NoneCounted(s.conns[c].got, AnError, j);
  }

  // ---- What ends a connection, the keepalive and the master --------------------------------

  predicate Happens(steps: seq<Step>, p: Step -> bool) { exists i :: 0 <= i < |steps| && p(steps[i]) }

  lemma HappensTail(steps: seq<Step>, p: Step -> bool)
    requires steps != []
    ensures Happens(steps, p) <==> p(steps[0]) || Happens(steps[1..], p)
  {
    assert forall i :: 0 < i < |steps| ==> steps[i] == steps[1..][i - 1];
    if i :| 0 <= i < |steps[1..]| && p(steps[1..][i]) {
      assert p(steps[i + 1]);
    }
  }

  predicate KeepaliveFails(step: Step) { (step.SendFails? || step.ReadFails?) && step.o.Keepalive? }

  predicate WasStopped(s: State, c: nat) { c < |s.conns| && Stopping in s.conns[c].got }

  predicate IsClosed(s: State, c: nat) { c < |s.conns| && s.conns[c].stage.Closed? }

  function LeavesClient(c: nat): Step -> bool { (step: Step) => step == HangUp(c) || step == DeliverFails(c) }

  lemma StepCloses(s: State, step: Step, c: nat)
    requires Enabled(s, step) && (WasStopped(s, c) ==> IsClosed(s, c)) && ConnsOk(s)
    ensures var t := Do(s, step);
      && (WasStopped(s, c) ==> WasStopped(t, c)) && (WasStopped(t, c) ==> IsClosed(t, c))
      && (IsClosed(t, c) <==> IsClosed(s, c) || WasStopped(t, c) || LeavesClient(c)(step))
  {
    if c < |s.conns| {
      assert ConnOk(s.forwarded, s.leftover, c, s.conns[c]);
      if IsOwnerStep(step) {
        OwnerCloses(s, step, c);
      } else {
        LocalCloses(s, step, c);
      }
    }
  }

  lemma OwnerCloses(s: State, step: Step, c: nat)
    requires Enabled(s, step) && IsOwnerStep(step) && c < |s.conns|
    ensures var n, m := s.conns[c], Do(s, step).conns[c];
      m.got == n.got && !LeavesClient(c)(step) && (m.stage.Closed? <==> n.stage.Closed?)
  {
  }

  lemma LocalCloses(s: State, step: Step, c: nat)
    requires Enabled(s, step) && !IsOwnerStep(step) && c < |s.conns| && ConnOk(s.forwarded, s.leftover, c, s.conns[c])
    requires Stopping in s.conns[c].got ==> s.conns[c].stage.Closed?
    ensures var n, m := s.conns[c], Do(s, step).conns[c];
      && n.got <= m.got && (Stopping in m.got ==> Stopping in n.got || m.stage.Closed?)
      && (n.stage.Closed? ==> m.stage.Closed?)
      && (m.stage.Closed? <==> n.stage.Closed? || LeavesClient(c)(step) || (Stopping in m.got && Stopping !in n.got))
  {
  }

  lemma {:induction false} RunCloses(s: State, steps: seq<Step>, c: nat)
    requires IsRun(s, steps) && (WasStopped(s, c) ==> IsClosed(s, c)) && Inv(s)
    ensures var t := Final(s, steps);
      && (WasStopped(s, c) ==> WasStopped(t, c))
      && (IsClosed(t, c) <==> IsClosed(s, c) || WasStopped(t, c) || Happens(steps, LeavesClient(c)))
    decreases |steps|
  {
    if steps != [] {
      StepKeeps(s, steps[0]);
      StepCloses(s, steps[0], c);
      HappensTail(steps, LeavesClient(c));
      RunCloses(Do(s, steps[0]), steps[1..], c);
    }
  }

  lemma LeavesIff(steps: seq<Step>, c: nat)
    ensures Happens(steps, LeavesClient(c)) <==> HangUp(c) in steps || DeliverFails(c) in steps
  {
    if i :| 0 <= i < |steps| && steps[i] in [HangUp(c), DeliverFails(c)] {
      assert LeavesClient(c)(steps[i]);
    }
  }

  /** A connection is closed exactly when the client hung up, a delivery to it failed, or it asked the
      master to stop: a failed request does not close it. */
  lemma {:induction false} ClosesIff(steps: seq<Step>, c: nat)
    requires IsRun(Init(), steps) && c < |Final(Init(), steps).conns|
    ensures Final(Init(), steps).conns[c].stage.Closed? <==>
      Stopping in Final(Init(), steps).conns[c].got || HangUp(c) in steps || DeliverFails(c) in steps
  {
    RunCloses(Init(), steps, c);
    LeavesIff(steps, c);
  }

  predicate SomeStopped(s: State) { exists c :: 0 <= c < |s.conns| && Stopping in s.conns[c].got }

  /** The step takes a stop request. */
  predicate TakesStop(s: State, step: Step) {
    step.Take? && step.c < |s.conns| && s.conns[step.c].taken < |s.conns[step.c].sent| && s.conns[step.c].sent[s.conns[step.c].taken].stop
  }

  lemma FlagsStep(s: State, step: Step)
    requires Enabled(s, step)
    ensures var t := Do(s, step);
      && (t.keep.Closed? <==> s.keep.Closed? || KeepaliveFails(step))
      && (t.stopped <==> s.stopped || KeepaliveFails(step) || TakesStop(s, step))
      && |s.conns| <= |t.conns|
      && (TakesStop(s, step) ==> t.conns[step.c].got == s.conns[step.c].got + [Stopping])
  {
    if IsOwnerStep(step) {
      OwnerFlags(s, step);
    }
  }

  lemma OwnerFlags(s: State, step: Step)
    requires Enabled(s, step) && IsOwnerStep(step)
    ensures var t := Do(s, step);
      && (t.keep.Closed? <==> s.keep.Closed? || KeepaliveFails(step))
      && (t.stopped <==> s.stopped || KeepaliveFails(step))
      && |s.conns| == |t.conns|
  {
  }

  /** Only taking a stop request tells a client that the master is stopping. */
  lemma StopReply(s: State, step: Step, c: nat)
    requires Enabled(s, step) && ConnsOk(s) && c < |Do(s, step).conns|
    ensures Stopping in Do(s, step).conns[c].got <==>
      (c < |s.conns| && Stopping in s.conns[c].got) || (TakesStop(s, step) && step.c == c)
  {
    if c < |s.conns| {
      assert ConnOk(s.forwarded, s.leftover, c, s.conns[c]);
      if IsOwnerStep(step) {
        OwnerCloses(s, step, c);
      } else {
        LocalStopReply(s, step, c);
      }
    }
  }

  lemma LocalStopReply(s: State, step: Step, c: nat)
    requires Enabled(s, step) && !IsOwnerStep(step) && c < |s.conns| && ConnOk(s.forwarded, s.leftover, c, s.conns[c])
    ensures Stopping in Do(s, step).conns[c].got <==> Stopping in s.conns[c].got || (TakesStop(s, step) && step.c == c)
  {
  }

  lemma StepStops(s: State, step: Step)
    requires Enabled(s, step) && ConnsOk(s)
    ensures var t := Do(s, step);
      && (t.keep.Closed? <==> s.keep.Closed? || KeepaliveFails(step))
      && (t.stopped <==> s.stopped || KeepaliveFails(step) || TakesStop(s, step))
      && (SomeStopped(t) <==> SomeStopped(s) || TakesStop(s, step))
  {
    FlagsStep(s, step);
    var t := Do(s, step);
    forall c | 0 <= c < |t.conns|
      ensures Stopping in t.conns[c].got <==> (c < |s.conns| && Stopping in s.conns[c].got) || (TakesStop(s, step) && step.c == c)
    {
      StopReply(s, step, c);
    }
    if SomeStopped(s) {
      var c :| 0 <= c < |s.conns| && Stopping in s.conns[c].got;
      assert Stopping in t.conns[c].got;
    }
  }

  lemma {:induction false} RunStops(s: State, steps: seq<Step>)
    requires IsRun(s, steps) && Inv(s) && (SomeStopped(s) ==> s.stopped)
    ensures var t := Final(s, steps);
      && (t.keep.Closed? <==> s.keep.Closed? || Happens(steps, KeepaliveFails))
      && (t.stopped <==> s.stopped || Happens(steps, KeepaliveFails) || SomeStopped(t))
      && (SomeStopped(s) ==> SomeStopped(t))
    decreases |steps|
  {
    if steps != [] {
      StepKeeps(s, steps[0]);
      StepStops(s, steps[0]);
      HappensTail(steps, KeepaliveFails);
      RunStops(Do(s, steps[0]), steps[1..]);
    }
  }

  /** The master stops exactly when a ping failed or a client was told that it is stopping; the
      keepalive task ends exactly in the first case. */
  lemma {:induction false} StopsIff(steps: seq<Step>)
    requires IsRun(Init(), steps)
    ensures var s := Final(Init(), steps);
      && (s.keep.Closed? <==> Happens(steps, KeepaliveFails))
      && (s.stopped <==> Happens(steps, KeepaliveFails) || SomeStopped(s))
  {
    RunStops(Init(), steps);
  }

  /** No step of a failure, and none that a client takes by itself. */
  predicate Serves(step: Step) { step.Lock? || step.Send? || step.RemoteAnswers? || step.Read? || step.Deliver? }

  /** The lock never blocks for good: while a request is pending, some task can serve one without any
      failure, though the remote has to answer. */
  lemma Progress(s: State, c: nat) returns (step: Step)
    requires Inv(s) && c < |s.conns| && Pending(s.conns[c].stage)
    ensures Enabled(s, step) && Serves(step)
  {
    if s.conns[c].stage.Replying? {
      step := Deliver(c);
    } else if s.lock.None? {
      step := Lock(Client(c));
    } else {
      step := HolderMoves(s, s.lock.value);
    }
  }

  lemma HolderMoves(s: State, o: Owner) returns (step: Step)
    requires ConnsOk(s) && LockOk(s) && StreamOk(s) && s.lock == Some(o)
    ensures Enabled(s, step) && Serves(step)
  {
    if StageOf(s, o).Asking? {
      step := Send(o);
      assert o.Client? ==> ConnOk(s.forwarded, s.leftover, o.c, s.conns[o.c]);
    } else if s.read < s.answered {
      step := Read(o);
    } else {
      step := RemoteAnswers;
    }
  }

  /** Whatever fails, `control-stop` is never forwarded and a client's requests reach the
      remote in order and at most once each. */
  lemma {:induction false} ForwardedInOrderOnce(steps: seq<Step>)
    requires IsRun(Init(), steps)
    ensures var s := Final(Init(), steps);
      && (forall i :: 0 <= i < |s.forwarded| && s.forwarded[i].FromClient? ==>
            && s.forwarded[i].c < |s.conns|
            && s.forwarded[i].k < |s.conns[s.forwarded[i].c].sent|
            && !s.conns[s.forwarded[i].c].sent[s.forwarded[i].k].stop)
      && (forall i, j :: 0 <= i < j < |s.forwarded| && SameClient(s.forwarded[i], s.forwarded[j]) ==>
            s.forwarded[i].k < s.forwarded[j].k)
  {
    RunKeeps(Init(), steps);
    var s := Final(Init(), steps);
    forall i | 0 <= i < |s.forwarded| ensures QueryOk(s.conns, s.forwarded[i]) {
    }
  }

  /** Exactly when pairing breaks: the answer a task reads is the one to its own query if and
      only if no earlier step left the stream out of step. One such step (the keepalive timeout)
      shifts or garbles every later answer. */
  lemma {:induction false} AnswerIsOwnIffClean(steps: seq<Step>, o: Owner)
    requires IsRun(Init(), steps) && Enabled(Final(Init(), steps), Read(o))
    ensures var s := Final(Init(), steps);
      && (o.Client? ==> s.conns[o.c].taken > 0)
      && s.forwarded[|s.forwarded| - 1] == QueryOf(s, o)
      && (s.read == |s.forwarded| - 1 && !s.torn <==> Clean(steps))
  {
    RunKeeps(Init(), steps);
    SettledIff(Init(), steps);
    OwnerHoldsLock(Final(Init(), steps), Read(o));
  }

  lemma ClientWrites(req: Request) returns (steps: seq<Step>, s: State)
    ensures IsRun(Init(), steps) && s == Final(Init(), steps)
    ensures s == State([Conn([req], 0, Reading, [])], Reading, None, [], 0, 0, 0, false, false)
  {
    steps, s := Go([], Init(), Connect);
    assert s.conns == [Conn([], 0, Reading, [])];
    steps, s := Go(steps, s, Write(0, req));
    assert s.conns[0].sent == [req];
    assert s.conns == [Conn([req], 0, Reading, [])];
  }

  lemma PingSent(req: Request) returns (steps: seq<Step>, s: State)
    ensures IsRun(Init(), steps) && s == Final(Init(), steps)
    ensures s == State([Conn([req], 0, Reading, [])], Sent, Some(Keepalive), [Ping], 0, 0, 0, false, false)
  {
    steps, s := ClientWrites(req);
    steps, s := Go(steps, s, Tick);
    steps, s := Go(steps, s, Lock(Keepalive));
    steps, s := Go(steps, s, Send(Keepalive));
  }

  /** The ping times out while a client waits for the lock. */
  lemma PingTimesOut(req: Request) returns (steps: seq<Step>, s: State)
    requires !req.stop
    ensures IsRun(Init(), steps) && s == Final(Init(), steps)
    ensures s == State([Conn([req], 1, Waiting, [])], Closed, None, [Ping], 0, 0, 1, false, true)
  {
    steps, s := PingSent(req);
    steps, s := Go(steps, s, Take(0));
    assert s.conns == [Conn([req], 1, Waiting, [])];
    steps, s := Go(steps, s, ReadFails(Keepalive, Left));
  }

  lemma ClientIsSent(req: Request) returns (steps: seq<Step>, s: State)
    requires !req.stop
    ensures IsRun(Init(), steps) && s == Final(Init(), steps)
    ensures s == State([Conn([req], 1, Sent, [])], Closed, Some(Client(0)), [Ping, FromClient(0, 0)], 0, 0, 1, false, true)
  {
    steps, s := PingTimesOut(req);
    steps, s := Go(steps, s, Lock(Client(0)));
    assert s.conns == [Conn([req], 1, Asking, [])];
    steps, s := Go(steps, s, Send(Client(0)));
    assert s.forwarded == [Ping, FromClient(0, 0)] && s.conns == [Conn([req], 1, Sent, [])];
  }

  /** The ping times out, and the client that was waiting for the lock is handed the pong. */
  lemma StalePongExample() returns (steps: seq<Step>, s: State)
    ensures IsRun(Init(), steps) && s == Final(Init(), steps)
    ensures |s.conns| == 1 && s.conns[0].sent == [Request(false, "ls")] && s.conns[0].got == [Answer(0, 1)]
    ensures s.forwarded == [Ping, FromClient(0, 0)]
  {
    steps, s := ClientIsSent(Request(false, "ls"));
    steps, s := Go(steps, s, RemoteAnswers);
    steps, s := Go(steps, s, Read(Client(0)));
    steps, s := Go(steps, s, Deliver(0));
  }

  /** Extends a run by one step. */
  lemma Go(steps: seq<Step>, s: State, step: Step) returns (steps': seq<Step>, t: State)
    requires IsRun(Init(), steps) && s == Final(Init(), steps) && Enabled(s, step)
    ensures steps' == steps + [step] && t == Do(s, step)
    ensures IsRun(Init(), steps') && t == Final(Init(), steps')
  {
    steps', t := steps + [step], Do(s, step);
    assert [step][1..] == [];
    RunAppend(Init(), steps, [step]);
  }

  lemma {:induction false} RunAppend(s: State, a: seq<Step>, b: seq<Step>)
    requires IsRun(s, a) && IsRun(Final(s, a), b)
    ensures IsRun(s, a + b) && Final(s, a + b) == Final(Final(s, a), b)
    decreases |a|
  {
    if a == [] {
      assert a + b == b;
    } else {
      assert (a + b)[1..] == a[1..] + b;
      RunAppend(Do(s, a[0]), a[1..], b);
    }
  }
}
