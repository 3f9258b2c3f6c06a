/** The SOCKS5 relay. */
module SocksRelay {
  // Between a SOCKS5 client and the wire protocol, for every schedule of its two arms.
  // The arm that receives a message reads a header and then a body; when the client's arm completes
  // first, the receive is dropped and the bytes it has read so far are gone.

  import opened Common
  import opened Wire

  const BUFFER: nat := 32768

  /** One event of the `select!`. The client's arm yields data, nothing (closed) or an error. The
      server's arm is offered `k` more bytes; one byte more than the stream holds is its end.
      `sent` and `wrote` tell how a write fails: after that many bytes, or not at all. */
  datatype Turn =
    | ClientRead(data: seq<byte>, sent: Option<nat>)
    | ClientError(sent: Option<nat>)
    | ServerBytes(k: nat, wrote: Option<nat>)

  datatype End = Running | ClientClosed | ServerClosed | SendFailed | WriteFailed

  predicate TurnsOk(turns: seq<Turn>) {
    forall i :: 0 <= i < |turns| && turns[i].ClientRead? ==> |turns[i].data| <= BUFFER
  }

  function Written(b: seq<byte>, failure: Option<nat>): seq<byte> {
    if failure.None? then b else Cut(b, failure.value)
  }

  /** The bytes read from the client, read by read, up to the first empty read. */
  function Uploads(turns: seq<Turn>): seq<seq<byte>>
    decreases |turns|
  {
    if turns == [] then []
    else
      var last := turns[|turns| - 1];
      Uploads(turns[..|turns| - 1]) + if last.ClientRead? && last.data != [] then [last.data] else []
  }

  // ---- Receiving piece by piece -----------------------------------------------------------

  datatype Polled = Pending | Got(data: seq<byte>) | Closed

  /** A receive that has been offered `h` bytes of `b`: it waits, has a message, or ends the relay
      (an empty message, a length over the limit, or the end of the stream). */
  function Poll(b: seq<byte>, h: nat): Polled {
    var r := Receive(if h <= |b| then b[..h] else b);
    if r.Message? && r.data != [] then Got(r.data)
    else if r.Starved? && h <= |b| then Pending
    else Closed
  }

  /** Position in the server's stream: where the current receive began, how much it holds, what
      was delivered before it, and how many bytes dropped receives took with them. */
  datatype Flow = Flow(at: nat, held: nat, delivered: seq<seq<byte>>, discarded: nat)

  predicate FlowOk(inbound: seq<byte>, f: Flow) { f.at + f.held <= |inbound| }

  function FlowStep(inbound: seq<byte>, f: Flow, turn: Turn): (g: Flow)
    requires FlowOk(inbound, f)
    ensures FlowOk(inbound, g)
  {
    if !turn.ServerBytes? then Flow(f.at + f.held, 0, f.delivered, f.discarded + f.held)
    else
      var p := Poll(inbound[f.at..], f.held + turn.k);
      if p.Pending? then f.(held := f.held + turn.k)
      else if p.Got? then
        GotFits(inbound[f.at..], f.held + turn.k);
        Flow(f.at + 4 + |p.data|, 0, f.delivered + [p.data], f.discarded)
      else f
  }

  function FlowOf(inbound: seq<byte>, turns: seq<Turn>): (f: Flow)
    ensures FlowOk(inbound, f)
    decreases |turns|
  {
    if turns == [] then Flow(0, 0, [], 0)
    else FlowStep(inbound, FlowOf(inbound, turns[..|turns| - 1]), turns[|turns| - 1])
  }

  lemma ReceiveGot(b: seq<byte>)
    requires Receive(b).Message?
    ensures var r := Receive(b); 4 + |r.data| <= |b| && b == b[..4] + r.data + r.rest && FromBigEndian(b[..4]) == |r.data| <= MAX_MESSAGE_SIZE
  {
  }

  lemma GotFits(b: seq<byte>, h: nat)
    requires Poll(b, h).Got?
    ensures 4 + |Poll(b, h).data| <= |b|
  {
  }

  /** More bytes do not change a message that is complete, or a refusal. */
  lemma ReceiveMore(b: seq<byte>, h: nat)
    requires h <= |b| && !Receive(b[..h]).Starved?
    ensures Receive(b).Message? == Receive(b[..h]).Message?
    ensures Receive(b).Message? ==> Receive(b).data == Receive(b[..h]).data && Receive(b).rest == b[4 + |Receive(b).data|..]
  {
    var c := b[..h];
    assert c[..4] == b[..4];
    if Receive(c).Message? {
      var n := FromBigEndian(c[..4]);
      assert c[4..4 + n] == b[4..4 + n];
    }
  }

  /** Whatever the pieces, a receive yields the first message of its stream, or its end. */
  lemma PollIsReceive(b: seq<byte>, h: nat)
    ensures var p := Poll(b, h);
      && (p.Got? ==> Receive(b) == Message(p.data, b[4 + |p.data|..]) && 4 + |p.data| <= |b|)
      && (p.Closed? ==> ReadStream(b).data == [])
  {
    if h <= |b| && !Receive(b[..h]).Starved? {
      ReceiveMore(b, h);
    }
    if Poll(b, h).Got? {
      ReceiveGot(b);
    }
  }

  /** Bytes of the message announced by a header. */
  function Announced(b: seq<byte>): nat
    requires |b| >= 4
  {
    ((b[0] as int * 256 + b[1] as int) * 256 + b[2] as int) * 256 + b[3] as int
  }

  lemma AnnouncedIs(b: seq<byte>)
    requires |b| == 4
    ensures FromBigEndian(b) == Announced(b)
  {
    assert b[..3][..2] == b[..2] && b[..3][..2][..1] == b[..1] && b[..1][..0] == [];
    assert FromBigEndian(b[..1]) == b[0];
    assert FromBigEndian(b[..2]) == b[0] as int * 256 + b[1] as int by { assert b[..2][..1] == b[..1]; }
  }

  /** When a receive waits and when it has its message, in bytes: it is offered `h` of the stream's
      bytes, or finds its end. Otherwise it ends the relay. */
  lemma PollIff(b: seq<byte>, h: nat)
    ensures Poll(b, h).Pending? <==>
      h <= |b| && (h < 4 || (Announced(b) <= 52_428_800 && h < 4 + Announced(b)))
    ensures Poll(b, h).Got? <==>
      4 <= h && 4 <= |b| && 0 < Announced(b) <= 52_428_800 && 4 + Announced(b) <= h && 4 + Announced(b) <= |b|
    ensures Poll(b, h).Got? ==> Poll(b, h).data == b[4..4 + Announced(b)]
  {
    var c := if h <= |b| then b[..h] else b;
    if |c| >= 4 {
      assert c[..4] == b[..4];
      AnnouncedIs(b[..4]);
    }
  }

  // ---- The code ---------------------------------------------------------------------------

  /** The `i`-th event ends the loop. */
  predicate EndsAt(inbound: seq<byte>, turns: seq<Turn>, i: nat)
    requires i < |turns|
  {
    match turns[i]
    case ClientRead(data, sent) => data == [] || sent.Some?
    case ClientError(_) => true
    case ServerBytes(k, wrote) =>
      var f := FlowOf(inbound, turns[..i]);
      var p := Poll(inbound[f.at..], f.held + k);
      p.Closed? || (p.Got? && wrote.Some?)
  }

  /** None of the first `n` events ends the loop. */
  predicate NoneEnds(inbound: seq<byte>, turns: seq<Turn>, n: nat)
    requires n <= |turns|
  {
    forall i :: 0 <= i < n ==> !EndsAt(inbound, turns, i)
  }

  lemma OneMoreGoesOn(inbound: seq<byte>, turns: seq<Turn>, n: nat)
    requires n < |turns| && NoneEnds(inbound, turns, n) && !EndsAt(inbound, turns, n)
    ensures NoneEnds(inbound, turns, n + 1)
  {
  }

  lemma TurnStep(inbound: seq<byte>, turns: seq<Turn>, n: nat)
    requires n < |turns|
    ensures var before, after, turn := Uploads(turns[..n]), Uploads(turns[..n + 1]), turns[n];
      if turn.ClientRead? && turn.data != [] then FrameAll(after) == FrameAll(before) + Frame(turn.data) else after == before
    ensures FlowOf(inbound, turns[..n + 1]) == FlowStep(inbound, FlowOf(inbound, turns[..n]), turns[n])
  {
    assert turns[..n + 1][..n] == turns[..n];
    if turns[n].ClientRead? && turns[n].data != [] {
      FrameAllSnoc(Uploads(turns[..n]), turns[n].data);
    }
  }

  /** What is on the wire after `n` events. */
  predicate WireAfter(turns: seq<Turn>, n: nat, end: End, wire: seq<byte>)
    requires n <= |turns| && (end != Running ==> n > 0)
  {
    match end
    case ClientClosed =>
      && (turns[n - 1].ClientError? || (turns[n - 1].ClientRead? && turns[n - 1].data == []))
      && wire == FrameAll(Uploads(turns[..n])) + Written(Frame([]), turns[n - 1].sent)
    case SendFailed =>
      && turns[n - 1].ClientRead? && turns[n - 1].data != [] && turns[n - 1].sent.Some?
      && wire == FrameAll(Uploads(turns[..n - 1])) + Written(Frame(turns[n - 1].data), turns[n - 1].sent)
    case _ => wire == FrameAll(Uploads(turns[..n]))
  }

  /** What the client got after `n` events. */
  predicate ClientAfter(inbound: seq<byte>, turns: seq<Turn>, n: nat, end: End, out: seq<byte>)
    requires n <= |turns| && (end != Running ==> n > 0)
  {
    if end == ServerClosed || end == WriteFailed then
      var f := FlowOf(inbound, turns[..n - 1]);
      && turns[n - 1].ServerBytes?
      && var p := Poll(inbound[f.at..], f.held + turns[n - 1].k);
         if end == ServerClosed then p.Closed? && out == Concat(f.delivered)
         else p.Got? && turns[n - 1].wrote.Some? && out == Concat(f.delivered) + Written(p.data, turns[n - 1].wrote)
    else out == Concat(FlowOf(inbound, turns[..n]).delivered)
  }

  /** The server's arm is offered more bytes. */
  method ServerArm(inbound: seq<byte>, at0: nat, held0: nat, out0: seq<byte>, k: nat, wrote: Option<nat>, ghost f: Flow)
      returns (at: nat, held: nat, out: seq<byte>, end: End)
    requires FlowOk(inbound, f) && f.at == at0 && f.held == held0 && out0 == Concat(f.delivered)
    ensures var p := Poll(inbound[at0..], held0 + k);
      match end
      case ServerClosed => p.Closed? && out == out0
      case WriteFailed => p.Got? && wrote.Some? && out == out0 + Written(p.data, wrote)
      case Running =>
        && !p.Closed? && (p.Got? ==> wrote.None?)
        && var g := FlowStep(inbound, f, ServerBytes(k, wrote)); g.at == at && g.held == held && out == Concat(g.delivered)
      case _ => false
  {
    at, held, out, end := at0, held0, out0, Running;
    var p := Poll(inbound[at..], held + k);
    if p.Closed? {
      end := ServerClosed;
    } else if p.Pending? {
      held := held + k;
    } else {
      ConcatSnoc(f.delivered, p.data);
      out := out + Written(p.data, wrote);
      if wrote.Some? {
        end := WriteFailed;
      } else {
        at, held := at + 4 + |p.data|, 0;
      }
    }
  }

  /** The client's arm completes: the receive under way is dropped, then the data is forwarded. */
  method ClientArm(data: Option<seq<byte>>, sent: Option<nat>, wire0: seq<byte>) returns (wire: seq<byte>, end: End)
    ensures wire == wire0 + Written(Frame(if data.None? then [] else data.value), sent)
    ensures end == if data.None? || data.value == [] then ClientClosed else if sent.Some? then SendFailed else Running
  {
    wire := wire0 + Written(Frame(if data.None? then [] else data.value), sent);
    end := Running;
    if data.None? || data.value == [] {
      end := ClientClosed;
    } else if sent.Some? {
      end := SendFailed;
    }
  }

  /** The loop's variables after the first `n` events. */
  ghost predicate LoopState(inbound: seq<byte>, turns: seq<Turn>, n: nat, at: nat, held: nat, wire: seq<byte>, out: seq<byte>)
    requires n <= |turns|
  {
    var f := FlowOf(inbound, turns[..n]);
    f.at == at && f.held == held && out == Concat(f.delivered) && wire == FrameAll(Uploads(turns[..n]))
  }

  method OneTurn(inbound: seq<byte>, turns: seq<Turn>, n: nat, at0: nat, held0: nat, wire0: seq<byte>, out0: seq<byte>)
      returns (at: nat, held: nat, wire: seq<byte>, out: seq<byte>, end: End)
    requires n < |turns| && LoopState(inbound, turns, n, at0, held0, wire0, out0)
    ensures (end == Running) == !EndsAt(inbound, turns, n)
    ensures end == Running ==> LoopState(inbound, turns, n + 1, at, held, wire, out)
    ensures end != Running ==> WireAfter(turns, n + 1, end, wire) && ClientAfter(inbound, turns, n + 1, end, out)
  {
    TurnStep(inbound, turns, n);
    at, held, wire, out := at0, held0, wire0, out0;
    match turns[n]
    case ClientRead(data, sent) =>
      wire, end := ClientArm(Some(data), sent, wire);
      at, held := at + held, 0;
    case ClientError(sent) =>
      wire, end := ClientArm(None, sent, wire);
      at, held := at + held, 0;
    case ServerBytes(k, wrote) =>
      at, held, out, end := ServerArm(inbound, at, held, out, k, wrote, FlowOf(inbound, turns[..n]));
  }

  /** `relay_socks5`. `inbound` is everything the server puts on the stream before it ends. The
      result tells how many events were taken, what is on the wire and what the client got. */
  method Relay(inbound: seq<byte>, turns: seq<Turn>)
      returns (n: nat, wire: seq<byte>, out: seq<byte>, end: End)
    requires TurnsOk(turns)
    ensures n <= |turns| && (end == Running ==> n == |turns|) && (end != Running ==> n > 0 && EndsAt(inbound, turns, n - 1))
    ensures NoneEnds(inbound, turns, if end == Running then n else n - 1)
    ensures WireAfter(turns, n, end, wire)
    ensures ClientAfter(inbound, turns, n, end, out)
  {
    n, wire, out, end := 0, [], [], Running;
    var at: nat, held: nat := 0, 0;
    while n < |turns|
      invariant n <= |turns| && end == Running
      invariant NoneEnds(inbound, turns, n)
      invariant LoopState(inbound, turns, n, at, held, wire, out)
    {
      at, held, wire, out, end := OneTurn(inbound, turns, n, at, held, wire, out);
      n := n + 1;
      if end != Running {
        return;
      }
      OneMoreGoesOn(inbound, turns, n - 1);
    }
  }

  // ---- What the client can rely on --------------------------------------------------------

  /** No event of the client falls inside a message that is partly received. */
  predicate Aligned(inbound: seq<byte>, turns: seq<Turn>) {
    forall i :: 0 <= i < |turns| && !turns[i].ServerBytes? ==> FlowOf(inbound, turns[..i]).held == 0
  }

  /** Bytes of the stream are delivered or discarded, never both and never neither. */
  predicate Accounts(f: Flow) { Chunks(f.delivered) && f.at == |FrameAll(f.delivered)| + f.discarded }

  lemma StepAccounts(inbound: seq<byte>, f: Flow, turn: Turn)
    requires FlowOk(inbound, f) && Accounts(f)
    ensures Accounts(FlowStep(inbound, f, turn))
  {
    if turn.ServerBytes? {
      var p := Poll(inbound[f.at..], f.held + turn.k);
      PollIsReceive(inbound[f.at..], f.held + turn.k);
      if p.Got? {
        ReceiveGot(inbound[f.at..]);
        FrameAllSnoc(f.delivered, p.data);
      }
    }
  }

  lemma {:induction false} FlowAccounts(inbound: seq<byte>, turns: seq<Turn>)
    ensures Accounts(FlowOf(inbound, turns))
    decreases |turns|
  {
    if turns != [] {
      FlowAccounts(inbound, turns[..|turns| - 1]);
      StepAccounts(inbound, FlowOf(inbound, turns[..|turns| - 1]), turns[|turns| - 1]);
    }
  }

  lemma {:induction false} DiscardIff(inbound: seq<byte>, turns: seq<Turn>)
    ensures FlowOf(inbound, turns).discarded == 0 <==> Aligned(inbound, turns)
    decreases |turns|
  {
    if turns != [] {
      var n := |turns| - 1;
      DiscardIff(inbound, turns[..n]);
      AlignedStep(inbound, turns);
    }
  }

  lemma AlignedStep(inbound: seq<byte>, turns: seq<Turn>)
    requires turns != []
    ensures var n := |turns| - 1;
      Aligned(inbound, turns) <==> Aligned(inbound, turns[..n]) && (turns[n].ServerBytes? || FlowOf(inbound, turns[..n]).held == 0)
  {
    var n := |turns| - 1;
    assert forall i :: 0 <= i < n ==> turns[..n][i] == turns[i] && turns[..n][..i] == turns[..i];
  }

  lemma {:induction false} FlowIsPrefix(inbound: seq<byte>, turns: seq<Turn>)
    requires Aligned(inbound, turns)
    ensures var f := FlowOf(inbound, turns); inbound[..f.at] == FrameAll(f.delivered)
    decreases |turns|
  {
    if turns != [] {
      var before, turn := turns[..|turns| - 1], turns[|turns| - 1];
      AlignedStep(inbound, turns);
      FlowIsPrefix(inbound, before);
      var f := FlowOf(inbound, before);
      if turn.ServerBytes? {
        var h := f.held + turn.k;
        PollIsReceive(inbound[f.at..], h);
        if Poll(inbound[f.at..], h).Got? {
          NextFrame(inbound, f.at, f.delivered, Poll(inbound[f.at..], h).data);
        }
      }
    }
  }

  lemma NextFrame(inbound: seq<byte>, at: nat, delivered: seq<seq<byte>>, data: seq<byte>)
    requires at + 4 + |data| <= |inbound| && inbound[..at] == FrameAll(delivered)
    requires Receive(inbound[at..]) == Message(data, inbound[at..][4 + |data|..])
    ensures inbound[..at + 4 + |data|] == FrameAll(delivered + [data])
  {
    var b := inbound[at..];
    ReceiveGot(b);
    HeaderIsUnique(b[..4]);
    FrameAllSnoc(delivered, data);
    assert inbound[at..at + 4 + |data|] == b[..4] + data;
    assert inbound[..at + 4 + |data|] == inbound[..at] + inbound[at..at + 4 + |data|];
  }

  /** Exactly when the relay is lossless: every byte it has taken from the server was delivered, in
      whole messages, if and only if no event of the client fell inside a partly received one. */
  lemma LosslessIff(inbound: seq<byte>, turns: seq<Turn>)
    ensures var f := FlowOf(inbound, turns); inbound[..f.at] == FrameAll(f.delivered) <==> Aligned(inbound, turns)
  {
    FlowAccounts(inbound, turns);
    DiscardIff(inbound, turns);
    if Aligned(inbound, turns) {
      FlowIsPrefix(inbound, turns);
    }
  }

  lemma ReadTail(inbound: seq<byte>, at: nat, delivered: seq<seq<byte>>)
    requires at <= |inbound| && inbound[..at] == FrameAll(delivered) && Chunks(delivered)
    ensures ReadStream(inbound) == Prepend(Concat(delivered), ReadStream(inbound[at..]))
  {
    ReadChunks(delivered, inbound[at..]);
    assert inbound == inbound[..at] + inbound[at..];
  }

  /** Then the client has a prefix of the server's stream. */
  lemma AlignedIsPrefix(inbound: seq<byte>, turns: seq<Turn>)
    requires Aligned(inbound, turns)
    ensures var f := FlowOf(inbound, turns);
      ReadStream(inbound) == Prepend(Concat(f.delivered), ReadStream(inbound[f.at..]))
  {
    var f := FlowOf(inbound, turns);
    FlowAccounts(inbound, turns);
    FlowIsPrefix(inbound, turns);
    ReadTail(inbound, f.at, f.delivered);
  }

  /** And all of it, once the server's arm ends the relay. */
  lemma AlignedIsAll(inbound: seq<byte>, turns: seq<Turn>, h: nat)
    requires Aligned(inbound, turns) && Poll(inbound[FlowOf(inbound, turns).at..], h).Closed?
    ensures Concat(FlowOf(inbound, turns).delivered) == ReadStream(inbound).data
  {
    AlignedIsPrefix(inbound, turns);
    PollIsReceive(inbound[FlowOf(inbound, turns).at..], h);
  }

  lemma PollFrame(data: seq<byte>, h: nat)
    requires 0 < |data| <= MAX_MESSAGE_SIZE
    ensures Poll(Frame(data), h) == if h < 4 + |data| then Pending else Got(data)
  {
    if h < |Frame(data)| {
      CutFrameStarves(data, h);
    } else {
      RoundTripIff(data, []);
      assert Frame(data) + [] == Frame(data);
      assert Frame(data)[..|Frame(data)|] == Frame(data);
    }
  }

  function Interrupted(inner: seq<byte>, data: seq<byte>): seq<Turn> {
    [ServerBytes(4, None), ClientRead(data, None), ServerBytes(4 + |inner|, None)]
  }

  lemma FirstTwo(inner: seq<byte>, data: seq<byte>, inbound: seq<byte>, turns: seq<Turn>)
    requires 0 < |inner| < 0x1000 && inbound == Frame(Frame(inner)) && turns == Interrupted(inner, data)
    ensures FlowOf(inbound, turns[..1]) == Flow(0, 4, [], 0) && FlowOf(inbound, turns[..2]) == Flow(4, 0, [], 4)
  {
    assert inbound[0..] == inbound && turns[..0] == [];
    PollFrame(Frame(inner), 4);
    TurnStep(inbound, turns, 0);
    TurnStep(inbound, turns, 1);
  }

  lemma InterruptedFlow(inner: seq<byte>, data: seq<byte>, inbound: seq<byte>, turns: seq<Turn>)
    requires 0 < |inner| < 0x1000 && inbound == Frame(Frame(inner)) && turns == Interrupted(inner, data)
    ensures FlowOf(inbound, turns[..1]).held == 4 && FlowOf(inbound, turns) == Flow(8 + |inner|, 0, [inner], 4)
  {
    FirstTwo(inner, data, inbound, turns);
    assert inbound[4..] == Frame(inner);
    PollFrame(inner, 4 + |inner|);
    TurnStep(inbound, turns, 2);
    assert turns[..3] == turns;
  }

  /** A failing schedule: one message whose payload is itself a frame. Its header has arrived when
      the client sends something; the receive starts over inside the payload, and the client is
      handed the inner message instead. */
  lemma HalfReadFrameIsLost(inner: seq<byte>, data: seq<byte>)
    requires 0 < |inner| < 0x1000 && inner[0] != 0
    ensures var inbound, turns := Frame(Frame(inner)), Interrupted(inner, data);
      && ReadStream(inbound) == Stream(Frame(inner), false)
      && FlowOf(inbound, turns).delivered == [inner] && !(inner <= Frame(inner)) && !Aligned(inbound, turns)
  {
    var inbound, turns := Frame(Frame(inner)), Interrupted(inner, data);
    InterruptedFlow(inner, data, inbound, turns);
    ReadLast(Frame(inner), |inbound|);
    assert !turns[1].ServerBytes? && FlowOf(inbound, turns[..1]).held == 4;
    SmallHeader(|inner|);
  }

  lemma SmallHeader(n: nat)
    requires n < 0x1000
    ensures BigEndian(n, 4)[0] == 0
  {
    assert BigEndian(n, 4)[0] == BigEndian(n / 256, 3)[0] == BigEndian(n / 256 / 256, 2)[0] == BigEndian(n / 256 / 256 / 256, 1)[0];
  }

  // ---- What the server's side can rely on -------------------------------------------------

  lemma {:induction false} UploadsAreChunks(turns: seq<Turn>)
    requires TurnsOk(turns)
    ensures Chunks(Uploads(turns))
    decreases |turns|
  {
    if turns != [] {
      UploadsAreChunks(turns[..|turns| - 1]);
    }
  }

  /** What the peer reads, for each way the loop can stop: everything the client sent, with the
      end of the stream marked exactly when the client closed and the empty frame went out whole. */
  lemma PeerRecoversClose(turns: seq<Turn>, wire: seq<byte>, sent: Option<nat>)
    requires TurnsOk(turns) && wire == FrameAll(Uploads(turns)) + Written(Frame([]), sent)
    ensures ReadStream(wire) == Stream(Concat(Uploads(turns)), sent.None? || sent.value >= 4)
  {
    UploadsAreChunks(turns);
    ReadChunks(Uploads(turns), Written(Frame([]), sent));
    ReadLast([], if sent.None? then 4 else sent.value);
  }

  lemma PeerRecoversOpen(turns: seq<Turn>)
    requires TurnsOk(turns)
    ensures ReadStream(FrameAll(Uploads(turns))) == Stream(Concat(Uploads(turns)), false)
  {
    UploadsAreChunks(turns);
    ReadChunks(Uploads(turns), []);
    assert FrameAll(Uploads(turns)) + [] == FrameAll(Uploads(turns));
  }

  /** A failed send never invents or reorders bytes and never looks like a clean end. */
  lemma PeerRecoversFailure(turns: seq<Turn>, data: seq<byte>, k: nat)
    requires TurnsOk(turns) && 0 < |data| <= BUFFER
    ensures ReadStream(FrameAll(Uploads(turns)) + Cut(Frame(data), k)) ==
      Stream(Concat(Uploads(turns)) + (if k < 4 + |data| then [] else data), false)
  {
    UploadsAreChunks(turns);
    ReadChunks(Uploads(turns), Cut(Frame(data), k));
    ReadLast(data, k);
  }
}
