/** Transport selection. */
module Dispatch {
  // Transport selection of a client command, from the control master to the SSH fallback.
  // The code is a nest of early returns; the reference is a flat list of stages that are walked until
  // one of them ends the run.

  import opened Common
  import Relay

  const DEFAULT_PORT := 8822
  const TRAY_PORT := 9822
  const SSH_PORT := 22

  datatype LanFirst = Auto | Yes | No

  datatype HostConf = HostConf(
    hostname: Option<string>, port: nat, deviceId: Option<string>, lanFirst: LanFirst)

  /** The parsed command line. `muxable`: the command can be sent through a control master;
      `shell`, `exec`, `desktop`: what kind of command it is. */
  datatype Cli = Cli(
    rawHost: string, user: Option<string>, port: Option<nat>, noMux: bool, master: bool,
    quic: bool, dynamic: bool, muxable: bool, shell: bool, exec: bool, hasArgs: bool,
    desktop: bool)

  datatype MuxResult = NoMaster | Answered | Unanswered
  /** The native ssh program: not there, cannot be started, ran to its end, or was started and then
      waiting for it failed. */
  datatype Native = Missing | SpawnFails | Spawned | WaitFails
  datatype Ssh = Ssh(native: Native, connects: bool)

  /** Everything the machine and the network answer, for all attempts that may be made. */
  datatype World = World(
    conf: Option<HostConf>, stdinIsTty: bool, sshAvailable: bool,
    mux: MuxResult, lan: Option<string>, sshFirst: Ssh, sshLast: Ssh, direct: Option<nat>,
    fsConnects: bool, quicConnects: bool, isSystem: bool, systemForce: bool, streamExec: bool,
    ownId: Option<string>, enrollmentToken: string, relay: Relay.World)

  datatype Transport = Mux | NativeShell | SshSession | Quic | Client

  /** What the run does, in order. `Ran` is the moment the command reaches a remote end. */
  datatype Event =
    | LanProbe(port: nat)
    | SshConnect(host: string, port: nat)
    | AutoTry(host: string, ports: seq<nat>)
    | TlsConnect(host: string, port: nat)
    | QuicConnect(host: string, port: nat)
    | FsConnect
    | Relayed(device: string, a: Relay.Attempt)
    | Ran(via: Transport)

  // ---- What the command line and the config decide ---------------------------------------

  /** Splits `user@host` at the first `@`. */
  function SplitHost(raw: string): (Option<string>, string) {
    if '@' !in raw then (None, raw)
    else
      var i := FirstAt(raw);
      (Some(raw[..i]), raw[i + 1..])
  }

  function FirstAt(raw: string): (i: nat)
    requires '@' in raw
    ensures i < |raw| && raw[i] == '@' && '@' !in raw[..i]
  {
    if raw[0] == '@' then 0 else 1 + FirstAt(raw[1..])
  }

  function Host(cli: Cli): string { SplitHost(cli.rawHost).1 }

  predicate IsLetter(c: char) { 'a' <= c <= 'z' || 'A' <= c <= 'Z' }

  predicate IsDigit(c: char) { '0' <= c <= '9' }

  /** `k` letters and then only digits. */
  predicate DigitsFrom(s: string, k: nat) {
    k < |s| && (forall i :: 0 <= i < k ==> IsLetter(s[i])) && (forall i :: k <= i < |s| ==> IsDigit(s[i]))
  }

  /** A DeviceID: optional letters followed by one or more digits. */
  predicate IsDeviceId(s: string) { exists k: nat :: k < |s| && DigitsFrom(s, k) }

  /** `is_device_id`. */
  method CheckDeviceId(s: string) returns (r: bool)
    ensures r == IsDeviceId(s)
  {
    if s == "" || '.' in s || ':' in s {
      return false;
    }
    var hasDigit := false;
    ghost var k: nat := 0;
    for j := 0 to |s|
      invariant k <= j && (hasDigit <==> k < j)
      invariant forall i :: 0 <= i < k ==> IsLetter(s[i])
      invariant forall i :: k <= i < j ==> IsDigit(s[i])
    {
      if IsLetter(s[j]) {
        if hasDigit {
          assert IsDigit(s[j - 1]) && !IsDigit(s[j]);
          return false;
        }
        k := j + 1;
      } else if IsDigit(s[j]) {
        hasDigit := true;
      } else {
        return false;
      }
    }
    if hasDigit {
      assert DigitsFrom(s, k);
    } else {
      assert IsLetter(s[|s| - 1]);
    }
    return hasDigit;
  }

  /** `-h fs://...`. */
  predicate IsFs(cli: Cli) { |Host(cli)| >= 5 && Host(cli)[..5] == "fs://" }

  /** The host is a bare DeviceID. */
  predicate ById(cli: Cli) { !IsFs(cli) && IsDeviceId(Host(cli)) }

  function User(cli: Cli): Option<string> {
    if cli.user.Some? then cli.user else SplitHost(cli.rawHost).0
  }

  function ResolvedHost(cli: Cli, w: World): string {
    if w.conf.Some? && w.conf.value.hostname.Some? then w.conf.value.hostname.value else Host(cli)
  }

  function ResolvedPort(cli: Cli, w: World): nat {
    if cli.port.Some? then cli.port.value
    else if w.conf.Some? then w.conf.value.port
    else DEFAULT_PORT
  }

  predicate AutoTryPorts(cli: Cli, w: World) {
    cli.port.None? && (w.conf.None? || w.conf.value.port == 8822)
  }

  function DeviceId(cli: Cli, w: World): Option<string> {
    if w.conf.Some? && w.conf.value.deviceId.Some? then w.conf.value.deviceId
    else if IsDeviceId(Host(cli)) then Some(Host(cli))
    else None
  }

  function RelayOptions(cli: Cli, w: World, device: string): Relay.Options {
    var port := ResolvedPort(cli, w);
    Relay.Options(device, w.ownId, port, if AutoTryPorts(cli, w) then 0 else port, false, w.enrollmentToken)
  }

  // ---- Reference: a flat walk over stages -------------------------------------------------

  datatype Stage = AskMaster | UseQuic | ProbeLan | SshFirst | UseFs | UseRelay | UseDirect | SshLast

  /** A stage ends the run, or lets it go on, perhaps with another host address. */
  datatype Verdict = Stop(events: seq<Event>) | Go(events: seq<Event>, host: string)

  /** The stages of this invocation, in order, whatever their outcomes. */
  function Stages(cli: Cli, w: World): seq<Stage> {
    (if !cli.noMux && !cli.master && cli.muxable then [AskMaster] else [])
    + (if cli.quic then [UseQuic] else NativeStages(cli, w))
  }

  predicate TriesLan(cli: Cli, w: World) {
    !IsFs(cli) && !ById(cli) && !(w.conf.Some? && (w.conf.value.hostname.Some? || w.conf.value.lanFirst.No?))
  }

  predicate TriesSshFirst(cli: Cli, w: World) {
    User(cli).Some? && !IsFs(cli) && !ById(cli) && AutoTryPorts(cli, w) && !w.stdinIsTty && w.sshAvailable
  }

  function NativeStages(cli: Cli, w: World): seq<Stage> {
    (if TriesLan(cli, w) then [ProbeLan] else [])
    + (if TriesSshFirst(cli, w) then [SshFirst] else [])
    + ConnectStages(cli, w)
  }

  function ConnectStages(cli: Cli, w: World): seq<Stage> {
    if IsFs(cli) then [UseFs]
    else if ById(cli) then [UseRelay]
    else
      [UseDirect] + BackupStages(cli, w)
  }

  function BackupStages(cli: Cli, w: World): seq<Stage> {
    (if DeviceId(cli, w).Some? then [UseRelay] else [])
    + (if cli.port.None? && w.sshAvailable then [SshLast] else [])
  }

  /** What happens once an mrsh connection is up. */
  function UseClient(cli: Cli, w: World): seq<Event> {
    if w.isSystem && cli.desktop && !w.systemForce then []
    else if cli.master || cli.dynamic then []
    else if cli.exec && w.streamExec && !cli.hasArgs then []
    else [Ran(Client)]
  }

  /** Commands over SSH: an error before the command ran lets the caller go on, and so does failing
      to wait for a native shell that ran. */
  function SshVerdict(cli: Cli, w: World, ssh: Ssh, host: string): Verdict {
    if !w.sshAvailable then Go([], host)
    else if cli.shell && ssh.native.Spawned? then Stop([Ran(NativeShell)])
    else if cli.shell && ssh.native.SpawnFails? then Go([], host)
    else if cli.shell && ssh.native.WaitFails? then Go([Ran(NativeShell)], host)
    else if ssh.connects then Stop([SshConnect(host, SSH_PORT), Ran(SshSession)])
    else Go([SshConnect(host, SSH_PORT)], host)
  }

  function RelayEvents(device: string, attempts: seq<Relay.Attempt>): seq<Event> {
    seq(|attempts|, i requires 0 <= i < |attempts| => Relayed(device, attempts[i]))
  }

  function RelayVerdict(cli: Cli, w: World, device: string, host: string): Verdict {
    var plan := Relay.Plan(RelayOptions(cli, w, device), w.relay);
    var events := RelayEvents(device, Relay.UntilSuccess(w.relay, plan));
    if Relay.FirstSuccess(w.relay, plan).Some? then Stop(events + UseClient(cli, w)) else Go(events, host)
  }

  function VerdictOf(cli: Cli, w: World, stage: Stage, host: string): Verdict {
    var port := ResolvedPort(cli, w);
    match stage
    case AskMaster =>
      (match w.mux
       case NoMaster => Go([], host)
       case Answered => Stop([Ran(Mux)])
       case Unanswered => Go([Ran(Mux)], host))
    case UseQuic =>
      Stop([QuicConnect(host, port)] + (if w.quicConnects && !cli.dynamic then [Ran(Quic)] else []))
    case ProbeLan =>
      if w.lan.Some? then Go([LanProbe(port)], w.lan.value)
      else if w.conf.Some? && w.conf.value.lanFirst.Yes? then Stop([LanProbe(port)])
      else Go([LanProbe(port)], host)
    case SshFirst => SshVerdict(cli, w, w.sshFirst, host)
    case SshLast => SshVerdict(cli, w, w.sshLast, host)
    case UseFs => Stop([FsConnect] + (if w.fsConnects then UseClient(cli, w) else []))
    case UseRelay =>
      if DeviceId(cli, w).Some? then RelayVerdict(cli, w, DeviceId(cli, w).value, host) else Go([], host)
    case UseDirect =>
      var e := if AutoTryPorts(cli, w) then AutoTry(host, [TRAY_PORT, DEFAULT_PORT, SSH_PORT])
               else TlsConnect(host, port);
      if w.direct.Some? then Stop([e] + UseClient(cli, w)) else Go([e], host)
  }

  function Walk(cli: Cli, w: World, stages: seq<Stage>, host: string): seq<Event>
    decreases |stages|
  {
    if stages == [] then []
    else
      var v := VerdictOf(cli, w, stages[0], host);
      if v.Stop? then v.events else v.events + Walk(cli, w, stages[1..], v.host)
  }

  /** The events of one invocation. */
  function Trace(cli: Cli, w: World): seq<Event> {
    Walk(cli, w, Stages(cli, w), ResolvedHost(cli, w))
  }

  // ---- The code ---------------------------------------------------------------------------

  /** `run_ssh_fallback`: `stopped` is false only when it returned an error. */
  method RunSshFallback(cli: Cli, w: World, ssh: Ssh, host: string) returns (events: seq<Event>, stopped: bool)
    ensures stopped ==> SshVerdict(cli, w, ssh, host) == Stop(events)
    ensures !stopped ==> SshVerdict(cli, w, ssh, host) == Go(events, host)
  {
    events := [];
    if !w.sshAvailable {
      return [], false;
    }
    if cli.shell {
      match ssh.native {
        case Spawned => return [Ran(NativeShell)], true;
        case SpawnFails => return [], false;
        case WaitFails => return [Ran(NativeShell)], false;
        case Missing =>
      }
    }
    events := [SshConnect(host, SSH_PORT)];
    if !ssh.connects {
      return events, false;
    }
    events := events + [Ran(SshSession)];
    stopped := true;
  }

  method RunRelay(cli: Cli, w: World, device: string, ghost host: string) returns (events: seq<Event>, connected: bool)
    ensures connected ==> RelayVerdict(cli, w, device, host) == Stop(events + UseClient(cli, w))
    ensures !connected ==> RelayVerdict(cli, w, device, host) == Go(events, host)
  {
    var attempts, won := Relay.ConnectViaRelay(RelayOptions(cli, w, device), w.relay);
    events := RelayEvents(device, attempts);
    connected := won.Some?;
  }

  /** The part of `async_main` after the LAN probe and SSH-first: get a connection, or give up. */
  method Connect(cli: Cli, w: World, resolvedHost: string) returns (trace: seq<Event>)
    ensures trace == Walk(cli, w, ConnectStages(cli, w), resolvedHost)
  {
    if IsFs(cli) {
      WalkOne(cli, w, UseFs, resolvedHost);
      trace := [FsConnect];
      if w.fsConnects {
        trace := trace + UseClient(cli, w);
      }
      return;
    }
    var device := DeviceId(cli, w);
    if ById(cli) {
      WalkOne(cli, w, UseRelay, resolvedHost);
      var ok;
      trace, ok := RunRelay(cli, w, device.value, resolvedHost);
      if ok {
        trace := trace + UseClient(cli, w);
      }
      return;
    }
    assert ConnectStages(cli, w) == [UseDirect] + BackupStages(cli, w);
    WalkStep(cli, w, UseDirect, BackupStages(cli, w), resolvedHost);
    if AutoTryPorts(cli, w) {
      trace := [AutoTry(resolvedHost, [TRAY_PORT, DEFAULT_PORT, SSH_PORT])];
    } else {
      trace := [TlsConnect(resolvedHost, ResolvedPort(cli, w))];
    }
    if w.direct.Some? {
      trace := trace + UseClient(cli, w);
      return;
    }
    var rest := Backup(cli, w, resolvedHost);
    trace := trace + rest;
  }

  /** Direct TLS failed: relay if there is a DeviceID, then SSH unless `-p` was given. */
  method Backup(cli: Cli, w: World, resolvedHost: string) returns (trace: seq<Event>)
    ensures trace == Walk(cli, w, BackupStages(cli, w), resolvedHost)
  {
    trace := [];
    var device := DeviceId(cli, w);
    ghost var last := if cli.port.None? && w.sshAvailable then [SshLast] else [];
    if device.Some? {
      WalkStep(cli, w, UseRelay, last, resolvedHost);
      var ok;
      trace, ok := RunRelay(cli, w, device.value, resolvedHost);
      if ok {
        trace := trace + UseClient(cli, w);
        return;
      }
    } else {
      assert BackupStages(cli, w) == last;
    }
    if cli.port.None? && w.sshAvailable {
      WalkOne(cli, w, SshLast, resolvedHost);
      var events, stopped := RunSshFallback(cli, w, w.sshLast, resolvedHost);
      trace := trace + events;
    }
  }

  /** `async_main` from host resolution to command dispatch. */
  method AsyncMain(cli: Cli, w: World) returns (trace: seq<Event>)
    ensures trace == Trace(cli, w)
  {
    var resolvedHost := ResolvedHost(cli, w);
    var port := ResolvedPort(cli, w);
    trace := [];
    ghost var tail := if cli.quic then [UseQuic] else NativeStages(cli, w);
    if !cli.noMux && !cli.master && cli.muxable {
      WalkStep(cli, w, AskMaster, tail, resolvedHost);
      match w.mux {
        case Answered => return [Ran(Mux)];
        case Unanswered => trace := [Ran(Mux)];
        case NoMaster =>
      }
    } else {
      assert Stages(cli, w) == tail;
    }
    assert Trace(cli, w) == trace + Walk(cli, w, tail, resolvedHost);
    if cli.quic {
      WalkOne(cli, w, UseQuic, resolvedHost);
      trace := trace + ([QuicConnect(resolvedHost, port)] + if w.quicConnects && !cli.dynamic then [Ran(Quic)] else []);
      return;
    }
    var rest := ProbeAndConnect(cli, w, resolvedHost);
    trace := trace + rest;
  }

  /** The LAN probe may replace the host address, or end the run when the LAN is mandatory. */
  method ProbeAndConnect(cli: Cli, w: World, host: string) returns (trace: seq<Event>)
    ensures trace == Walk(cli, w, NativeStages(cli, w), host)
  {
    var resolvedHost := host;
    trace := [];
    ghost var tail := (if TriesSshFirst(cli, w) then [SshFirst] else []) + ConnectStages(cli, w);
    if TriesLan(cli, w) {
      assert NativeStages(cli, w) == [ProbeLan] + tail;
      WalkStep(cli, w, ProbeLan, tail, resolvedHost);
      trace := [LanProbe(ResolvedPort(cli, w))];
      if w.lan.Some? {
        resolvedHost := w.lan.value;
      } else if w.conf.Some? && w.conf.value.lanFirst.Yes? {
        return;
      }
    } else {
      assert NativeStages(cli, w) == tail;
    }
    var rest := SshFirstAndConnect(cli, w, resolvedHost);
    trace := trace + rest;
  }

  method SshFirstAndConnect(cli: Cli, w: World, host: string) returns (trace: seq<Event>)
    ensures trace == Walk(cli, w, (if TriesSshFirst(cli, w) then [SshFirst] else []) + ConnectStages(cli, w), host)
  {
    trace := [];
    if TriesSshFirst(cli, w) {
      WalkStep(cli, w, SshFirst, ConnectStages(cli, w), host);
      var stopped;
      trace, stopped := RunSshFallback(cli, w, w.sshFirst, host);
      if stopped {
        return;
      }
    } else {
      assert [] + ConnectStages(cli, w) == ConnectStages(cli, w);
    }
    var rest := Connect(cli, w, host);
    trace := trace + rest;
  }

  lemma WalkOne(cli: Cli, w: World, stage: Stage, host: string)
    ensures Walk(cli, w, [stage], host) == VerdictOf(cli, w, stage, host).events
  {
  }

  lemma WalkStep(cli: Cli, w: World, stage: Stage, rest: seq<Stage>, host: string)
    ensures var v := VerdictOf(cli, w, stage, host);
      Walk(cli, w, [stage] + rest, host) == if v.Stop? then v.events else v.events + Walk(cli, w, rest, v.host)
  {
    assert ([stage] + rest)[1..] == rest;
  }

  // ---- The command runs at most once -------------------------------------------------------

  function Tail(cli: Cli, w: World): seq<Stage> { if cli.quic then [UseQuic] else NativeStages(cli, w) }

  /** What the master contributes, and whether the run goes on. */
  function MasterEvents(cli: Cli, w: World): seq<Event> {
    if AsksMaster(cli) && !w.mux.NoMaster? then [Ran(Mux)] else []
  }

  lemma MasterFirst(cli: Cli, w: World)
    ensures Trace(cli, w) == MasterEvents(cli, w) +
      if AsksMaster(cli) && w.mux.Answered? then [] else Walk(cli, w, Tail(cli, w), ResolvedHost(cli, w))
  {
    if AsksMaster(cli) {
      assert Stages(cli, w) == [AskMaster] + Tail(cli, w);
      WalkStep(cli, w, AskMaster, Tail(cli, w), ResolvedHost(cli, w));
    } else {
      assert Stages(cli, w) == Tail(cli, w);
    }
  }

  function Runs(trace: seq<Event>): nat {
    if trace == [] then 0 else (if trace[0].Ran? then 1 else 0) + Runs(trace[1..])
  }

  lemma {:induction false} RunsAppend(a: seq<Event>, b: seq<Event>)
    ensures Runs(a + b) == Runs(a) + Runs(b)
  {
    if a == [] {
      assert a + b == b;
    } else {
      assert (a + b)[1..] == a[1..] + b;
      RunsAppend(a[1..], b);
    }
  }

  lemma {:induction false} NoRuns(a: seq<Event>)
    requires forall i :: 0 <= i < |a| ==> !a[i].Ran?
    ensures Runs(a) == 0
  {
    if a != [] {
      NoRuns(a[1..]);
    }
  }

  /** The native shell runs, and the code takes it for a failure. */
  predicate ShellWaitFails(cli: Cli, w: World, ssh: Ssh) { w.sshAvailable && cli.shell && ssh.native.WaitFails? }

  /** The stage dispatches the command and still lets the run go on. */
  predicate RunsAndGoesOn(cli: Cli, w: World, stage: Stage) {
    match stage
    case AskMaster => w.mux.Unanswered?
    case SshFirst => ShellWaitFails(cli, w, w.sshFirst)
    case SshLast => ShellWaitFails(cli, w, w.sshLast)
    case _ => false
  }

  lemma StageRuns(cli: Cli, w: World, stage: Stage, host: string)
    ensures var v := VerdictOf(cli, w, stage, host);
      Runs(v.events) <= if v.Stop? || RunsAndGoesOn(cli, w, stage) then 1 else 0
  {
    var v := VerdictOf(cli, w, stage, host);
    match stage
    case AskMaster =>
    case UseQuic => RunsAppend([QuicConnect(host, ResolvedPort(cli, w))], v.events[1..]);
    case ProbeLan =>
    case SshFirst => SshRuns(cli, w, w.sshFirst, host);
    case SshLast => SshRuns(cli, w, w.sshLast, host);
    case UseFs => RunsAppend([FsConnect], v.events[1..]);
    case UseRelay =>
      if DeviceId(cli, w).Some? {
        RelayRuns(cli, w, DeviceId(cli, w).value, host);
      }
    case UseDirect => RunsAppend(v.events[..1], v.events[1..]);
  }

  lemma SshRuns(cli: Cli, w: World, ssh: Ssh, host: string)
    ensures var v := SshVerdict(cli, w, ssh, host);
      Runs(v.events) <= if v.Stop? || ShellWaitFails(cli, w, ssh) then 1 else 0
  {
    RunsAppend([SshConnect(host, SSH_PORT)], [Ran(SshSession)]);
  }

  lemma RelayRuns(cli: Cli, w: World, device: string, host: string)
    ensures var v := RelayVerdict(cli, w, device, host); Runs(v.events) <= if v.Stop? then 1 else 0
  {
    var plan := Relay.Plan(RelayOptions(cli, w, device), w.relay);
    var events := RelayEvents(device, Relay.UntilSuccess(w.relay, plan));
    NoRuns(events);
    RunsAppend(events, UseClient(cli, w));
  }

  /** How many stages, not counting the last, dispatch and let the run go on. */
  function Extra(cli: Cli, w: World, stages: seq<Stage>): nat
    decreases |stages|
  {
    if |stages| <= 1 then 0
    else (if RunsAndGoesOn(cli, w, stages[0]) then 1 else 0) + Extra(cli, w, stages[1..])
  }

  lemma {:induction false} WalkRuns(cli: Cli, w: World, stages: seq<Stage>, host: string)
    ensures Runs(Walk(cli, w, stages, host)) <= 1 + Extra(cli, w, stages)
    decreases |stages|
  {
    if stages != [] {
      StageRuns(cli, w, stages[0], host);
      var v := VerdictOf(cli, w, stages[0], host);
      if v.Go? {
        WalkRuns(cli, w, stages[1..], v.host);
        RunsAppend(v.events, Walk(cli, w, stages[1..], v.host));
        if |stages| == 1 {
          assert Walk(cli, w, stages[1..], v.host) == [];
        }
      }
    }
  }

  lemma {:induction false} ExtraOfSafe(cli: Cli, w: World, stages: seq<Stage>)
    requires forall i :: 0 <= i < |stages| - 1 ==> !RunsAndGoesOn(cli, w, stages[i])
    ensures Extra(cli, w, stages) == 0
    decreases |stages|
  {
    if |stages| > 1 {
      ExtraOfSafe(cli, w, stages[1..]);
    }
  }

  predicate AsksMaster(cli: Cli) { !cli.noMux && !cli.master && cli.muxable }

  lemma ConnectExtra(cli: Cli, w: World)
    ensures ConnectStages(cli, w) != [] && Extra(cli, w, ConnectStages(cli, w)) == 0
  {
    ExtraOfSafe(cli, w, ConnectStages(cli, w));
  }

  lemma TailExtra(cli: Cli, w: World)
    ensures Extra(cli, w, Tail(cli, w)) == if !cli.quic && TriesSshFirst(cli, w) && ShellWaitFails(cli, w, w.sshFirst) then 1 else 0
  {
    if !cli.quic {
      var connect := ConnectStages(cli, w);
      ConnectExtra(cli, w);
      var rest := (if TriesSshFirst(cli, w) then [SshFirst] else []) + connect;
      if TriesSshFirst(cli, w) {
        assert rest[0] == SshFirst && rest[1..] == connect;
      } else {
        assert rest == connect;
      }
      if TriesLan(cli, w) {
        assert NativeStages(cli, w)[0] == ProbeLan && NativeStages(cli, w)[1..] == rest;
      } else {
        assert NativeStages(cli, w) == rest;
      }
    }
  }

  /** Every invocation dispatches the command at most once, and once more for each of two accidents:
      a control master was asked and did not answer in time; the SSH-first shell ran and waiting for
      it failed. */
  lemma RunsAtMostOnce(cli: Cli, w: World)
    ensures Runs(Trace(cli, w)) <= 1
      + (if AsksMaster(cli) && w.mux.Unanswered? then 1 else 0)
      + (if !cli.quic && TriesSshFirst(cli, w) && ShellWaitFails(cli, w, w.sshFirst) then 1 else 0)
    ensures AsksMaster(cli) && w.mux.Answered? ==> Runs(Trace(cli, w)) == 1
  {
    MasterFirst(cli, w);
    TailExtra(cli, w);
    var rest := Walk(cli, w, Tail(cli, w), ResolvedHost(cli, w));
    WalkRuns(cli, w, Tail(cli, w), ResolvedHost(cli, w));
    RunsAppend(MasterEvents(cli, w), rest);
    assert AsksMaster(cli) && w.mux.Answered? ==> Trace(cli, w) == [Ran(Mux)];
  }

  /** SSH may be tried on some machine: native transport to a host name or address, without `-p`. */
  predicate MayUseSsh(cli: Cli) { !cli.quic && !IsFs(cli) && !ById(cli) && cli.port.None? }

  /** Something can still dispatch after an unanswered master: everything but a pure SOCKS
      proxy (`-D`) that has no SSH fallback. */
  predicate CanRunAgain(cli: Cli) { !cli.dynamic || MayUseSsh(cli) }

  /** A machine on which the unanswered command runs a second time. */
  function SecondRunWorld(native: Native): World {
    World(None, true, true, Unanswered, None, Ssh(native, true), Ssh(Missing, true),
          None, true, true, false, false, false, None, "", RelayedPeer())
  }

  /** A peer that is reached through the relay only. */
  function RelayedPeer(): Relay.World {
    Relay.World(Some(Relay.Resolved(false, None, "r")), [], t => None, i => None, i => false, false, false, true)
  }

  function NoPeer(): Relay.World {
    Relay.World(None, [], t => None, i => None, i => false, false, false, false)
  }

  lemma RelayedPeerConnects(cli: Cli, w: World, device: string, host: string)
    requires w.relay == RelayedPeer() && w.ownId.None?
    ensures exists a :: RelayVerdict(cli, w, device, host) == Stop([Relayed(device, a)] + UseClient(cli, w))
  {
    var opts := RelayOptions(cli, w, device);
    var a := Relay.Via(Relay.RelayAddr("r"), opts.targetPort);
    assert Relay.Plan(opts, w.relay) == [a];
    assert Relay.UntilSuccess(w.relay, [a]) == [a];
    assert RelayEvents(device, [a]) == [Relayed(device, a)];
  }

  lemma SecondRun(cli: Cli, native: Native) returns (w: World)
    requires AsksMaster(cli) && CanRunAgain(cli)
    ensures w.mux == Unanswered && w.sshFirst.native == native && Runs(Trace(cli, w)) == 2
  {
    w := SecondRunWorld(native);
    if !cli.dynamic {
      w := w.(direct := Some(0));
    }
    var host := ResolvedHost(cli, w);
    var tail := if cli.quic then [UseQuic] else NativeStages(cli, w);
    WalkStep(cli, w, AskMaster, tail, host);
    RunsAppend([Ran(Mux)], Walk(cli, w, tail, host));
    if cli.quic {
      WalkOne(cli, w, UseQuic, host);
      RunsAppend([QuicConnect(host, ResolvedPort(cli, w))], [Ran(Quic)]);
    } else {
      SecondRunNative(cli, w, host);
    }
  }

  lemma SecondRunNative(cli: Cli, w: World, host: string)
    requires !cli.quic && !cli.master && CanRunAgain(cli)
    requires w == SecondRunWorld(w.sshFirst.native).(direct := if cli.dynamic then None else Some(0))
    ensures Runs(Walk(cli, w, NativeStages(cli, w), host)) == 1
  {
    if IsFs(cli) {
      assert NativeStages(cli, w) == [UseFs];
      WalkOne(cli, w, UseFs, host);
      RunsAppend([FsConnect], [Ran(Client)]);
    } else if ById(cli) {
      assert NativeStages(cli, w) == [UseRelay];
      WalkOne(cli, w, UseRelay, host);
      RelayedPeerConnects(cli, w, Host(cli), host);
      var a :| RelayVerdict(cli, w, Host(cli), host) == Stop([Relayed(Host(cli), a)] + UseClient(cli, w));
      RunsAppend([Relayed(Host(cli), a)], [Ran(Client)]);
    } else {
      var tail := [UseDirect] + BackupStages(cli, w);
      assert NativeStages(cli, w) == [ProbeLan] + tail;
      WalkStep(cli, w, ProbeLan, tail, host);
      RunsAppend([LanProbe(ResolvedPort(cli, w))], Walk(cli, w, tail, host));
      SecondRunDirect(cli, w, host);
    }
  }

  lemma SecondRunDirect(cli: Cli, w: World, host: string)
    requires !cli.quic && !cli.master && CanRunAgain(cli) && !IsFs(cli) && !ById(cli)
    requires w == SecondRunWorld(w.sshFirst.native).(direct := if cli.dynamic then None else Some(0))
    ensures Runs(Walk(cli, w, [UseDirect] + BackupStages(cli, w), host)) == 1
  {
    WalkStep(cli, w, UseDirect, BackupStages(cli, w), host);
    var d := VerdictOf(cli, w, UseDirect, host);
    if cli.dynamic {
      assert BackupStages(cli, w) == [SshLast];
      WalkOne(cli, w, SshLast, host);
      RunsAppend([SshConnect(host, SSH_PORT)], [Ran(SshSession)]);
      RunsAppend(d.events, Walk(cli, w, BackupStages(cli, w), host));
    } else {
      RunsAppend(d.events[..1], [Ran(Client)]);
      assert d.events == d.events[..1] + [Ran(Client)];
    }
  }

  /** A shell that was started over SSH first may run again: somebody logs in non-interactively with
      a user name, and the master, if asked, has not answered. */
  predicate ShellCanRunAgain(cli: Cli, mux: MuxResult, native: Native) {
    cli.shell && native.WaitFails? && MayUseSsh(cli) && User(cli).Some? && !(AsksMaster(cli) && mux.Answered?)
  }

  /** A machine on which SSH-first starts a shell and loses it, and the last fallback starts another. */
  lemma SecondShell(cli: Cli, mux: MuxResult) returns (w: World)
    requires ShellCanRunAgain(cli, mux, WaitFails)
    ensures w.mux == mux && w.sshFirst.native.WaitFails? && Runs(Trace(cli, w)) >= 2
  {
    w := World(None, false, true, mux, None, Ssh(WaitFails, false), Ssh(Spawned, false),
               None, false, false, false, false, false, None, "", NoPeer());
    var host := ResolvedHost(cli, w);
    MasterFirst(cli, w);
    TwoShells(cli, w, host);
    RunsAppend(MasterEvents(cli, w), Walk(cli, w, Tail(cli, w), host));
  }

  /** A stage whose events are known, before others. */
  lemma StageThen(cli: Cli, w: World, stage: Stage, rest: seq<Stage>, host: string, events: seq<Event>)
    requires VerdictOf(cli, w, stage, host) == Go(events, host)
    ensures Runs(Walk(cli, w, [stage] + rest, host)) == Runs(events) + Runs(Walk(cli, w, rest, host))
  {
    WalkStep(cli, w, stage, rest, host);
    RunsAppend(events, Walk(cli, w, rest, host));
  }

  lemma ShellLast(cli: Cli, w: World, host: string)
    requires w.direct.None? && w.sshAvailable && cli.shell && w.sshLast.native.Spawned?
    ensures Runs(Walk(cli, w, [UseDirect] + [SshLast], host)) == 1
  {
    var events := VerdictOf(cli, w, UseDirect, host).events;
    NoRuns(events);
    StageThen(cli, w, UseDirect, [SshLast], host, events);
    WalkOne(cli, w, SshLast, host);
  }

  lemma SshFirstTail(cli: Cli, w: World)
    requires MayUseSsh(cli) && User(cli).Some? && w.conf.None? && !w.stdinIsTty && w.sshAvailable
    ensures Tail(cli, w) == [ProbeLan] + ([SshFirst] + ([UseDirect] + [SshLast]))
  {
    assert ConnectStages(cli, w) == [UseDirect] + [SshLast];
  }

  lemma TwoShells(cli: Cli, w: World, host: string)
    requires cli.shell && MayUseSsh(cli) && User(cli).Some? && w.conf.None? && w.lan.None? && w.direct.None?
    requires !w.stdinIsTty && w.sshAvailable && w.sshFirst.native.WaitFails? && w.sshLast.native.Spawned?
    ensures Runs(Walk(cli, w, Tail(cli, w), host)) == 2
  {
    SshFirstTail(cli, w);
    ShellLast(cli, w, host);
    StageThen(cli, w, SshFirst, [UseDirect] + [SshLast], host, [Ran(NativeShell)]);
    StageThen(cli, w, ProbeLan, [SshFirst] + ([UseDirect] + [SshLast]), host, [LanProbe(ResolvedPort(cli, w))]);
  }

  /** Exactly when the command is safe from a second run, for given outcomes of the master and of the
      SSH-first shell. */
  lemma RunsOnceIff(cli: Cli, mux: MuxResult, native: Native)
    ensures (forall w: World :: w.mux == mux && w.sshFirst.native == native ==> Runs(Trace(cli, w)) <= 1)
      <==> !(AsksMaster(cli) && mux.Unanswered? && CanRunAgain(cli)) && !ShellCanRunAgain(cli, mux, native)
  {
    if AsksMaster(cli) && mux.Unanswered? && CanRunAgain(cli) {
      var w := SecondRun(cli, native);
    } else if ShellCanRunAgain(cli, mux, native) {
      var w := SecondShell(cli, mux);
    } else {
      forall w: World | w.mux == mux && w.sshFirst.native == native ensures Runs(Trace(cli, w)) <= 1 {
        RunsAtMostOnce(cli, w);
        if AsksMaster(cli) && mux.Unanswered? {
          ProxyRunsNothing(cli, w);
        }
      }
    }
  }

  /** A SOCKS proxy without SSH dispatches no command of its own. */
  lemma ProxyRunsNothing(cli: Cli, w: World)
    requires AsksMaster(cli) && w.mux.Unanswered? && !CanRunAgain(cli)
    ensures Runs(Trace(cli, w)) == 1
  {
    var host := ResolvedHost(cli, w);
    var tail := if cli.quic then [UseQuic] else NativeStages(cli, w);
    WalkStep(cli, w, AskMaster, tail, host);
    PinnedStages(cli, w);
    ProxyWalk(cli, w, tail, host);
    RunsAppend([Ran(Mux)], Walk(cli, w, tail, host));
  }

  /** Then SSH is no stage of the run, on any machine. */
  lemma PinnedStages(cli: Cli, w: World)
    requires !MayUseSsh(cli)
    ensures var tail := if cli.quic then [UseQuic] else NativeStages(cli, w);
      AskMaster !in tail && SshFirst !in tail && SshLast !in tail
  {
    if !cli.quic {
      assert cli.port.Some? ==> SshLast !in BackupStages(cli, w);
      assert SshLast !in ConnectStages(cli, w) && SshFirst !in ConnectStages(cli, w);
    }
  }

  lemma {:induction false} ProxyWalk(cli: Cli, w: World, stages: seq<Stage>, host: string)
    requires cli.dynamic && AskMaster !in stages && SshFirst !in stages && SshLast !in stages
    ensures Runs(Walk(cli, w, stages, host)) == 0
    decreases |stages|
  {
    if stages != [] {
      var v := VerdictOf(cli, w, stages[0], host);
      NoRuns(v.events);
      if v.Go? {
        ProxyWalk(cli, w, stages[1..], v.host);
        RunsAppend(v.events, Walk(cli, w, stages[1..], v.host));
      }
    }
  }

  // ---- An explicit port is respected -------------------------------------------------------

  predicate Pinned(e: Event, p: nat) {
    match e
    case LanProbe(q) => q == p
    case SshConnect(_, _) => false
    case AutoTry(_, _) => false
    case TlsConnect(_, q) => q == p
    case QuicConnect(_, q) => q == p
    case FsConnect => true
    case Relayed(_, a) => Relay.PortOf(a) == p
    case Ran(via) => !via.NativeShell? && !via.SshSession?
  }

  lemma StageIsPinned(cli: Cli, w: World, stage: Stage, host: string, p: nat)
    requires cli.port == Some(p) && p != 0 && !stage.SshFirst? && !stage.SshLast?
    ensures forall e :: e in VerdictOf(cli, w, stage, host).events ==> Pinned(e, p)
  {
    if stage.UseRelay? && DeviceId(cli, w).Some? {
      var opts := RelayOptions(cli, w, DeviceId(cli, w).value);
      Relay.PlanIsPinned(opts, w.relay);
      Relay.WalkIsPrefix(w.relay, Relay.Plan(opts, w.relay));
    }
  }

  lemma {:induction false} WalkIsPinned(cli: Cli, w: World, stages: seq<Stage>, host: string, p: nat)
    requires cli.port == Some(p) && p != 0 && SshFirst !in stages && SshLast !in stages
    ensures forall e :: e in Walk(cli, w, stages, host) ==> Pinned(e, p)
    decreases |stages|
  {
    if stages != [] {
      StageIsPinned(cli, w, stages[0], host, p);
      var v := VerdictOf(cli, w, stages[0], host);
      if v.Go? {
        WalkIsPinned(cli, w, stages[1..], v.host, p);
      }
    }
  }

  /** With `-p P`, `P` nonzero: no SSH at all, and every LAN, direct, QUIC, P2P and self-loop
      attempt and the port asked of the relay is `P`. */
  lemma ExplicitPortIsPinned(cli: Cli, w: World, p: nat)
    requires cli.port == Some(p) && p != 0
    ensures forall e :: e in Trace(cli, w) ==> Pinned(e, p)
  {
    PinnedStages(cli, w);
    WalkIsPinned(cli, w, Stages(cli, w), ResolvedHost(cli, w), p);
  }

  /** A peer on the LAN that announces service port 8822. */
  function LanPeer(info: Relay.NetInfo): Relay.World {
    Relay.World(Some(Relay.Resolved(true, None, "")), ["t"], t => Some(info),
                i => Some(1), i => true, false, false, false)
  }

  lemma ZeroPortPlan(opts: Relay.Options, f: Relay.Iface)
    requires opts.ownId.None? && opts.targetPort == 0 && !opts.forceRelay && opts.enrollmentToken == ""
    requires Relay.Usable(f)
    ensures var w := LanPeer(Relay.NetInfo(DEFAULT_PORT, [f]));
      Relay.UntilSuccess(w, Relay.Plan(opts, w)) == [Relay.Lan(0, f.ip, DEFAULT_PORT)]
  {
    var w := LanPeer(Relay.NetInfo(DEFAULT_PORT, [f]));
    var r := w.resolved.value;
    Relay.OneIface(w, f, 1);
    assert Relay.FirstDecrypted(w, Relay.Tokens(opts, w)) == Some(Relay.NetInfo(DEFAULT_PORT, [f]));
    var a := Relay.Lan(0, f.ip, DEFAULT_PORT);
    assert Relay.LanPlan(opts, w, r) == [a];
    assert Relay.RemotePlan(opts, r) == [];
    assert Relay.Plan(opts, w) == [a];
  }

  /** A machine with a LAN peer, whatever the host text: by DeviceID, or by name with a DeviceID in
      the configuration. */
  function ZeroPortWorld(f: Relay.Iface): World {
    SecondRunWorld(Missing).(conf := Some(HostConf(Some("h"), DEFAULT_PORT, Some("1"), No)), mux := NoMaster,
                      relay := LanPeer(Relay.NetInfo(DEFAULT_PORT, [f])))
  }

  lemma ZeroPortMachine() returns (w: World, f: Relay.Iface)
    ensures Relay.Usable(f) && w.mux.NoMaster? && w.direct.None? && w.ownId.None? && w.enrollmentToken == ""
    ensures w.conf == Some(HostConf(Some("h"), DEFAULT_PORT, Some("1"), No))
    ensures w.relay == LanPeer(Relay.NetInfo(DEFAULT_PORT, [f]))
  {
    f := Relay.Iface("x", true);
    assert |"x"| != |"127.0.0.1"|;
    w := ZeroPortWorld(f);
  }

  /** `-p 0` is read as "tray first": the LAN attempt goes to the peer's own service port. */
  lemma ZeroPortEscapes(cli: Cli) returns (w: World, e: Event)
    requires cli.port == Some(0) && !cli.quic && !IsFs(cli)
    ensures e in Trace(cli, w) && !Pinned(e, 0)
  {
    var f;
    w, f := ZeroPortMachine();
    e := Relayed("1", Relay.Lan(0, f.ip, DEFAULT_PORT));
    ZeroPortPlan(RelayOptions(cli, w, "1"), f);
    AttemptIsLogged(cli, w, "1", "h", [Relay.Lan(0, f.ip, DEFAULT_PORT)]);
    RelayTrace(cli, w);
  }

  lemma AttemptIsLogged(cli: Cli, w: World, device: string, host: string, attempts: seq<Relay.Attempt>)
    requires attempts != [] && attempts == Relay.UntilSuccess(w.relay, Relay.Plan(RelayOptions(cli, w, device), w.relay))
    ensures Relayed(device, attempts[0]) in RelayVerdict(cli, w, device, host).events
  {
    assert RelayEvents(device, attempts)[0] == Relayed(device, attempts[0]);
    assert RelayVerdict(cli, w, device, host).events[0] == Relayed(device, attempts[0]);
  }

  /** The direct attempt that comes before the relay when the host is a name. */
  function BeforeRelay(cli: Cli): seq<Event> {
    if ById(cli) || cli.port.None? then [] else [TlsConnect("h", cli.port.value)]
  }

  /** The relay is reached: at once for a DeviceID, after a direct attempt for a name. */
  lemma RelayTrace(cli: Cli, w: World)
    requires !cli.quic && !IsFs(cli) && cli.port.Some? && w.mux.NoMaster? && w.direct.None?
    requires w.conf == Some(HostConf(Some("h"), DEFAULT_PORT, Some("1"), No))
    ensures Trace(cli, w) == BeforeRelay(cli) + RelayVerdict(cli, w, "1", "h").events
  {
    MasterFirst(cli, w);
    RelayWalk(cli, w);
  }

  lemma RelayWalk(cli: Cli, w: World)
    requires !cli.quic && !IsFs(cli) && cli.port.Some? && w.direct.None?
    requires w.conf == Some(HostConf(Some("h"), DEFAULT_PORT, Some("1"), No))
    ensures Walk(cli, w, NativeStages(cli, w), "h") == BeforeRelay(cli) + RelayVerdict(cli, w, "1", "h").events
  {
    RelayStage(cli, w);
    if ById(cli) {
      assert NativeStages(cli, w) == [UseRelay];
    } else {
      assert NativeStages(cli, w) == [UseDirect] + [UseRelay];
      WalkStep(cli, w, UseDirect, [UseRelay], "h");
    }
  }

  lemma RelayStage(cli: Cli, w: World)
    requires w.conf == Some(HostConf(Some("h"), DEFAULT_PORT, Some("1"), No))
    ensures Walk(cli, w, [UseRelay], "h") == RelayVerdict(cli, w, "1", "h").events
  {
    WalkOne(cli, w, UseRelay, "h");
    assert DeviceId(cli, w) == Some("1");
  }

  predicate AllPinned(trace: seq<Event>, p: nat) { forall i :: 0 <= i < |trace| ==> Pinned(trace[i], p) }

  /** A run over QUIC or a shared file system has one attempt. */
  lemma OneStageIsPinned(cli: Cli, w: World, p: nat)
    requires (cli.quic && cli.port == Some(p)) || (!cli.quic && IsFs(cli))
    ensures AllPinned(Trace(cli, w), p)
  {
    MasterFirst(cli, w);
    var stage := if cli.quic then UseQuic else UseFs;
    assert Tail(cli, w) == [stage];
    WalkOne(cli, w, stage, ResolvedHost(cli, w));
    StageAlone(cli, w, stage, ResolvedHost(cli, w), p);
  }

  lemma StageAlone(cli: Cli, w: World, stage: Stage, host: string, p: nat)
    requires stage.UseFs? || (stage.UseQuic? && cli.port == Some(p))
    ensures AllPinned(VerdictOf(cli, w, stage, host).events, p)
  {
  }

  /** An explicit port is respected on every machine exactly when it is not 0, or when QUIC or a
      shared file system is used. */
  lemma PinnedIff(cli: Cli, p: nat)
    requires cli.port == Some(p)
    ensures (forall w: World, e: Event :: e in Trace(cli, w) ==> Pinned(e, p)) <==> p != 0 || cli.quic || IsFs(cli)
  {
    if p == 0 && !cli.quic && !IsFs(cli) {
      var w, e := ZeroPortEscapes(cli);
    } else {
      forall w: World, e: Event | e in Trace(cli, w) ensures Pinned(e, p) {
        if cli.quic || IsFs(cli) {
          OneStageIsPinned(cli, w, p);
        } else {
          ExplicitPortIsPinned(cli, w, p);
        }
      }
    }
  }

  // ---- A port in the configuration file ----------------------------------------------------

  predicate IsSsh(e: Event) { e.SshConnect? || e == Ran(NativeShell) || e == Ran(SshSession) }

  predicate WithoutSsh(trace: seq<Event>) { forall i :: 0 <= i < |trace| ==> !IsSsh(trace[i]) }

  lemma StageWithoutSsh(cli: Cli, w: World, stage: Stage, host: string)
    requires !stage.SshFirst? && !stage.SshLast?
    ensures WithoutSsh(VerdictOf(cli, w, stage, host).events)
  {
  }

  lemma {:induction false} WalkWithoutSsh(cli: Cli, w: World, stages: seq<Stage>, host: string)
    requires SshFirst !in stages && SshLast !in stages
    ensures WithoutSsh(Walk(cli, w, stages, host))
    decreases |stages|
  {
    if stages != [] {
      assert stages[0] in stages;
      StageWithoutSsh(cli, w, stages[0], host);
      var v := VerdictOf(cli, w, stages[0], host);
      if v.Go? {
        WalkWithoutSsh(cli, w, stages[1..], v.host);
      }
    }
  }

  lemma NoSsh(cli: Cli, w: World)
    requires !MayUseSsh(cli)
    ensures WithoutSsh(Trace(cli, w))
  {
    PinnedStages(cli, w);
    WalkWithoutSsh(cli, w, Stages(cli, w), ResolvedHost(cli, w));
  }

  /** A machine on which nothing but SSH connects. */
  function SshOnlyWorld(conf: Option<HostConf>): World {
    World(conf, true, true, NoMaster, Some("l"), Ssh(Missing, true), Ssh(Missing, true),
          None, false, false, false, false, false, None, "", NoPeer())
  }

  lemma NoPeerGoesOn(cli: Cli, w: World, device: string, host: string)
    requires w.relay == NoPeer() && w.ownId.None?
    ensures RelayVerdict(cli, w, device, host) == Go([], host)
  {
    var opts := RelayOptions(cli, w, device);
    assert Relay.Plan(opts, w.relay) == [];
  }

  lemma BackupUsesSsh(cli: Cli, w: World, host: string)
    requires cli.port.None? && w == SshOnlyWorld(w.conf)
    ensures SshConnect(host, SSH_PORT) in Walk(cli, w, BackupStages(cli, w), host)
  {
    WalkOne(cli, w, SshLast, host);
    if DeviceId(cli, w).Some? {
      assert BackupStages(cli, w) == [UseRelay] + [SshLast];
      WalkStep(cli, w, UseRelay, [SshLast], host);
      NoPeerGoesOn(cli, w, DeviceId(cli, w).value, host);
    } else {
      assert BackupStages(cli, w) == [SshLast];
    }
  }

  lemma NativeUsesSsh(cli: Cli, w: World, host: string) returns (last: string)
    requires MayUseSsh(cli) && w == SshOnlyWorld(w.conf)
    ensures SshConnect(last, SSH_PORT) in Walk(cli, w, NativeStages(cli, w), host)
  {
    var tail := [UseDirect] + BackupStages(cli, w);
    last := if TriesLan(cli, w) then "l" else host;
    WalkStep(cli, w, UseDirect, BackupStages(cli, w), last);
    BackupUsesSsh(cli, w, last);
    assert ConnectStages(cli, w) == tail && !TriesSshFirst(cli, w);
    if TriesLan(cli, w) {
      assert NativeStages(cli, w) == [ProbeLan] + tail;
      WalkStep(cli, w, ProbeLan, tail, host);
    } else {
      assert NativeStages(cli, w) == tail;
    }
  }

  /** Whatever the configuration says of the host, port included, some machine falls back to SSH
      on 22 when the command line allows it. */
  lemma FallsBackToSsh(cli: Cli, conf: Option<HostConf>) returns (w: World, e: Event)
    requires MayUseSsh(cli)
    ensures w.conf == conf && e in Trace(cli, w) && e.SshConnect? && e.port == SSH_PORT
  {
    w := SshOnlyWorld(conf);
    var last := NativeUsesSsh(cli, w, ResolvedHost(cli, w));
    e := SshConnect(last, SSH_PORT);
    MasterFirst(cli, w);
  }

  /** Whether a run can use SSH depends on the command line alone: a port in the configuration file
      rules it out no more than no configuration at all does. */
  lemma SshRuledOutIff(cli: Cli, conf: Option<HostConf>)
    ensures (forall w: World :: w.conf == conf ==> WithoutSsh(Trace(cli, w))) <==> !MayUseSsh(cli)
  {
    if MayUseSsh(cli) {
      var w, e := FallsBackToSsh(cli, conf);
      assert !WithoutSsh(Trace(cli, w));
    } else {
      forall w: World | w.conf == conf ensures WithoutSsh(Trace(cli, w)) {
        NoSsh(cli, w);
      }
    }
  }

  /** For example: a host pinned to port 9999 in the configuration, and a plain command. */
  lemma PinnedInConfigExample(cli: Cli) returns (w: World, e: Event)
    requires cli == Cli("h", None, None, true, false, false, false, false, false, true, true, false)
    ensures w.conf == Some(HostConf(None, 9999, None, Auto)) && e in Trace(cli, w) && e.SshConnect? && e.port == SSH_PORT
  {
    assert Host(cli) == "h";
    assert !IsDeviceId("h") by {
      assert !IsDigit("h"[0]);
    }
    w, e := FallsBackToSsh(cli, Some(HostConf(None, 9999, None, Auto)));
  }

  /** What such a port does stop is SSH before the native chain. */
  lemma ConfigPortStopsSshFirst(cli: Cli, w: World)
    requires w.conf.Some? && w.conf.value.port != DEFAULT_PORT
    ensures SshFirst !in Stages(cli, w)
  {
    assert !TriesSshFirst(cli, w);
    assert SshFirst !in BackupStages(cli, w);
    assert SshFirst !in ConnectStages(cli, w);
  }

  // ---- The accepting server ----------------------------------------------------------------

  datatype Route = Local(port: nat) | InPlace

  /** Where `accept_relay_connection` sends an incoming relay stream. */
  function AcceptRelay(target: nat, trayIsUp: bool): Route {
    if target != 0 && target != DEFAULT_PORT then Local(target)
    else if target == 0 && trayIsUp then Local(TRAY_PORT)
    else InPlace
  }

  /** End to end: with `-p P`, `P` nonzero, whatever server accepts the relayed stream hands it
      to its local port `P`, or handles it itself when `P` is its own default port. */
  lemma RelayedPortReachesTarget(cli: Cli, w: World, p: nat, device: string, a: Relay.Attempt, trayIsUp: bool)
    requires cli.port == Some(p) && p != 0
    requires Relayed(device, a) in Trace(cli, w) && a.Via?
    ensures AcceptRelay(a.target, trayIsUp) == if p == DEFAULT_PORT then InPlace else Local(p)
  {
    ExplicitPortIsPinned(cli, w, p);
    assert Pinned(Relayed(device, a), p);
  }
}
