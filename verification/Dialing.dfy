/** What a run dials. */
module Dialing {
  // Told from the command line, the configuration and the machine.
  // Each law names its hosts, ports and conditions itself and is proved of the whole trace.

  import opened Common
  import Relay
  import opened Dispatch

  // ---- The text after -h ------------------------------------------------------------------

  /** What is left of `user@host` after its first `@`. */
  predicate IsHostText(raw: string, h: string) {
    if '@' in raw then exists i :: 0 <= i < |raw| && raw[i] == '@' && '@' !in raw[..i] && h == raw[i + 1..]
    else h == raw
  }

  ghost predicate StartsFs(h: string) { exists rest: string :: h == "fs://" + rest }

  lemma {:induction false} FirstAtIs(raw: string, k: nat)
    requires k < |raw| && raw[k] == '@' && '@' !in raw[..k]
    ensures FirstAt(raw) == k
  {
    if k > 0 {
      assert raw[0] in raw[..k];
      assert raw[1..][..k - 1] == raw[..k][1..];
      FirstAtIs(raw[1..], k - 1);
    }
  }

  lemma HostTextIff(cli: Cli, h: string)
    ensures Host(cli) == h <==> IsHostText(cli.rawHost, h)
  {
    if '@' in cli.rawHost {
      var i := FirstAt(cli.rawHost);
      if k :| 0 <= k < |cli.rawHost| && cli.rawHost[k] == '@' && '@' !in cli.rawHost[..k] && h == cli.rawHost[k + 1..] {
        FirstAtIs(cli.rawHost, k);
      }
    }
  }

  lemma StartsFsIff(h: string)
    ensures StartsFs(h) <==> |h| >= 5 && h[..5] == "fs://"
    ensures StartsFs(h) ==> !IsDeviceId(h)
  {
    if StartsFs(h) {
      var rest :| h == "fs://" + rest;
      assert h[2] == ':';
    }
    if |h| >= 5 && h[..5] == "fs://" {
      assert h == "fs://" + h[5..];
    }
  }

  /** A host name or address: neither a shared file system nor a DeviceID. */
  ghost predicate IsName(h: string) { !StartsFs(h) && !IsDeviceId(h) }

  lemma TextDecides(cli: Cli, h: string)
    requires IsHostText(cli.rawHost, h)
    ensures Host(cli) == h
    ensures IsFs(cli) <==> StartsFs(h)
    ensures ById(cli) <==> IsDeviceId(h)
    ensures User(cli).Some? <==> cli.user.Some? || '@' in cli.rawHost
  {
    HostTextIff(cli, h);
    StartsFsIff(h);
  }

  // ---- The conditions ---------------------------------------------------------------------

  /** The port is settled: by `-p`, or by a configured port other than the default. */
  predicate Fixes(cli: Cli, conf: Option<HostConf>, p: nat) {
    cli.port == Some(p) || (cli.port.None? && conf.Some? && conf.value.port == p && p != 8822)
  }

  predicate Unfixed(cli: Cli, conf: Option<HostConf>) { cli.port.None? && (conf.None? || conf.value.port == 8822) }

  /** No master answered. */
  predicate GoesOn(cli: Cli, w: World) { cli.noMux || cli.master || !cli.muxable || !w.mux.Answered? }

  /** The native chain starts: no master answered, and QUIC is not asked for. */
  predicate GoesNative(cli: Cli, w: World) { GoesOn(cli, w) && !cli.quic }

  ghost predicate Probes(w: World, h: string) {
    IsName(h) && (w.conf.None? || (w.conf.value.hostname.None? && !w.conf.value.lanFirst.No?))
  }

  /** The LAN is mandatory and was not found. */
  ghost predicate LanEnds(w: World, h: string) {
    Probes(w, h) && w.lan.None? && w.conf.Some? && w.conf.value.lanFirst.Yes?
  }

  /** Somebody is named, nobody is there to type a password, and no port is settled. */
  ghost predicate SshComesFirst(cli: Cli, w: World, h: string) {
    && IsName(h) && Unfixed(cli, w.conf) && !w.stdinIsTty && w.sshAvailable
    && (cli.user.Some? || '@' in cli.rawHost)
  }

  /** An SSH attempt serves the command. */
  predicate SshServes(cli: Cli, ssh: Ssh) {
    if cli.shell && !ssh.native.Missing? then ssh.native.Spawned? else ssh.connects
  }

  /** The direct attempt is reached. */
  ghost predicate ReachesDirect(cli: Cli, w: World, h: string) {
    && GoesNative(cli, w) && IsName(h) && !LanEnds(w, h)
    && !(SshComesFirst(cli, w, h) && SshServes(cli, w.sshFirst))
  }

  /** The address to dial: what the LAN probe found, else the configured one, else the text. */
  ghost predicate IsAddress(w: World, h: string, a: string) {
    if Probes(w, h) && w.lan.Some? then a == w.lan.value
    else if w.conf.Some? && w.conf.value.hostname.Some? then a == w.conf.value.hostname.value
    else a == h
  }

  /** The peer to look for. */
  predicate IsPeer(w: World, h: string, d: string) {
    if w.conf.Some? && w.conf.value.deviceId.Some? then d == w.conf.value.deviceId.value
    else IsDeviceId(h) && d == h
  }

  /** What the relay code is asked: that peer, with this machine's own identity and token, at the
      settled port, or at no port in particular. */
  ghost predicate Asks(cli: Cli, w: World, h: string, opts: Relay.Options) {
    && IsPeer(w, h, opts.deviceId) && opts.ownId == w.ownId && opts.enrollmentToken == w.enrollmentToken
    && !opts.forceRelay
    && (Unfixed(cli, w.conf) ==> opts.port == 8822 && opts.targetPort == 0)
    && (forall p :: Fixes(cli, w.conf, p) ==> opts.port == p && opts.targetPort == p)
  }

  lemma PortDecided(cli: Cli, w: World)
    ensures Unfixed(cli, w.conf) ==> ResolvedPort(cli, w) == 8822
    ensures AutoTryPorts(cli, w) <==> Unfixed(cli, w.conf)
    ensures forall p :: Fixes(cli, w.conf, p) <==> !Unfixed(cli, w.conf) && ResolvedPort(cli, w) == p
  {
  }

  lemma ConditionsHold(cli: Cli, w: World, h: string)
    requires IsHostText(cli.rawHost, h)
    ensures TriesLan(cli, w) <==> Probes(w, h)
    ensures TriesSshFirst(cli, w) <==> SshComesFirst(cli, w, h)
    ensures (AsksMaster(cli) && w.mux.Answered?) || cli.quic <==> !GoesNative(cli, w)
  {
    TextDecides(cli, h);
    PortDecided(cli, w);
  }

  lemma PeerDecided(cli: Cli, w: World, h: string, d: string)
    requires IsHostText(cli.rawHost, h)
    ensures DeviceId(cli, w) == Some(d) <==> IsPeer(w, h, d)
  {
    TextDecides(cli, h);
  }

  lemma OptionsDecided(cli: Cli, w: World, h: string, d: string)
    requires IsPeer(w, h, d)
    ensures Asks(cli, w, h, RelayOptions(cli, w, d)) && RelayOptions(cli, w, d).deviceId == d
  {
    PortDecided(cli, w);
  }

  lemma AddressDecided(cli: Cli, w: World, h: string, a: string)
    requires IsHostText(cli.rawHost, h)
    ensures IsAddress(w, h, a) <==> a == Address(cli, w)
  {
    TextDecides(cli, h);
    ConditionsHold(cli, w, h);
  }

  // ---- The parts of a run -----------------------------------------------------------------

  function Address(cli: Cli, w: World): string {
    if TriesLan(cli, w) && w.lan.Some? then w.lan.value else ResolvedHost(cli, w)
  }

  /** The run after the LAN probe. */
  function AfterLan(cli: Cli, w: World): seq<Event> {
    Walk(cli, w, (if TriesSshFirst(cli, w) then [SshFirst] else []) + ConnectStages(cli, w), Address(cli, w))
  }

  function AfterSsh(cli: Cli, w: World): seq<Event> { Walk(cli, w, ConnectStages(cli, w), Address(cli, w)) }

  predicate Ends(cli: Cli, w: World) {
    TriesLan(cli, w) && w.lan.None? && w.conf.Some? && w.conf.value.lanFirst.Yes?
  }

  lemma NativeParts(cli: Cli, w: World)
    ensures Walk(cli, w, NativeStages(cli, w), ResolvedHost(cli, w)) ==
      (if TriesLan(cli, w) then [LanProbe(ResolvedPort(cli, w))] else []) + (if Ends(cli, w) then [] else AfterLan(cli, w))
  {
    var rest := (if TriesSshFirst(cli, w) then [SshFirst] else []) + ConnectStages(cli, w);
    if TriesLan(cli, w) {
      assert NativeStages(cli, w) == [ProbeLan] + rest;
      WalkStep(cli, w, ProbeLan, rest, ResolvedHost(cli, w));
    } else {
      assert NativeStages(cli, w) == rest;
    }
  }

  lemma SshParts(cli: Cli, w: World)
    ensures TriesSshFirst(cli, w) ==>
      var v := SshVerdict(cli, w, w.sshFirst, Address(cli, w));
      AfterLan(cli, w) == v.events + (if v.Stop? then [] else AfterSsh(cli, w))
    ensures !TriesSshFirst(cli, w) ==> AfterLan(cli, w) == AfterSsh(cli, w)
  {
    if TriesSshFirst(cli, w) {
      WalkStep(cli, w, SshFirst, ConnectStages(cli, w), Address(cli, w));
      SshKeepsHost(cli, w, w.sshFirst, Address(cli, w));
    } else {
      assert [] + ConnectStages(cli, w) == ConnectStages(cli, w);
    }
  }

  lemma SshKeepsHost(cli: Cli, w: World, ssh: Ssh, host: string)
    requires w.sshAvailable
    ensures var v := SshVerdict(cli, w, ssh, host);
      && (v.Go? ==> v.host == host)
      && (v.Stop? <==> SshServes(cli, ssh))
      && (forall e :: e in v.events ==> e == SshConnect(host, 22) || e == Ran(NativeShell) || e == Ran(SshSession))
      && (v.events == [] <==> cli.shell && ssh.native.SpawnFails?)
  {
  }

  /** What follows a failed direct attempt. */
  function AfterDirect(cli: Cli, w: World): seq<Event> { Walk(cli, w, BackupStages(cli, w), Address(cli, w)) }

  lemma DirectParts(cli: Cli, w: World)
    requires !IsFs(cli) && !ById(cli)
    ensures AfterSsh(cli, w) ==
      [if AutoTryPorts(cli, w) then AutoTry(Address(cli, w), [9822, 8822, 22]) else TlsConnect(Address(cli, w), ResolvedPort(cli, w))]
      + (if w.direct.Some? then UseClient(cli, w) else AfterDirect(cli, w))
  {
    WalkStep(cli, w, UseDirect, BackupStages(cli, w), Address(cli, w));
  }

  lemma BackupParts(cli: Cli, w: World)
    ensures var d := DeviceId(cli, w);
      var last := if cli.port.None? && w.sshAvailable then SshVerdict(cli, w, w.sshLast, Address(cli, w)).events else [];
      AfterDirect(cli, w) ==
        if d.None? then last
        else
          var v := RelayVerdict(cli, w, d.value, Address(cli, w));
          v.events + if v.Stop? then [] else last
  {
    var host := Address(cli, w);
    var last := if cli.port.None? && w.sshAvailable then [SshLast] else [];
    WalkOne(cli, w, SshLast, host);
    if DeviceId(cli, w).Some? {
      RelayThen(cli, w, last, host);
    } else {
      assert BackupStages(cli, w) == last;
    }
  }

  lemma RelayThen(cli: Cli, w: World, last: seq<Stage>, host: string)
    requires DeviceId(cli, w).Some?
    ensures var v := RelayVerdict(cli, w, DeviceId(cli, w).value, host);
      Walk(cli, w, [UseRelay] + last, host) == v.events + if v.Stop? then [] else Walk(cli, w, last, host)
  {
    WalkStep(cli, w, UseRelay, last, host);
  }

  /** Every event belongs to a stage; without a LAN probe the address stays the same. */
  lemma {:induction false} EventOfStage(cli: Cli, w: World, stages: seq<Stage>, host: string, e: Event)
    returns (stage: Stage, at: string)
    requires e in Walk(cli, w, stages, host)
    ensures stage in stages && e in VerdictOf(cli, w, stage, at).events
    ensures ProbeLan !in stages ==> at == host
    decreases |stages|
  {
    var v := VerdictOf(cli, w, stages[0], host);
    if e in v.events {
      stage, at := stages[0], host;
    } else {
      stage, at := EventOfStage(cli, w, stages[1..], v.host, e);
    }
  }

  // ---- Ports and peers --------------------------------------------------------------------

  function Else(p: Option<nat>, default: nat): nat { if p.Some? then p.value else default }

  predicate RelayPortOk(a: Relay.Attempt, fixed: Option<nat>) {
    match a
    case SelfLoop(q) => q == Else(fixed, 8822)
    case P2P(_, q) => q == Else(fixed, 8822)
    case Via(_, t) => t == Else(fixed, 0)
    case Lan(_, _, q) => fixed.Some? && fixed.value != 0 ==> q == fixed.value
  }

  /** With a settled port every attempt is at that port; without one the direct attempt tries the tray,
      the service and SSH ports in turn, the rest is at the service port, and the relay is asked for no
      port. SSH is always at 22. */
  predicate PortOk(e: Event, fixed: Option<nat>) {
    match e
    case LanProbe(q) => q == Else(fixed, 8822)
    case SshConnect(_, q) => q == 22
    case AutoTry(_, ports) => fixed.None? && ports == [9822, 8822, 22]
    case TlsConnect(_, q) => fixed == Some(q)
    case QuicConnect(_, q) => q == Else(fixed, 8822)
    case FsConnect => true
    case Relayed(_, a) => RelayPortOk(a, fixed)
    case Ran(_) => true
  }

  /** The settled port, if there is one. */
  predicate Settled(cli: Cli, conf: Option<HostConf>, fixed: Option<nat>) {
    if fixed.Some? then Fixes(cli, conf, fixed.value) else Unfixed(cli, conf)
  }

  lemma StageAsks(cli: Cli, w: World, host: string, e: Event)
    requires e in VerdictOf(cli, w, UseRelay, host).events && e.Relayed?
    ensures DeviceId(cli, w) == Some(e.device) && e.a in Relay.Plan(RelayOptions(cli, w, e.device), w.relay)
  {
    var d := DeviceId(cli, w).value;
    Relay.WalkIsPrefix(w.relay, Relay.Plan(RelayOptions(cli, w, d), w.relay));
  }

  lemma StagePort(cli: Cli, w: World, stage: Stage, host: string, fixed: Option<nat>, e: Event)
    requires Settled(cli, w.conf, fixed) && e in VerdictOf(cli, w, stage, host).events
    ensures PortOk(e, fixed)
  {
    PortDecided(cli, w);
    if stage.UseRelay? && e.Relayed? {
      StageAsks(cli, w, host, e);
      Relay.PlanIff(RelayOptions(cli, w, e.device), w.relay, e.a);
    }
  }

  /** On every machine every event of a run is at the settled port, or at the default ports. */
  lemma PortsAreRight(cli: Cli, w: World, fixed: Option<nat>, e: Event)
    requires Settled(cli, w.conf, fixed) && e in Trace(cli, w)
    ensures PortOk(e, fixed)
  {
    var stage, at := EventOfStage(cli, w, Stages(cli, w), ResolvedHost(cli, w), e);
    StagePort(cli, w, stage, at, fixed, e);
  }

  lemma OnlyRelayRelays(cli: Cli, w: World, stage: Stage, host: string, e: Event)
    requires e in VerdictOf(cli, w, stage, host).events && e.Relayed?
    ensures stage.UseRelay?
  {
  }

  lemma RelayedPlan(cli: Cli, w: World, e: Event)
    requires e in Trace(cli, w) && e.Relayed?
    ensures DeviceId(cli, w) == Some(e.device) && e.a in Relay.Plan(RelayOptions(cli, w, e.device), w.relay)
  {
    var stage, at := EventOfStage(cli, w, Stages(cli, w), ResolvedHost(cli, w), e);
    OnlyRelayRelays(cli, w, stage, at, e);
    StageAsks(cli, w, at, e);
  }

  /** The relay code is asked for the right peer, as the right machine, and its attempts are among those
      planned for it. */
  lemma RelayedIsAsked(cli: Cli, w: World, h: string, e: Event) returns (opts: Relay.Options)
    requires IsHostText(cli.rawHost, h) && e in Trace(cli, w) && e.Relayed?
    ensures Asks(cli, w, h, opts) && opts.deviceId == e.device && e.a in Relay.Plan(opts, w.relay)
  {
    RelayedPlan(cli, w, e);
    PeerDecided(cli, w, h, e.device);
    OptionsDecided(cli, w, h, e.device);
    opts := RelayOptions(cli, w, e.device);
  }

  /** End to end, on any accepting server: a relayed stream ends at the settled port; with none settled
      it ends at the tray if that is up; otherwise, and for the service port, the server handles it. */
  lemma RelayedReaches(cli: Cli, w: World, fixed: Option<nat>, e: Event, trayIsUp: bool)
    requires Settled(cli, w.conf, fixed) && e in Trace(cli, w) && e.Relayed? && e.a.Via?
    ensures AcceptRelay(e.a.target, trayIsUp) ==
      if fixed.Some? && fixed.value != 0 then (if fixed.value == 8822 then InPlace else Local(fixed.value))
      else if trayIsUp then Local(9822) else InPlace
  {
    PortsAreRight(cli, w, fixed, e);
  }

  // ---- Addresses --------------------------------------------------------------------------

  lemma StageAddress(cli: Cli, w: World, stage: Stage, host: string, e: Event)
    requires e in VerdictOf(cli, w, stage, host).events
    ensures e.SshConnect? || e.AutoTry? || e.TlsConnect? || e.QuicConnect? ==> e.host == host
    ensures (e.QuicConnect? ==> stage.UseQuic?) && (e.LanProbe? ==> stage.ProbeLan?)
  {
  }

  lemma StageDirect(cli: Cli, w: World, stage: Stage, host: string, e: Event)
    requires e in VerdictOf(cli, w, stage, host).events
    ensures e.AutoTry? || e.TlsConnect? ==> stage.UseDirect?
  {
  }

  lemma StageOwns(cli: Cli, w: World, stage: Stage, host: string, e: Event)
    requires e in VerdictOf(cli, w, stage, host).events
    ensures (e == Ran(Quic) ==> stage.UseQuic?) && (e.FsConnect? ==> stage.UseFs?)
  {
  }

  lemma NativeAddress(cli: Cli, w: World, e: Event)
    requires e in AfterLan(cli, w)
    ensures e.SshConnect? || e.AutoTry? || e.TlsConnect? ==> e.host == Address(cli, w)
    ensures !e.QuicConnect? && !e.LanProbe?
  {
    var stages := (if TriesSshFirst(cli, w) then [SshFirst] else []) + ConnectStages(cli, w);
    ConnectHas(cli, w);
    var stage, at := EventOfStage(cli, w, stages, Address(cli, w), e);
    StageAddress(cli, w, stage, at, e);
  }

  lemma ConnectHas(cli: Cli, w: World)
    ensures forall s :: s in ConnectStages(cli, w) ==> s in {UseFs, UseRelay, UseDirect, SshLast}
  {
  }

  /** Whatever is dialled by name is dialled at the address the LAN probe found, else at the configured
      one, else at the text after `-h`; QUIC does not probe. */
  lemma AddressesAreRight(cli: Cli, w: World, h: string, e: Event)
    requires IsHostText(cli.rawHost, h) && e in Trace(cli, w)
    ensures e.SshConnect? || e.AutoTry? || e.TlsConnect? ==> IsAddress(w, h, e.host)
    ensures e.QuicConnect? ==> e.host == if w.conf.Some? && w.conf.value.hostname.Some? then w.conf.value.hostname.value else h
  {
    if cli.quic {
      TextDecides(cli, h);
      QuicTrace(cli, w, e);
    } else {
      NativeTraceAddress(cli, w, e);
      AddressDecided(cli, w, h, Address(cli, w));
    }
  }

  lemma QuicTrace(cli: Cli, w: World, e: Event)
    requires cli.quic && e in Trace(cli, w)
    ensures e.Ran? || e == QuicConnect(ResolvedHost(cli, w), ResolvedPort(cli, w))
  {
    MasterFirst(cli, w);
    WalkOne(cli, w, UseQuic, ResolvedHost(cli, w));
  }

  lemma NativeTraceAddress(cli: Cli, w: World, e: Event)
    requires !cli.quic && e in Trace(cli, w)
    ensures e.SshConnect? || e.AutoTry? || e.TlsConnect? ==> e.host == Address(cli, w)
    ensures !e.QuicConnect?
  {
    MasterFirst(cli, w);
    NativeParts(cli, w);
    if e in AfterLan(cli, w) {
      NativeAddress(cli, w, e);
    }
  }

  // ---- The order of a run -----------------------------------------------------------------

  predicate IsDirect(e: Event) { e.AutoTry? || e.TlsConnect? }

  predicate HasSsh(trace: seq<Event>) { exists i :: 0 <= i < |trace| && IsSsh(trace[i]) }

  predicate HasDirect(trace: seq<Event>) { exists i :: 0 <= i < |trace| && IsDirect(trace[i]) }

  function ProbePart(cli: Cli, w: World): seq<Event> {
    if TriesLan(cli, w) then [LanProbe(ResolvedPort(cli, w))] else []
  }

  function SshPart(cli: Cli, w: World): seq<Event> {
    if TriesSshFirst(cli, w) then SshVerdict(cli, w, w.sshFirst, Address(cli, w)).events else []
  }

  /** A native run: what comes before the connection, and the connection unless something ended it. */
  lemma NativeTrace(cli: Cli, w: World, h: string)
    requires IsHostText(cli.rawHost, h) && GoesNative(cli, w)
    ensures Trace(cli, w) ==
      if LanEnds(w, h) then MasterEvents(cli, w) + ProbePart(cli, w)
      else
        MasterEvents(cli, w) + ProbePart(cli, w) + SshPart(cli, w)
        + (if SshComesFirst(cli, w, h) && SshServes(cli, w.sshFirst) then [] else AfterSsh(cli, w))
  {
    MasterFirst(cli, w);
    ConditionsHold(cli, w, h);
    NativeParts(cli, w);
    SshParts(cli, w);
    if TriesSshFirst(cli, w) {
      SshKeepsHost(cli, w, w.sshFirst, Address(cli, w));
    }
    Regroup(MasterEvents(cli, w), ProbePart(cli, w), SshPart(cli, w), AfterSsh(cli, w));
  }

  lemma Regroup(a: seq<Event>, b: seq<Event>, c: seq<Event>, d: seq<Event>)
    ensures a + (b + (c + d)) == a + b + c + d && a + (b + c) == a + b + c && a + (b + []) == a + b && a + b + c + [] == a + b + c
    ensures [] + d == d
  {
  }

  /** Otherwise the run is the master's answer or one QUIC connection. */
  lemma OtherTrace(cli: Cli, w: World, e: Event)
    requires !GoesNative(cli, w)
    ensures e in Trace(cli, w) ==> e == Ran(Mux) || e == Ran(Quic) || e.QuicConnect?
  {
    MasterFirst(cli, w);
    if cli.quic {
      WalkOne(cli, w, UseQuic, ResolvedHost(cli, w));
    }
  }

  function DirectOf(cli: Cli, w: World): Event {
    if AutoTryPorts(cli, w) then AutoTry(Address(cli, w), [9822, 8822, 22]) else TlsConnect(Address(cli, w), ResolvedPort(cli, w))
  }

  function Rest(cli: Cli, w: World): seq<Event> {
    if w.direct.Some? then UseClient(cli, w) else AfterDirect(cli, w)
  }

  /** Nothing after the direct attempt is one. */
  lemma RestIsIndirect(cli: Cli, w: World, e: Event)
    requires e in Rest(cli, w)
    ensures !IsDirect(e) && !e.LanProbe?
  {
    if w.direct.None? {
      var stage, at := EventOfStage(cli, w, BackupStages(cli, w), Address(cli, w), e);
      StageDirect(cli, w, stage, at, e);
      StageAddress(cli, w, stage, at, e);
      BackupHas(cli, w);
    }
  }

  lemma BackupHas(cli: Cli, w: World)
    ensures forall s :: s in BackupStages(cli, w) ==> s in {UseRelay, SshLast}
  {
  }

  /** To a shared file system or a DeviceID the connection is neither direct nor SSH. */
  lemma UnnamedIsIndirect(cli: Cli, w: World, e: Event)
    requires (IsFs(cli) || ById(cli)) && e in AfterSsh(cli, w)
    ensures !IsDirect(e) && !IsSsh(e) && !e.LanProbe?
  {
    var stage, at := EventOfStage(cli, w, ConnectStages(cli, w), Address(cli, w), e);
  }

  lemma EarlyIsIndirect(cli: Cli, w: World, e: Event)
    ensures e in MasterEvents(cli, w) + ProbePart(cli, w) ==> !IsDirect(e) && !IsSsh(e)
    ensures e in SshPart(cli, w) ==> IsSsh(e) && !IsDirect(e)
  {
    if TriesSshFirst(cli, w) {
      SshKeepsHost(cli, w, w.sshFirst, Address(cli, w));
    }
  }

  /** The direct attempt as it must be. */
  ghost predicate RightDirect(cli: Cli, w: World, h: string, e: Event) {
    match e
    case AutoTry(a, ports) => Unfixed(cli, w.conf) && ports == [9822, 8822, 22] && IsAddress(w, h, a)
    case TlsConnect(a, p) => Fixes(cli, w.conf, p) && IsAddress(w, h, a)
    case _ => false
  }

  lemma RightDirectIff(cli: Cli, w: World, h: string, e: Event)
    requires IsHostText(cli.rawHost, h)
    ensures RightDirect(cli, w, h, e) <==> e == DirectOf(cli, w)
  {
    PortDecided(cli, w);
    AddressDecided(cli, w, h, Address(cli, w));
    if IsDirect(e) {
      AddressDecided(cli, w, h, e.host);
    }
  }

  lemma DirectInTrace(cli: Cli, w: World, h: string, e: Event)
    requires IsHostText(cli.rawHost, h) && IsDirect(e)
    ensures e in Trace(cli, w) <==> ReachesDirect(cli, w, h) && e == DirectOf(cli, w)
  {
    TextDecides(cli, h);
    EarlyIsIndirect(cli, w, e);
    if GoesNative(cli, w) {
      NativeTrace(cli, w, h);
      if IsName(h) {
        DirectSplit(cli, w);
        if e in Rest(cli, w) {
          RestIsIndirect(cli, w, e);
        }
      } else if e in AfterSsh(cli, w) {
        UnnamedIsIndirect(cli, w, e);
      }
    } else {
      OtherTrace(cli, w, e);
    }
  }

  /** The direct attempt is made exactly when it is reached, to the right address, at the settled port
      or at the three default ports in order. */
  lemma DirectIff(cli: Cli, w: World, h: string, e: Event)
    requires IsHostText(cli.rawHost, h) && IsDirect(e)
    ensures e in Trace(cli, w) <==> ReachesDirect(cli, w, h) && RightDirect(cli, w, h, e)
  {
    DirectInTrace(cli, w, h, e);
    RightDirectIff(cli, w, h, e);
  }

  /** The LAN is probed exactly for a host name that the configuration gives no address and does not
      exempt. */
  lemma LanProbedIff(cli: Cli, w: World, h: string)
    requires IsHostText(cli.rawHost, h)
    ensures (exists e :: e in Trace(cli, w) && e.LanProbe?) <==> GoesNative(cli, w) && Probes(w, h)
  {
    ConditionsHold(cli, w, h);
    if GoesNative(cli, w) {
      MasterFirst(cli, w);
      NativeParts(cli, w);
      if e :| e in AfterLan(cli, w) && e.LanProbe? {
        NativeAddress(cli, w, e);
      }
      if Probes(w, h) {
        assert LanProbe(ResolvedPort(cli, w)) in Trace(cli, w);
      }
    } else if e :| e in Trace(cli, w) && e.LanProbe? {
      OtherTrace(cli, w, e);
    }
  }

  // ---- SSH before and after ---------------------------------------------------------------

  predicate SshBefore(trace: seq<Event>) {
    exists i :: 0 <= i < |trace| && IsSsh(trace[i]) && !HasDirect(trace[..i])
  }

  predicate SshAfter(trace: seq<Event>) {
    exists i :: 0 <= i < |trace| && IsSsh(trace[i]) && HasDirect(trace[..i])
  }

  lemma SshWithoutDirect(trace: seq<Event>)
    requires !HasDirect(trace)
    ensures !SshAfter(trace) && (SshBefore(trace) <==> HasSsh(trace))
  {
    forall i | 0 <= i < |trace| ensures !HasDirect(trace[..i]) {
      forall j | 0 <= j < i ensures !IsDirect(trace[..i][j]) {
        assert trace[..i][j] == trace[j];
      }
    }
  }

  lemma SshAround(before: seq<Event>, d: Event, after: seq<Event>)
    requires !HasDirect(before) && IsDirect(d)
    ensures SshBefore(before + [d] + after) <==> HasSsh(before)
    ensures SshAfter(before + [d] + after) <==> HasSsh(after)
  {
    var trace := before + [d] + after;
    forall i | 0 <= i < |trace| ensures HasDirect(trace[..i]) <==> i > |before| {
      DirectFrom(before, d, after, i);
    }
    if i :| 0 <= i < |before| && IsSsh(before[i]) {
      assert IsSsh(trace[i]);
    }
    if i :| 0 <= i < |after| && IsSsh(after[i]) {
      assert IsSsh(trace[|before| + 1 + i]);
    }
    if i :| 0 <= i < |trace| && IsSsh(trace[i]) && HasDirect(trace[..i]) {
      assert IsSsh(after[i - |before| - 1]);
    }
  }

  lemma DirectFrom(before: seq<Event>, d: Event, after: seq<Event>, i: nat)
    requires !HasDirect(before) && IsDirect(d) && i < |before + [d] + after|
    ensures HasDirect((before + [d] + after)[..i]) <==> i > |before|
  {
    var trace := before + [d] + after;
    if i > |before| {
      assert IsDirect(trace[..i][|before|]);
    } else {
      forall j | 0 <= j < i ensures !IsDirect(trace[..i][j]) {
        assert trace[..i][j] == before[j];
      }
    }
  }

  lemma NoSshInside(trace: seq<Event>)
    ensures (forall e :: e in trace ==> !IsSsh(e)) ==> !HasSsh(trace)
    ensures (forall e :: e in trace ==> !IsDirect(e)) ==> !HasDirect(trace)
  {
  }

  /** Which part of a run SSH events belong to. */
  lemma SshPlaces(cli: Cli, w: World, h: string)
    requires IsHostText(cli.rawHost, h)
    ensures SshBefore(Trace(cli, w)) <==> GoesNative(cli, w) && !LanEnds(w, h) && HasSsh(SshPart(cli, w))
    ensures SshAfter(Trace(cli, w)) <==> ReachesDirect(cli, w, h) && HasSsh(Rest(cli, w))
  {
    ConditionsHold(cli, w, h);
    TextDecides(cli, h);
    forall e ensures e in Trace(cli, w) && IsDirect(e) <==> ReachesDirect(cli, w, h) && e == DirectOf(cli, w) {
      if IsDirect(e) {
        DirectInTrace(cli, w, h, e);
      }
    }
    if ReachesDirect(cli, w, h) {
      NamedSshPlaces(cli, w, h);
    } else {
      NoSshInside(Trace(cli, w));
      SshWithoutDirect(Trace(cli, w));
      UnreachedSshPlaces(cli, w, h);
    }
  }

  function Early(cli: Cli, w: World): seq<Event> { MasterEvents(cli, w) + ProbePart(cli, w) + SshPart(cli, w) }

  lemma EarlySsh(cli: Cli, w: World)
    ensures !HasDirect(Early(cli, w)) && (HasSsh(Early(cli, w)) <==> HasSsh(SshPart(cli, w)))
  {
    forall e ensures e in MasterEvents(cli, w) + ProbePart(cli, w) ==> !IsDirect(e) && !IsSsh(e)
      ensures e in SshPart(cli, w) ==> IsSsh(e) && !IsDirect(e)
    {
      EarlyIsIndirect(cli, w, e);
    }
    NoSshInside(Early(cli, w));
    var n := |MasterEvents(cli, w) + ProbePart(cli, w)|;
    if i :| 0 <= i < |SshPart(cli, w)| && IsSsh(SshPart(cli, w)[i]) {
      assert IsSsh(Early(cli, w)[n + i]);
    }
    forall i | 0 <= i < n ensures !IsSsh(Early(cli, w)[i]) {
      assert Early(cli, w)[i] in MasterEvents(cli, w) + ProbePart(cli, w);
    }
    if i :| 0 <= i < |Early(cli, w)| && IsSsh(Early(cli, w)[i]) {
      assert SshPart(cli, w)[i - n] == Early(cli, w)[i];
    }
  }

  lemma NamedSshPlaces(cli: Cli, w: World, h: string)
    requires IsHostText(cli.rawHost, h) && ReachesDirect(cli, w, h)
    ensures SshBefore(Trace(cli, w)) <==> HasSsh(SshPart(cli, w))
    ensures SshAfter(Trace(cli, w)) <==> HasSsh(Rest(cli, w))
  {
    NamedTrace(cli, w, h);
    EarlySsh(cli, w);
    SshAround(Early(cli, w), DirectOf(cli, w), Rest(cli, w));
  }

  lemma NamedTrace(cli: Cli, w: World, h: string)
    requires IsHostText(cli.rawHost, h) && ReachesDirect(cli, w, h)
    ensures Trace(cli, w) == Early(cli, w) + [DirectOf(cli, w)] + Rest(cli, w)
  {
    TextDecides(cli, h);
    ReachedTrace(cli, w, h);
    DirectSplit(cli, w);
    Assoc(Early(cli, w), [DirectOf(cli, w)], Rest(cli, w));
  }

  lemma ReachedTrace(cli: Cli, w: World, h: string)
    requires IsHostText(cli.rawHost, h) && ReachesDirect(cli, w, h)
    ensures Trace(cli, w) == Early(cli, w) + AfterSsh(cli, w)
  {
    NativeTrace(cli, w, h);
  }

  lemma DirectSplit(cli: Cli, w: World)
    requires !IsFs(cli) && !ById(cli)
    ensures AfterSsh(cli, w) == [DirectOf(cli, w)] + Rest(cli, w)
  {
    DirectParts(cli, w);
  }

  lemma Assoc(a: seq<Event>, b: seq<Event>, c: seq<Event>)
    ensures a + (b + c) == a + b + c
  {
  }

  lemma UnreachedSshPlaces(cli: Cli, w: World, h: string)
    requires IsHostText(cli.rawHost, h) && !ReachesDirect(cli, w, h)
    ensures HasSsh(Trace(cli, w)) <==> GoesNative(cli, w) && !LanEnds(w, h) && HasSsh(SshPart(cli, w))
  {
    TextDecides(cli, h);
    if !GoesNative(cli, w) {
      OtherWithoutSsh(cli, w);
    } else {
      EarlySsh(cli, w);
      NativeTrace(cli, w, h);
      if LanEnds(w, h) {
        NoSshInside(Trace(cli, w));
      } else if IsName(h) {
        assert Trace(cli, w) == Early(cli, w) + [];
        assert Early(cli, w) + [] == Early(cli, w);
      } else {
        UnnamedWithoutSsh(cli, w);
        assert Trace(cli, w) == Early(cli, w) + AfterSsh(cli, w);
      }
    }
  }

  lemma OtherWithoutSsh(cli: Cli, w: World)
    requires !GoesNative(cli, w)
    ensures !HasSsh(Trace(cli, w))
  {
    forall e | e in Trace(cli, w) ensures !IsSsh(e) {
      OtherTrace(cli, w, e);
    }
    NoSshInside(Trace(cli, w));
  }

  lemma UnnamedWithoutSsh(cli: Cli, w: World)
    requires IsFs(cli) || ById(cli)
    ensures SshPart(cli, w) == [] && !HasSsh(Early(cli, w) + AfterSsh(cli, w))
  {
    forall e | e in Early(cli, w) + AfterSsh(cli, w) ensures !IsSsh(e) {
      EarlyIsIndirect(cli, w, e);
      if e in AfterSsh(cli, w) {
        UnnamedIsIndirect(cli, w, e);
      }
    }
    NoSshInside(Early(cli, w) + AfterSsh(cli, w));
  }

  /** SSH is tried before the direct attempt exactly for a named user without a terminal and without a
      settled port; only a native shell that cannot be started leaves no trace. */
  lemma SshFirstIff(cli: Cli, w: World, h: string)
    requires IsHostText(cli.rawHost, h)
    ensures SshBefore(Trace(cli, w)) <==>
      GoesNative(cli, w) && !LanEnds(w, h) && SshComesFirst(cli, w, h) && !(cli.shell && w.sshFirst.native.SpawnFails?)
  {
    SshPlaces(cli, w, h);
    ConditionsHold(cli, w, h);
    if TriesSshFirst(cli, w) {
      SshKeepsHost(cli, w, w.sshFirst, Address(cli, w));
      SshSeen(SshPart(cli, w));
    }
  }

  lemma SshSeen(events: seq<Event>)
    requires forall e :: e in events ==> IsSsh(e)
    ensures HasSsh(events) <==> events != []
  {
    if events != [] {
      assert events[0] in events && IsSsh(events[0]);
    }
  }

  /** Some attempt planned for the peer succeeds. */
  ghost predicate RelayServes(cli: Cli, w: World, h: string) {
    exists opts, a :: Asks(cli, w, h, opts) && a in Relay.Plan(opts, w.relay) && Relay.Succeeds(w.relay, a)
  }

  lemma {:induction false} FirstSuccessIff(w: Relay.World, plan: seq<Relay.Attempt>)
    ensures Relay.FirstSuccess(w, plan).Some? <==> exists a :: a in plan && Relay.Succeeds(w, a)
  {
    if plan != [] {
      FirstSuccessIff(w, plan[1..]);
    }
  }

  lemma AsksIsUnique(cli: Cli, w: World, h: string, opts: Relay.Options)
    requires IsHostText(cli.rawHost, h)
    ensures Asks(cli, w, h, opts) <==> DeviceId(cli, w) == Some(opts.deviceId) && opts == RelayOptions(cli, w, opts.deviceId)
  {
    PeerDecided(cli, w, h, opts.deviceId);
    PortDecided(cli, w);
    if Asks(cli, w, h, opts) {
      OptionsDecided(cli, w, h, opts.deviceId);
      assert !Unfixed(cli, w.conf) ==> Fixes(cli, w.conf, ResolvedPort(cli, w));
    }
  }

  lemma RelayServesIff(cli: Cli, w: World, h: string)
    requires IsHostText(cli.rawHost, h)
    ensures RelayServes(cli, w, h) <==>
      DeviceId(cli, w).Some? && RelayVerdict(cli, w, DeviceId(cli, w).value, Address(cli, w)).Stop?
  {
    if DeviceId(cli, w).Some? {
      var opts := RelayOptions(cli, w, DeviceId(cli, w).value);
      FirstSuccessIff(w.relay, Relay.Plan(opts, w.relay));
      AsksIsUnique(cli, w, h, opts);
    }
    if opts, a :| Asks(cli, w, h, opts) && a in Relay.Plan(opts, w.relay) && Relay.Succeeds(w.relay, a) {
      AsksIsUnique(cli, w, h, opts);
    }
  }

  /** SSH is tried after the direct attempt exactly when that failed, no relay attempt succeeded and no
      `-p` was given. */
  lemma SshLastIff(cli: Cli, w: World, h: string)
    requires IsHostText(cli.rawHost, h)
    ensures SshAfter(Trace(cli, w)) <==>
      && ReachesDirect(cli, w, h) && w.direct.None? && !RelayServes(cli, w, h)
      && cli.port.None? && w.sshAvailable && !(cli.shell && w.sshLast.native.SpawnFails?)
  {
    SshPlaces(cli, w, h);
    RelayServesIff(cli, w, h);
    if w.direct.None? {
      SshInBackup(cli, w);
    }
  }

  lemma SshInBackup(cli: Cli, w: World)
    ensures HasSsh(AfterDirect(cli, w)) <==>
      && !(DeviceId(cli, w).Some? && RelayVerdict(cli, w, DeviceId(cli, w).value, Address(cli, w)).Stop?)
      && cli.port.None? && w.sshAvailable && !(cli.shell && w.sshLast.native.SpawnFails?)
  {
    BackupParts(cli, w);
    var last := if cli.port.None? && w.sshAvailable then SshVerdict(cli, w, w.sshLast, Address(cli, w)).events else [];
    if w.sshAvailable {
      SshKeepsHost(cli, w, w.sshLast, Address(cli, w));
    }
    SshSeen(last);
    if DeviceId(cli, w).Some? {
      RelayWithoutSsh(cli, w, Address(cli, w), last);
      RelayWithoutSsh(cli, w, Address(cli, w), []);
    }
  }

  lemma RelayWithoutSsh(cli: Cli, w: World, host: string, last: seq<Event>)
    requires DeviceId(cli, w).Some?
    ensures HasSsh(RelayVerdict(cli, w, DeviceId(cli, w).value, host).events + last) <==> HasSsh(last)
  {
    var v := RelayVerdict(cli, w, DeviceId(cli, w).value, host).events;
    forall i | 0 <= i < |v| ensures !IsSsh((v + last)[i]) {
      StageWithoutSsh(cli, w, UseRelay, host);
      assert v == VerdictOf(cli, w, UseRelay, host).events;
    }
    if i :| 0 <= i < |last| && IsSsh(last[i]) {
      assert IsSsh((v + last)[|v| + i]);
    }
    if i :| 0 <= i < |v + last| && IsSsh((v + last)[i]) {
      assert last[i - |v|] == (v + last)[i];
    }
  }

  // ---- What is run over an mrsh connection ------------------------------------------------

  /** A native connection comes up. */
  ghost predicate Connects(cli: Cli, w: World, h: string) {
    && GoesNative(cli, w) && !LanEnds(w, h) && !(SshComesFirst(cli, w, h) && SshServes(cli, w.sshFirst))
    && (if StartsFs(h) then w.fsConnects
        else if IsDeviceId(h) then RelayServes(cli, w, h)
        else w.direct.Some? || RelayServes(cli, w, h))
  }

  /** The command may go over it: a desktop command does not go to the SYSTEM service, a master and a
      proxy have no command, and a streamed `exec` needs arguments. */
  predicate Allowed(cli: Cli, w: World) {
    && (w.isSystem && cli.desktop ==> w.systemForce)
    && !cli.master && !cli.dynamic
    && (cli.exec && w.streamExec ==> cli.hasArgs)
  }

  lemma ClientOf(cli: Cli, w: World)
    ensures Ran(Client) in UseClient(cli, w) <==> Allowed(cli, w)
  {
  }

  lemma ClientEarly(cli: Cli, w: World)
    ensures Ran(Client) !in Early(cli, w)
  {
    if TriesSshFirst(cli, w) {
      SshKeepsHost(cli, w, w.sshFirst, Address(cli, w));
    }
  }

  lemma ClientOverRelay(cli: Cli, w: World, h: string)
    requires IsHostText(cli.rawHost, h)
    ensures DeviceId(cli, w).Some? ==>
      var v := RelayVerdict(cli, w, DeviceId(cli, w).value, Address(cli, w));
      Ran(Client) in v.events <==> Allowed(cli, w) && RelayServes(cli, w, h)
    ensures DeviceId(cli, w).None? ==> !RelayServes(cli, w, h)
  {
    RelayServesIff(cli, w, h);
    ClientOf(cli, w);
  }

  lemma ClientOverBackup(cli: Cli, w: World, h: string)
    requires IsHostText(cli.rawHost, h)
    ensures Ran(Client) in AfterDirect(cli, w) <==> Allowed(cli, w) && RelayServes(cli, w, h)
  {
    BackupParts(cli, w);
    ClientOverRelay(cli, w, h);
    if w.sshAvailable {
      SshKeepsHost(cli, w, w.sshLast, Address(cli, w));
    }
    RelayServesIff(cli, w, h);
  }

  lemma ClientOverConnection(cli: Cli, w: World, h: string)
    requires IsHostText(cli.rawHost, h)
    ensures Ran(Client) in AfterSsh(cli, w) <==>
      && Allowed(cli, w)
      && if StartsFs(h) then w.fsConnects
         else if IsDeviceId(h) then RelayServes(cli, w, h)
         else w.direct.Some? || RelayServes(cli, w, h)
  {
    TextDecides(cli, h);
    ClientOf(cli, w);
    if IsFs(cli) {
      WalkOne(cli, w, UseFs, Address(cli, w));
    } else if ById(cli) {
      WalkOne(cli, w, UseRelay, Address(cli, w));
      ClientOverRelay(cli, w, h);
    } else {
      DirectParts(cli, w);
      ClientOverBackup(cli, w, h);
    }
  }

  /** The command is dispatched over an mrsh connection exactly when one comes up and it may go there. */
  lemma ClientRunsIff(cli: Cli, w: World, h: string)
    requires IsHostText(cli.rawHost, h)
    ensures Ran(Client) in Trace(cli, w) <==> Connects(cli, w, h) && Allowed(cli, w)
  {
    if GoesNative(cli, w) {
      NativeTrace(cli, w, h);
      ClientEarly(cli, w);
      ClientOverConnection(cli, w, h);
    } else {
      OtherTrace(cli, w, Ran(Client));
    }
  }

  /** A shared file system is opened exactly for `fs://`. */
  lemma FsIff(cli: Cli, w: World, h: string)
    requires IsHostText(cli.rawHost, h)
    ensures FsConnect in Trace(cli, w) <==> GoesNative(cli, w) && StartsFs(h)
  {
    TextDecides(cli, h);
    if GoesNative(cli, w) {
      NativeTrace(cli, w, h);
      EarlyWithoutFs(cli, w);
      FsInConnection(cli, w);
    } else {
      OtherTrace(cli, w, FsConnect);
    }
  }

  lemma FsInConnection(cli: Cli, w: World)
    ensures FsConnect in AfterSsh(cli, w) <==> IsFs(cli)
  {
    if IsFs(cli) {
      WalkOne(cli, w, UseFs, Address(cli, w));
    } else if FsConnect in AfterSsh(cli, w) {
      var stage, at := EventOfStage(cli, w, ConnectStages(cli, w), Address(cli, w), FsConnect);
      StageOwns(cli, w, stage, at, FsConnect);
      NoFsStage(cli, w);
    }
  }

  lemma NoFsStage(cli: Cli, w: World)
    ensures !IsFs(cli) ==> UseFs !in ConnectStages(cli, w)
    ensures !cli.quic ==> UseQuic !in Stages(cli, w)
  {
    ConnectHas(cli, w);
  }

  lemma EarlyWithoutFs(cli: Cli, w: World)
    ensures FsConnect !in Early(cli, w)
  {
    if TriesSshFirst(cli, w) {
      SshKeepsHost(cli, w, w.sshFirst, Address(cli, w));
    }
  }

  /** QUIC is used exactly when asked for, unless a master answered, and then runs the command itself. */
  lemma QuicIff(cli: Cli, w: World)
    ensures (exists e :: e in Trace(cli, w) && e.QuicConnect?) <==> cli.quic && GoesOn(cli, w)
    ensures Ran(Quic) in Trace(cli, w) <==> cli.quic && GoesOn(cli, w) && w.quicConnects && !cli.dynamic
  {
    if cli.quic {
      QuicRun(cli, w);
      var e := QuicConnect(ResolvedHost(cli, w), ResolvedPort(cli, w));
      assert GoesOn(cli, w) ==> e in Trace(cli, w);
    } else {
      QuicNever(cli, w);
    }
  }

  lemma QuicRun(cli: Cli, w: World)
    requires cli.quic
    ensures Trace(cli, w) == MasterEvents(cli, w) +
      if !GoesOn(cli, w) then []
      else [QuicConnect(ResolvedHost(cli, w), ResolvedPort(cli, w))] + (if w.quicConnects && !cli.dynamic then [Ran(Quic)] else [])
  {
    MasterFirst(cli, w);
    WalkOne(cli, w, UseQuic, ResolvedHost(cli, w));
  }

  lemma QuicNever(cli: Cli, w: World)
    requires !cli.quic
    ensures forall e :: e in Trace(cli, w) ==> !e.QuicConnect? && e != Ran(Quic)
  {
    NoFsStage(cli, w);
    forall e | e in Trace(cli, w) ensures !e.QuicConnect? && e != Ran(Quic) {
      var stage, at := EventOfStage(cli, w, Stages(cli, w), ResolvedHost(cli, w), e);
      StageAddress(cli, w, stage, at, e);
      StageOwns(cli, w, stage, at, e);
    }
  }
}
