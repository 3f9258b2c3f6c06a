/** Peers by DeviceID. */
module Relay {
  // Self-loop, LAN candidates, P2P and relay, in that order. Network outcomes are fields of `World`, so
  // the results hold for every network.

  import opened Common

  datatype Options = Options(
    deviceId: string, ownId: Option<string>, port: nat, targetPort: nat,
    forceRelay: bool, enrollmentToken: string)

  datatype Iface = Iface(ip: string, sameSubnet: bool)

  datatype NetInfo = NetInfo(servicePort: nat, ifaces: seq<Iface>)

  datatype Resolved = Resolved(hasNetInfo: bool, addr: Option<string>, relayServer: string)

  /** What the network and the local files answer. LAN outcomes are per interface index. */
  datatype World = World(
    resolved: Option<Resolved>, groupTokens: seq<string>, decrypt: string -> Option<NetInfo>,
    probe: nat -> Option<nat>, lanTls: nat -> bool, selfOk: bool, p2pOk: bool, relayOk: bool)

  /** A connection attempt. `Via` asks the peer's server for `target`. */
  datatype Attempt =
    | SelfLoop(port: nat)
    | Lan(idx: nat, ip: string, port: nat)
    | P2P(ip: string, port: nat)
    | Via(relay: string, target: nat)

  predicate Succeeds(w: World, a: Attempt) {
    match a
    case SelfLoop(_) => w.selfOk
    case Lan(i, _, _) => w.lanTls(i)
    case P2P(_, _) => w.p2pOk
    case Via(_, _) => w.relayOk
  }

  /** A peer interface that may be tried, with the TCP probe's round trip. */
  datatype Candidate = Candidate(idx: nat, ip: string, sameSubnet: bool, rtt: nat)

  // ---- Stable sorting -------------------------------------------------------------------

  predicate SubnetLeq(a: Candidate, b: Candidate) { b.sameSubnet ==> a.sameSubnet }

  /** Same subnet first, then the shorter round trip. */
  predicate SpeedLeq(a: Candidate, b: Candidate) {
    if a.sameSubnet == b.sameSubnet then a.rtt <= b.rtt else a.sameSubnet
  }

  predicate Leq(bySpeed: bool, a: Candidate, b: Candidate) {
    if bySpeed then SpeedLeq(a, b) else SubnetLeq(a, b)
  }

  /** Inserts after every element that is not greater: equal keys keep their order. */
  function Insert(bySpeed: bool, s: seq<Candidate>, x: Candidate): seq<Candidate> {
    if s == [] then [x]
    else
      var n := |s| - 1;
      if Leq(bySpeed, s[n], x) then s + [x] else Insert(bySpeed, s[..n], x) + [s[n]]
  }

  function StableSort(bySpeed: bool, s: seq<Candidate>): seq<Candidate> {
    if s == [] then [] else Insert(bySpeed, StableSort(bySpeed, s[..|s| - 1]), s[|s| - 1])
  }

  /** `a` may stand before `b`: smaller key, or equal key and earlier interface. */
  predicate Before(bySpeed: bool, a: Candidate, b: Candidate) {
    Leq(bySpeed, a, b) && (Leq(bySpeed, b, a) ==> a.idx < b.idx)
  }

  predicate Ordered(bySpeed: bool, s: seq<Candidate>) {
    forall i, j :: 0 <= i < j < |s| ==> Before(bySpeed, s[i], s[j])
  }

  /** Elements with equal keys stand in interface order. */
  predicate TiesInOrder(bySpeed: bool, s: seq<Candidate>) {
    forall i, j :: 0 <= i < j < |s| && Leq(bySpeed, s[i], s[j]) && Leq(bySpeed, s[j], s[i]) ==>
      s[i].idx < s[j].idx
  }

  lemma {:induction false} InsertElems(bySpeed: bool, s: seq<Candidate>, x: Candidate)
    ensures multiset(Insert(bySpeed, s, x)) == multiset(s) + multiset{x}
    decreases |s|
  {
    if s != [] {
      var n := |s| - 1;
      assert s == s[..n] + [s[n]];
      InsertElems(bySpeed, s[..n], x);
    }
  }

  lemma {:induction false} InsertOrders(bySpeed: bool, s: seq<Candidate>, x: Candidate)
    requires Ordered(bySpeed, s)
    requires forall y :: y in s && Leq(bySpeed, y, x) && Leq(bySpeed, x, y) ==> y.idx < x.idx
    ensures Ordered(bySpeed, Insert(bySpeed, s, x))
    decreases |s|
  {
    if s != [] {
      var n := |s| - 1;
      if Leq(bySpeed, s[n], x) {
        forall i | 0 <= i < |s| ensures Before(bySpeed, s[i], x) {
          assert s[i] in s;
          assert i < n ==> Before(bySpeed, s[i], s[n]);
        }
      } else {
        InsertOrders(bySpeed, s[..n], x);
        InsertElems(bySpeed, s[..n], x);
        var r := Insert(bySpeed, s[..n], x);
        forall i | 0 <= i < |r| ensures Before(bySpeed, r[i], s[n]) {
          assert r[i] in multiset(r);
          if r[i] != x {
            assert r[i] in s[..n];
          }
        }
      }
    }
  }

  lemma {:induction false} SortElems(bySpeed: bool, s: seq<Candidate>)
    ensures multiset(StableSort(bySpeed, s)) == multiset(s)
  {
    if s != [] {
      assert s == s[..|s| - 1] + [s[|s| - 1]];
      SortElems(bySpeed, s[..|s| - 1]);
      InsertElems(bySpeed, StableSort(bySpeed, s[..|s| - 1]), s[|s| - 1]);
    }
  }

  lemma {:induction false} SortOrders(bySpeed: bool, s: seq<Candidate>)
    requires TiesInOrder(bySpeed, s)
    ensures Ordered(bySpeed, StableSort(bySpeed, s))
  {
    if s != [] {
      var n := |s| - 1;
      var x := s[n];
      SortOrders(bySpeed, s[..n]);
      SortElems(bySpeed, s[..n]);
      var r := StableSort(bySpeed, s[..n]);
      forall y | y in r && Leq(bySpeed, y, x) && Leq(bySpeed, x, y) ensures y.idx < x.idx {
        assert y in multiset(r);
        assert y in s[..n];
      }
      InsertOrders(bySpeed, r, x);
    }
  }

  /** An order with the same elements is the same list: interface indices break all ties. */
  lemma {:induction false} OrderIsUnique(bySpeed: bool, a: seq<Candidate>, b: seq<Candidate>)
    requires Ordered(bySpeed, a) && Ordered(bySpeed, b) && multiset(a) == multiset(b)
    ensures a == b
    decreases |a|
  {
    assert |a| == |multiset(a)| == |multiset(b)| == |b|;
    if a != [] {
      var n := |a| - 1;
      LastIsSame(bySpeed, a, b);
      DropLast(a);
      DropLast(b);
      OrderIsUnique(bySpeed, a[..n], b[..n]);
    }
  }

  lemma DropLast(a: seq<Candidate>)
    requires a != []
    ensures multiset(a[..|a| - 1]) == multiset(a) - multiset{a[|a| - 1]}
  {
    assert a == a[..|a| - 1] + [a[|a| - 1]];
  }

  lemma LastIsSame(bySpeed: bool, a: seq<Candidate>, b: seq<Candidate>)
    requires Ordered(bySpeed, a) && Ordered(bySpeed, b) && multiset(a) == multiset(b) && a != [] && |a| == |b|
    ensures a[|a| - 1] == b[|b| - 1]
  {
    var x, y := a[|a| - 1], b[|b| - 1];
    assert x in multiset(b) && y in multiset(a);
    var i :| 0 <= i < |b| && b[i] == x;
    var j :| 0 <= j < |a| && a[j] == y;
    if x != y {
      assert false;
    }
  }

  // ---- The plan -------------------------------------------------------------------------

  predicate IsSelf(opts: Options) {
    opts.ownId.Some? && opts.ownId.value != "" && opts.ownId.value == opts.deviceId
  }

  /** The first token that decrypts the peer's network info. */
  function FirstDecrypted(w: World, tokens: seq<string>): Option<NetInfo> {
    if tokens == [] then None
    else if w.decrypt(tokens[0]).Some? then w.decrypt(tokens[0])
    else FirstDecrypted(w, tokens[1..])
  }

  function LanPort(opts: Options, info: NetInfo): nat {
    if opts.targetPort != 0 then opts.targetPort
    else if info.servicePort != 0 then info.servicePort % 0x1_0000
    else opts.port
  }

  predicate Usable(f: Iface) { f.ip != "127.0.0.1" && f.ip != "" }

  /** The usable interfaces whose TCP probe succeeds, in interface order. */
  function Reachable(w: World, ifaces: seq<Iface>): seq<Candidate> {
    if ifaces == [] then []
    else
      var n := |ifaces| - 1;
      Reachable(w, ifaces[..n])
      + (if Usable(ifaces[n]) && w.probe(n).Some?
         then [Candidate(n, ifaces[n].ip, ifaces[n].sameSubnet, w.probe(n).value)] else [])
  }

  /** The order in which the reachable LAN candidates are tried. */
  function LanOrder(w: World, ifaces: seq<Iface>): seq<Candidate> {
    StableSort(true, Reachable(w, ifaces))
  }

  function LanAttempts(order: seq<Candidate>, port: nat): seq<Attempt> {
    seq(|order|, i requires 0 <= i < |order| => Lan(order[i].idx, order[i].ip, port))
  }

  function Tokens(opts: Options, w: World): seq<string> {
    (if opts.enrollmentToken != "" then [opts.enrollmentToken] else []) + w.groupTokens
  }

  function LanPlan(opts: Options, w: World, r: Resolved): seq<Attempt> {
    if !r.hasNetInfo || opts.forceRelay then []
    else
      match FirstDecrypted(w, Tokens(opts, w))
      case None => []
      case Some(info) => LanAttempts(LanOrder(w, info.ifaces), LanPort(opts, info))
  }

  function RelayAddr(server: string): string {
    if ':' in server then server else server + ":21117"
  }

  /** All attempts that may be made, in order, whatever their outcomes. */
  function Plan(opts: Options, w: World): seq<Attempt> {
    if IsSelf(opts) then [SelfLoop(opts.port)]
    else
      match w.resolved
      case None => []
      case Some(r) =>
        LanPlan(opts, w, r) + RemotePlan(opts, r)
  }

  /** What is left of the plan when no LAN candidate connects. */
  function RemotePlan(opts: Options, r: Resolved): seq<Attempt> {
    (if r.addr.Some? && !opts.forceRelay then [P2P(r.addr.value, opts.port)] else [])
    + (if r.relayServer != "" then [Via(RelayAddr(r.relayServer), opts.targetPort)] else [])
  }

  /** The attempts up to and including the first success. */
  function UntilSuccess(w: World, plan: seq<Attempt>): seq<Attempt> {
    if plan == [] then []
    else if Succeeds(w, plan[0]) then [plan[0]]
    else [plan[0]] + UntilSuccess(w, plan[1..])
  }

  function FirstSuccess(w: World, plan: seq<Attempt>): Option<Attempt> {
    if plan == [] then None
    else if Succeeds(w, plan[0]) then Some(plan[0])
    else FirstSuccess(w, plan[1..])
  }

  lemma {:induction false} WalkSplit(w: World, a: seq<Attempt>, b: seq<Attempt>)
    ensures FirstSuccess(w, a).Some? ==>
      UntilSuccess(w, a + b) == UntilSuccess(w, a) && FirstSuccess(w, a + b) == FirstSuccess(w, a)
    ensures FirstSuccess(w, a).None? ==>
      && UntilSuccess(w, a) == a
      && UntilSuccess(w, a + b) == a + UntilSuccess(w, b)
      && FirstSuccess(w, a + b) == FirstSuccess(w, b)
  {
    if a == [] {
      assert a + b == b;
    } else {
      assert (a + b)[1..] == a[1..] + b;
      WalkSplit(w, a[1..], b);
    }
  }

  // ---- The code -------------------------------------------------------------------------

  /** Token list of the code: explicit token, then group tokens not listed yet. */
  method CollectTokens(opts: Options, w: World) returns (tokens: seq<string>)
    ensures FirstDecrypted(w, tokens) == FirstDecrypted(w, Tokens(opts, w))
  {
    tokens := if opts.enrollmentToken != "" then [opts.enrollmentToken] else [];
    ghost var start := tokens;
    for i := 0 to |w.groupTokens|
      invariant FirstDecrypted(w, tokens) == FirstDecrypted(w, start + w.groupTokens[..i])
    {
      var t := w.groupTokens[i];
      assert start + w.groupTokens[..i + 1] == (start + w.groupTokens[..i]) + [t];
      AppendToken(w, start + w.groupTokens[..i], t);
      AppendToken(w, tokens, t);
      if t !in tokens {
        tokens := tokens + [t];
      } else if w.decrypt(t).Some? {
        KnownToken(w, tokens, t);
      }
    }
    assert w.groupTokens[..|w.groupTokens|] == w.groupTokens;
  }

  lemma {:induction false} AppendToken(w: World, ts: seq<string>, t: string)
    ensures FirstDecrypted(w, ts + [t]) ==
      if FirstDecrypted(w, ts).Some? then FirstDecrypted(w, ts) else w.decrypt(t)
  {
    if ts != [] {
      assert (ts + [t])[1..] == ts[1..] + [t];
      AppendToken(w, ts[1..], t);
    }
  }

  lemma {:induction false} KnownToken(w: World, ts: seq<string>, t: string)
    requires t in ts && w.decrypt(t).Some?
    ensures FirstDecrypted(w, ts).Some?
  {
    if ts[0] != t {
      KnownToken(w, ts[1..], t);
    }
  }

  method Decrypt(w: World, tokens: seq<string>) returns (info: Option<NetInfo>)
    ensures info == FirstDecrypted(w, tokens)
  {
    info := None;
    for i := 0 to |tokens|
      invariant info.None? && FirstDecrypted(w, tokens) == FirstDecrypted(w, tokens[i..])
    {
      assert tokens[i..][1..] == tokens[i + 1..];
      if w.decrypt(tokens[i]).Some? {
        info := w.decrypt(tokens[i]);
        return;
      }
    }
  }

  predicate Increasing(s: seq<Candidate>) {
    forall k, m :: 0 <= k < m < |s| ==> s[k].idx < s[m].idx
  }

  lemma ReachableStep(w: World, ifaces: seq<Iface>, i: nat)
    requires i < |ifaces|
    ensures Reachable(w, ifaces[..i + 1]) == Reachable(w, ifaces[..i])
      + (if Usable(ifaces[i]) && w.probe(i).Some?
         then [Candidate(i, ifaces[i].ip, ifaces[i].sameSubnet, w.probe(i).value)] else [])
  {
    assert ifaces[..i + 1][..i] == ifaces[..i];
  }

  predicate AllBelow(s: seq<Candidate>, i: nat) {
    Increasing(s) && forall k :: 0 <= k < |s| ==> s[k].idx < i
  }

  lemma BelowAppend(s: seq<Candidate>, c: Candidate)
    requires AllBelow(s, c.idx)
    ensures AllBelow(s + [c], c.idx + 1)
  {
  }

  /** The usable peer interfaces, in interface order. The probe's result is filled in already. */
  method CollectCandidates(w: World, ifaces: seq<Iface>) returns (candidates: seq<Candidate>)
    ensures Increasing(candidates)
    ensures Kept(w, candidates) == Reachable(w, ifaces)
  {
    candidates := [];
    for i := 0 to |ifaces|
      invariant AllBelow(candidates, i)
      invariant Kept(w, candidates) == Reachable(w, ifaces[..i])
    {
      ReachableStep(w, ifaces, i);
      if Usable(ifaces[i]) {
        var c := Candidate(i, ifaces[i].ip, ifaces[i].sameSubnet, if w.probe(i).Some? then w.probe(i).value else 0);
        KeptAppend(w, candidates, c);
        BelowAppend(candidates, c);
        candidates := candidates + [c];
      }
    }
    assert ifaces[..|ifaces|] == ifaces;
  }

  method ProbeAll(w: World, sorted: seq<Candidate>) returns (reachable: seq<Candidate>)
    ensures reachable == Kept(w, sorted)
  {
    reachable := [];
    for i := 0 to |sorted|
      invariant reachable == Kept(w, sorted[..i])
    {
      assert sorted[..i + 1][..i] == sorted[..i];
      if w.probe(sorted[i].idx).Some? {
        reachable := reachable + [sorted[i]];
      }
    }
    assert sorted[..|sorted|] == sorted;
  }

  /** Candidates are collected, sorted by subnet, probed in parallel, filtered and sorted again
      by subnet and round trip. The first sort has no effect on the final order. */
  method RaceCandidates(w: World, ifaces: seq<Iface>) returns (order: seq<Candidate>)
    ensures order == LanOrder(w, ifaces)
  {
    var candidates := CollectCandidates(w, ifaces);
    var sorted := StableSort(false, candidates);
    var reachable := ProbeAll(w, sorted);
    order := StableSort(true, reachable);
    PresortIsHarmless(w, candidates);
  }

  lemma PresortIsHarmless(w: World, candidates: seq<Candidate>)
    requires Increasing(candidates)
    ensures StableSort(true, Kept(w, StableSort(false, candidates))) == StableSort(true, Kept(w, candidates))
  {
    var sorted := StableSort(false, candidates);
    SortOrders(false, candidates);
    SortElems(false, candidates);
    KeptElems(w, sorted, candidates);
    KeptTies(w, sorted);
    KeptIncreasing(w, candidates);
    SortOrders(true, Kept(w, sorted));
    SortElems(true, Kept(w, sorted));
    SortOrders(true, Kept(w, candidates));
    SortElems(true, Kept(w, candidates));
    OrderIsUnique(true, StableSort(true, Kept(w, sorted)), StableSort(true, Kept(w, candidates)));
  }

  function Kept(w: World, s: seq<Candidate>): seq<Candidate> {
    if s == [] then []
    else Kept(w, s[..|s| - 1]) + (if w.probe(s[|s| - 1].idx).Some? then [s[|s| - 1]] else [])
  }

  lemma KeptAppend(w: World, s: seq<Candidate>, c: Candidate)
    ensures Kept(w, s + [c]) == Kept(w, s) + (if w.probe(c.idx).Some? then [c] else [])
  {
    assert (s + [c])[..|s|] == s;
  }

  function KeptSet(w: World, m: multiset<Candidate>, c: Candidate): nat {
    if w.probe(c.idx).Some? then m[c] else 0
  }

  lemma {:induction false} KeptCount(w: World, s: seq<Candidate>, c: Candidate)
    ensures multiset(Kept(w, s))[c] == KeptSet(w, multiset(s), c)
  {
    if s != [] {
      var n := |s| - 1;
      assert s == s[..n] + [s[n]];
      KeptCount(w, s[..n], c);
    }
  }

  lemma KeptElems(w: World, s: seq<Candidate>, t: seq<Candidate>)
    requires multiset(s) == multiset(t)
    ensures multiset(Kept(w, s)) == multiset(Kept(w, t))
  {
    forall c: Candidate ensures multiset(Kept(w, s))[c] == multiset(Kept(w, t))[c] {
      KeptCount(w, s, c);
      KeptCount(w, t, c);
    }
  }

  lemma {:induction false} KeptIn(w: World, s: seq<Candidate>, c: Candidate)
    requires c in Kept(w, s)
    ensures c in s
  {
    if c in Kept(w, s[..|s| - 1]) {
      KeptIn(w, s[..|s| - 1], c);
    }
  }

  lemma {:induction false} KeptTies(w: World, s: seq<Candidate>)
    requires Ordered(false, s)
    ensures TiesInOrder(true, Kept(w, s))
  {
    if s != [] {
      var n := |s| - 1;
      KeptTies(w, s[..n]);
      var r := Kept(w, s[..n]);
      forall i | 0 <= i < |r| && SpeedLeq(r[i], s[n]) && SpeedLeq(s[n], r[i]) ensures r[i].idx < s[n].idx {
        KeptIn(w, s[..n], r[i]);
        var k :| 0 <= k < n && s[k] == r[i];
        assert Before(false, s[k], s[n]);
      }
    }
  }

  lemma {:induction false} KeptIncreasing(w: World, s: seq<Candidate>)
    requires Increasing(s)
    ensures TiesInOrder(true, Kept(w, s))
  {
    if s != [] {
      var n := |s| - 1;
      KeptIncreasing(w, s[..n]);
      var r := Kept(w, s[..n]);
      forall i | 0 <= i < |r| ensures r[i].idx < s[n].idx {
        KeptIn(w, s[..n], r[i]);
      }
    }
  }

  /** TLS handshakes on the reachable candidates, one after the other. */
  method TryLan(w: World, order: seq<Candidate>, port: nat) returns (trace: seq<Attempt>, won: Option<Attempt>)
    ensures trace == UntilSuccess(w, LanAttempts(order, port))
    ensures won == FirstSuccess(w, LanAttempts(order, port))
  {
    trace, won := [], None;
    ghost var plan := LanAttempts(order, port);
    for i := 0 to |order|
      invariant won.None? && trace == plan[..i] && FirstSuccess(w, trace).None?
    {
      var a := Lan(order[i].idx, order[i].ip, port);
      assert plan[..i + 1] == trace + [a];
      WalkSplit(w, trace, [a]);
      trace := trace + [a];
      if w.lanTls(order[i].idx) {
        won := Some(a);
        assert plan == trace + plan[i + 1..];
        WalkSplit(w, trace, plan[i + 1..]);
        return;
      }
    }
    assert plan == trace;
    WalkSplit(w, trace, []);
  }

  method LanPhase(opts: Options, w: World, r: Resolved) returns (trace: seq<Attempt>, won: Option<Attempt>)
    ensures trace == UntilSuccess(w, LanPlan(opts, w, r))
    ensures won == FirstSuccess(w, LanPlan(opts, w, r))
  {
    trace, won := [], None;
    if r.hasNetInfo && !opts.forceRelay {
      var tokens := CollectTokens(opts, w);
      var info := Decrypt(w, tokens);
      if info.Some? {
        var order := RaceCandidates(w, info.value.ifaces);
        trace, won := TryLan(w, order, LanPort(opts, info.value));
      }
    }
  }

  method RemotePhase(opts: Options, w: World, r: Resolved) returns (trace: seq<Attempt>, won: Option<Attempt>)
    ensures trace == UntilSuccess(w, RemotePlan(opts, r))
    ensures won == FirstSuccess(w, RemotePlan(opts, r))
  {
    trace, won := [], None;
    if r.addr.Some? && r.relayServer != "" {
      WalkSplit(w, [P2P(r.addr.value, opts.port)], [Via(RelayAddr(r.relayServer), opts.targetPort)]);
    }
    if r.addr.Some? && !opts.forceRelay {
      trace := [P2P(r.addr.value, opts.port)];
      if w.p2pOk {
        return trace, Some(P2P(r.addr.value, opts.port));
      }
      if r.relayServer == "" {
        return trace, None;
      }
    } else if r.relayServer == "" {
      return trace, None;
    }
    trace := trace + [Via(RelayAddr(r.relayServer), opts.targetPort)];
    won := if w.relayOk then Some(Via(RelayAddr(r.relayServer), opts.targetPort)) else None;
  }

  /** `connect_via_relay`: what it tries and what it returns. */
  method ConnectViaRelay(opts: Options, w: World) returns (trace: seq<Attempt>, won: Option<Attempt>)
    ensures trace == UntilSuccess(w, Plan(opts, w))
    ensures won == FirstSuccess(w, Plan(opts, w))
  {
    trace, won := [], None;
    if opts.ownId.Some? && opts.ownId.value != "" && opts.ownId.value == opts.deviceId {
      trace := [SelfLoop(opts.port)];
      return trace, if w.selfOk then Some(SelfLoop(opts.port)) else None;
    }
    if w.resolved.None? {
      return;
    }
    var r := w.resolved.value;
    WalkSplit(w, LanPlan(opts, w, r), RemotePlan(opts, r));
    trace, won := LanPhase(opts, w, r);
    if won.None? {
      var rest;
      rest, won := RemotePhase(opts, w, r);
      trace := trace + rest;
    }
  }

  // ---- Main results ---------------------------------------------------------------------

  /** The walk tries a prefix of the plan; it ends with the first success, or tries it all. */
  lemma {:induction false} WalkIsFirstSuccess(w: World, plan: seq<Attempt>)
    ensures FirstSuccess(w, plan).None? ==>
      UntilSuccess(w, plan) == plan && forall i :: 0 <= i < |plan| ==> !Succeeds(w, plan[i])
    ensures FirstSuccess(w, plan).Some? ==>
      var k := |UntilSuccess(w, plan)| - 1;
      && 0 <= k < |plan|
      && UntilSuccess(w, plan) == plan[..k + 1]
      && FirstSuccess(w, plan) == Some(plan[k])
      && Succeeds(w, plan[k])
      && forall i :: 0 <= i < k ==> !Succeeds(w, plan[i])
  {
    if plan != [] && !Succeeds(w, plan[0]) {
      WalkIsFirstSuccess(w, plan[1..]);
    }
  }

  function Kind(a: Attempt): nat {
    match a
    case SelfLoop(_) => 0
    case Lan(_, _, _) => 1
    case P2P(_, _) => 2
    case Via(_, _) => 3
  }

  /** LAN before P2P before relay; a self-loop excludes everything else; `force_relay` leaves
      only the relay; and outside a self-loop the relay is missing from the plan exactly when
      the peer did not resolve or no relay server was resolved. */
  lemma PlanShape(opts: Options, w: World)
    ensures forall i, j :: 0 <= i < j < |Plan(opts, w)| ==> Kind(Plan(opts, w)[i]) <= Kind(Plan(opts, w)[j])
    ensures IsSelf(opts) ==> Plan(opts, w) == [SelfLoop(opts.port)]
    ensures !IsSelf(opts) ==> forall a :: a in Plan(opts, w) ==> !a.SelfLoop?
    ensures opts.forceRelay && !IsSelf(opts) ==> forall a :: a in Plan(opts, w) ==> a.Via?
    ensures !IsSelf(opts) ==>
      ((w.resolved.None? || w.resolved.value.relayServer == "") <==> forall a :: a in Plan(opts, w) ==> !a.Via?)
  {
    if !IsSelf(opts) && w.resolved.Some? && w.resolved.value.relayServer != "" {
      var r := w.resolved.value;
      assert Via(RelayAddr(r.relayServer), opts.targetPort) in RemotePlan(opts, r);
      assert Via(RelayAddr(r.relayServer), opts.targetPort) in Plan(opts, w);
    }
  }

  /** The peer's info comes from the first token that decrypts it: the explicit one, then the groups'. */
  predicate PeerInfo(opts: Options, w: World, info: NetInfo) {
    if opts.enrollmentToken != "" && w.decrypt(opts.enrollmentToken).Some? then w.decrypt(opts.enrollmentToken) == Some(info)
    else exists k :: 0 <= k < |w.groupTokens| && w.decrypt(w.groupTokens[k]) == Some(info)
                     && forall i :: 0 <= i < k ==> w.decrypt(w.groupTokens[i]).None?
  }

  lemma {:induction false} FirstDecryptedIff(w: World, tokens: seq<string>, info: NetInfo)
    ensures FirstDecrypted(w, tokens) == Some(info) <==>
      exists k :: 0 <= k < |tokens| && w.decrypt(tokens[k]) == Some(info)
                  && forall i :: 0 <= i < k ==> w.decrypt(tokens[i]).None?
  {
    if tokens != [] {
      FirstDecryptedIff(w, tokens[1..], info);
      if FirstDecrypted(w, tokens) == Some(info) && w.decrypt(tokens[0]).None? {
        var k :| 0 <= k < |tokens[1..]| && w.decrypt(tokens[1..][k]) == Some(info)
                 && forall i :: 0 <= i < k ==> w.decrypt(tokens[1..][i]).None?;
        assert w.decrypt(tokens[k + 1]) == Some(info);
        assert forall i :: 0 < i < k + 1 ==> tokens[i] == tokens[1..][i - 1];
      }
      if k :| 0 < k < |tokens| && w.decrypt(tokens[k]) == Some(info)
              && forall i :: 0 <= i < k ==> w.decrypt(tokens[i]).None? {
        assert w.decrypt(tokens[1..][k - 1]) == Some(info);
      }
    }
  }

  lemma PeerInfoIff(opts: Options, w: World, info: NetInfo)
    ensures FirstDecrypted(w, Tokens(opts, w)) == Some(info) <==> PeerInfo(opts, w, info)
  {
    FirstDecryptedIff(w, w.groupTokens, info);
    if opts.enrollmentToken != "" {
      assert Tokens(opts, w)[1..] == w.groupTokens;
    } else {
      assert Tokens(opts, w) == w.groupTokens;
    }
  }

  /** The plan may contain a LAN attempt: the peer announced the interface, it answers the probe, and it
      is neither the loopback nor empty. */
  predicate LanCandidate(opts: Options, w: World, a: Attempt, info: NetInfo) {
    && a.Lan? && PeerInfo(opts, w, info)
    && a.idx < |info.ifaces| && a.ip == info.ifaces[a.idx].ip && w.probe(a.idx).Some?
    && a.ip != "127.0.0.1" && a.ip != ""
    && (opts.targetPort != 0 ==> a.port == opts.targetPort)
    && (opts.targetPort == 0 && info.servicePort != 0 ==> a.port == info.servicePort % 65536)
    && (opts.targetPort == 0 && info.servicePort == 0 ==> a.port == opts.port)
  }

  lemma LanPlanIff(opts: Options, w: World, r: Resolved, a: Attempt)
    ensures a in LanPlan(opts, w, r) <==>
      r.hasNetInfo && !opts.forceRelay && exists info :: LanCandidate(opts, w, a, info)
  {
    var found := FirstDecrypted(w, Tokens(opts, w));
    forall info ensures PeerInfo(opts, w, info) <==> found == Some(info) {
      PeerInfoIff(opts, w, info);
    }
    if found.Some? {
      LanAttemptsIff(w, found.value.ifaces, LanPort(opts, found.value), a);
      assert LanCandidate(opts, w, a, found.value) <==>
        a.Lan? && InLan(w, found.value.ifaces, a.idx, a.ip) && a.port == LanPort(opts, found.value);
    }
  }

  predicate InLan(w: World, ifaces: seq<Iface>, idx: nat, ip: string) {
    idx < |ifaces| && ip == ifaces[idx].ip && w.probe(idx).Some? && ip != "127.0.0.1" && ip != ""
  }

  lemma LanAttemptsIff(w: World, ifaces: seq<Iface>, port: nat, a: Attempt)
    ensures a in LanAttempts(LanOrder(w, ifaces), port) <==>
      a.Lan? && InLan(w, ifaces, a.idx, a.ip) && a.port == port
  {
    var order := LanOrder(w, ifaces);
    if a in LanAttempts(order, port) {
      var i :| 0 <= i < |order| && Lan(order[i].idx, order[i].ip, port) == a;
      OrderedIsReachable(w, ifaces, order[i]);
    }
    if a.Lan? && InLan(w, ifaces, a.idx, a.ip) && a.port == port {
      var c := Candidate(a.idx, a.ip, ifaces[a.idx].sameSubnet, w.probe(a.idx).value);
      OrderedIsReachable(w, ifaces, c);
      var i :| 0 <= i < |order| && order[i] == c;
      assert LanAttempts(order, port)[i] == a;
    }
  }

  lemma OrderedIsReachable(w: World, ifaces: seq<Iface>, c: Candidate)
    ensures c in LanOrder(w, ifaces) <==>
      InLan(w, ifaces, c.idx, c.ip) && c.sameSubnet == ifaces[c.idx].sameSubnet && w.probe(c.idx) == Some(c.rtt)
  {
    SortElems(true, Reachable(w, ifaces));
    assert c in multiset(LanOrder(w, ifaces)) <==> c in multiset(Reachable(w, ifaces));
    ReachableElems(w, ifaces, c);
  }

  /** What the plan consists of, attempt by attempt: oneself alone, or the peer's reachable interfaces,
      its registered address at the given port, and the relay, at its own port or 21117, told to ask
      for the target port. */
  lemma PlanIff(opts: Options, w: World, a: Attempt)
    ensures a in Plan(opts, w) <==>
      if opts.ownId == Some(opts.deviceId) && opts.deviceId != "" then a == SelfLoop(opts.port)
      else
        && w.resolved.Some?
        && match a
           case SelfLoop(_) => false
           case Lan(_, _, _) => w.resolved.value.hasNetInfo && !opts.forceRelay && exists info :: LanCandidate(opts, w, a, info)
           case P2P(ip, port) => w.resolved.value.addr == Some(ip) && port == opts.port && !opts.forceRelay
           case Via(relay, target) =>
             && target == opts.targetPort && w.resolved.value.relayServer != ""
             && relay == w.resolved.value.relayServer + (if ':' in w.resolved.value.relayServer then "" else ":21117")
  {
    if w.resolved.Some? && !IsSelf(opts) {
      var r := w.resolved.value;
      LanPlanIff(opts, w, r, a);
      assert r.relayServer + "" == r.relayServer;
      assert a in Plan(opts, w) <==> a in LanPlan(opts, w, r) || a in RemotePlan(opts, r);
    }
  }

  lemma {:induction false} ReachableElems(w: World, ifaces: seq<Iface>, c: Candidate)
    ensures c in Reachable(w, ifaces) <==>
      && c.idx < |ifaces| && Usable(ifaces[c.idx])
      && c.ip == ifaces[c.idx].ip && c.sameSubnet == ifaces[c.idx].sameSubnet
      && w.probe(c.idx) == Some(c.rtt)
  {
    if ifaces != [] {
      ReachableElems(w, ifaces[..|ifaces| - 1], c);
    }
  }

  lemma {:induction false} ReachableIncreasing(w: World, ifaces: seq<Iface>)
    ensures AllBelow(Reachable(w, ifaces), |ifaces|)
  {
    if ifaces != [] {
      ReachableIncreasing(w, ifaces[..|ifaces| - 1]);
    }
  }

  /** Same subnet before the others, then the shorter round trip, then the earlier interface. */
  predicate FastestFirst(s: seq<Candidate>) {
    forall i, j :: 0 <= i < j < |s| ==>
      || (s[i].sameSubnet && !s[j].sameSubnet)
      || (s[i].sameSubnet == s[j].sameSubnet
          && (s[i].rtt < s[j].rtt || (s[i].rtt == s[j].rtt && s[i].idx < s[j].idx)))
  }

  lemma FastestIsOrdered(s: seq<Candidate>)
    ensures FastestFirst(s) <==> Ordered(true, s)
  {
    forall i, j | 0 <= i < j < |s|
      ensures Before(true, s[i], s[j]) <==>
        || (s[i].sameSubnet && !s[j].sameSubnet)
        || (s[i].sameSubnet == s[j].sameSubnet
            && (s[i].rtt < s[j].rtt || (s[i].rtt == s[j].rtt && s[i].idx < s[j].idx)))
    {
    }
  }

  /** The LAN order is a permutation of the reachable usable interfaces, same subnet first, then
      by round trip, ties in interface order; no other list has these properties. */
  lemma LanOrderIsStable(w: World, ifaces: seq<Iface>)
    ensures multiset(LanOrder(w, ifaces)) == multiset(Reachable(w, ifaces))
    ensures FastestFirst(LanOrder(w, ifaces))
    ensures forall s :: FastestFirst(s) && multiset(s) == multiset(Reachable(w, ifaces)) ==> s == LanOrder(w, ifaces)
  {
    ReachableIncreasing(w, ifaces);
    SortElems(true, Reachable(w, ifaces));
    SortOrders(true, Reachable(w, ifaces));
    FastestIsOrdered(LanOrder(w, ifaces));
    forall s | FastestFirst(s) && multiset(s) == multiset(Reachable(w, ifaces)) ensures s == LanOrder(w, ifaces) {
      FastestIsOrdered(s);
      OrderIsUnique(true, s, LanOrder(w, ifaces));
    }
  }

  /** The port the attempt asks for: its own, or the one named to the peer's server. */
  function PortOf(a: Attempt): nat {
    if a.Via? then a.target else a.port
  }

  /** With a nonzero target port equal to the direct port, every attempt uses that port. */
  lemma PlanIsPinned(opts: Options, w: World)
    requires opts.targetPort == opts.port != 0
    ensures forall a :: a in Plan(opts, w) ==> PortOf(a) == opts.port
  {
  }

  lemma {:induction false} WalkIsPrefix(w: World, plan: seq<Attempt>)
    ensures forall a :: a in UntilSuccess(w, plan) ==> a in plan
  {
    if plan != [] && !Succeeds(w, plan[0]) {
      WalkIsPrefix(w, plan[1..]);
    }
  }

  lemma OneIface(w: World, f: Iface, rtt: nat)
    requires Usable(f) && w.probe(0) == Some(rtt)
    ensures LanOrder(w, [f]) == [Candidate(0, f.ip, f.sameSubnet, rtt)]
  {
    assert [f][..0] == [];
    var c := Candidate(0, f.ip, f.sameSubnet, rtt);
    assert Reachable(w, [f]) == [c];
    assert StableSort(true, [c][..0]) == [];
    assert StableSort(true, [c]) == Insert(true, [], c);
  }
}
