/** Clipboard synchronisation. */
module Clipboard {
  // A read or a set may fail, and a failed set may still have taken effect.

  /** What reading a clipboard yields for the text it holds. */
  datatype Reads = Reads(local: string -> string, remote: string -> string)

  datatype Edit = CopyLocal(text: string) | CopyRemote(text: string)

  datatype Outcome = Done | Failed | Lost

  /** One turn of the loop: what the users copy while it sleeps, between its two reads, and between
      the second read and the write; and how its calls end. */
  datatype Poll = Poll(edits: seq<Edit>, localOk: bool, afterLocal: seq<Edit>, remoteOk: bool, afterRemote: seq<Edit>, call: Outcome)

  datatype State = State(local: string, remote: string, lastLocal: string, lastRemote: string, transfers: nat, copies: nat)

  function Initial(r: Reads, local: string, remote: string, localOk: bool, remoteOk: bool): State {
    State(local, remote, if localOk then r.local(local) else "", if remoteOk then r.remote(remote) else "", 0, 0)
  }

  function Edited(s: State, edits: seq<Edit>): State
    decreases |edits|
  {
    if edits == [] then s
    else
      var t := Edited(s, edits[..|edits| - 1]);
      match edits[|edits| - 1]
      case CopyLocal(text) => t.(local := text, copies := t.copies + 1)
      case CopyRemote(text) => t.(remote := text, copies := t.copies + 1)
  }

  predicate LocalChanged(r: Reads, s: State) { r.local(s.local) != "" && r.local(s.local) != s.lastLocal }

  predicate RemoteChanged(r: Reads, s: State) { r.remote(s.remote) != "" && r.remote(s.remote) != s.lastRemote }

  function Transferred(s: State, text: string): State {
    s.(lastLocal := text, lastRemote := text, transfers := s.transfers + 1)
  }

  function Push(s: State, text: string, call: Outcome): State {
    var t := if call.Failed? then s else s.(remote := text);
    if call.Done? then Transferred(t, text) else t
  }

  function Pull(s: State, text: string, call: Outcome): State {
    var t := if call.Failed? then s else s.(local := text);
    if call.Done? then Transferred(t, text) else t
  }

  function Polled(r: Reads, s: State, p: Poll): State {
    var t := Edited(s, p.afterLocal);
    if p.localOk && LocalChanged(r, s) then Push(t, r.local(s.local), p.call)
    else if p.remoteOk && RemoteChanged(r, t) then Pull(Edited(t, p.afterRemote), r.remote(t.remote), p.call)
    else Edited(t, p.afterRemote)
  }

  function Round(r: Reads, s: State, p: Poll): State { Polled(r, Edited(s, p.edits), p) }

  function Run(r: Reads, s: State, polls: seq<Poll>): State
    decreases |polls|
  {
    if polls == [] then s else Round(r, Run(r, s, polls[..|polls| - 1]), polls[|polls| - 1])
  }

  // ---- The code ---------------------------------------------------------------------------

  /** The two clipboards; counters record what happened to them. */
  class Clipboards {
    const via: Reads
    var local: string
    var remote: string
    ghost var copies: nat

    constructor (via: Reads, local: string, remote: string)
      ensures this.via == via && this.local == local && this.remote == remote && copies == 0
    {
      this.via, this.local, this.remote, copies := via, local, remote, 0;
    }

    /** A read that fails counts as empty text. */
    function ReadLocal(ok: bool): string
      reads this
    {
      if ok then via.local(local) else ""
    }

    function ReadRemote(ok: bool): string
      reads this
    {
      if ok then via.remote(remote) else ""
    }

    method Set(toRemote: bool, text: string, outcome: Outcome) returns (ok: bool)
      modifies this
      ensures ok == outcome.Done? && copies == old(copies)
      ensures remote == if toRemote && !outcome.Failed? then text else old(remote)
      ensures local == if !toRemote && !outcome.Failed? then text else old(local)
    {
      if !outcome.Failed? {
        if toRemote {
          remote := text;
        } else {
          local := text;
        }
      }
      ok := outcome.Done?;
    }

    method UserEdits(edits: seq<Edit>, ghost s: State)
      requires s.local == local && s.remote == remote && s.copies == copies
      modifies this
      ensures var t := Edited(s, edits);
        t.local == local && t.remote == remote && t.copies == copies && t.transfers == s.transfers
        && t.lastLocal == s.lastLocal && t.lastRemote == s.lastRemote
    {
      for i := 0 to |edits|
        invariant Edited(s, edits[..i]) == s.(local := local, remote := remote, copies := copies)
      {
        assert edits[..i + 1][..i] == edits[..i];
        match edits[i] {
          case CopyLocal(text) => local := text;
          case CopyRemote(text) => remote := text;
        }
        copies := copies + 1;
      }
      assert edits[..|edits|] == edits;
    }
  }

  /** `clip_sync`, for any number of turns. */
  method ClipSync(c: Clipboards, initialLocalOk: bool, initialRemoteOk: bool, polls: seq<Poll>)
      returns (lastLocal: string, lastRemote: string, transfers: nat)
    requires c.copies == 0
    modifies c
    ensures Run(c.via, Initial(c.via, old(c.local), old(c.remote), initialLocalOk, initialRemoteOk), polls)
         == State(c.local, c.remote, lastLocal, lastRemote, transfers, c.copies)
  {
    lastLocal, lastRemote, transfers := c.ReadLocal(initialLocalOk), c.ReadRemote(initialRemoteOk), 0;
    ghost var s0 := Initial(c.via, c.local, c.remote, initialLocalOk, initialRemoteOk);
    for i := 0 to |polls|
      invariant Run(c.via, s0, polls[..i]) == State(c.local, c.remote, lastLocal, lastRemote, transfers, c.copies)
    {
      var p := polls[i];
      assert polls[..i + 1][..i] == polls[..i];
      c.UserEdits(p.edits, State(c.local, c.remote, lastLocal, lastRemote, transfers, c.copies));
      lastLocal, lastRemote, transfers := Turn(c, p, lastLocal, lastRemote, transfers);
    }
    assert polls[..|polls|] == polls;
  }

  method Turn(c: Clipboards, p: Poll, lastLocal0: string, lastRemote0: string, transfers0: nat)
      returns (lastLocal: string, lastRemote: string, transfers: nat)
    modifies c
    ensures Polled(c.via, State(old(c.local), old(c.remote), lastLocal0, lastRemote0, transfers0, old(c.copies)), p)
         == State(c.local, c.remote, lastLocal, lastRemote, transfers, c.copies)
  {
    lastLocal, lastRemote, transfers := lastLocal0, lastRemote0, transfers0;
    var local := c.ReadLocal(p.localOk);
    c.UserEdits(p.afterLocal, State(c.local, c.remote, lastLocal, lastRemote, transfers, c.copies));
    if local != "" && local != lastLocal {
      var ok := c.Set(true, local, p.call);
      if ok {
        lastLocal, lastRemote, transfers := local, local, transfers + 1;
      }
      return;
    }
    var remote := c.ReadRemote(p.remoteOk);
    c.UserEdits(p.afterRemote, State(c.local, c.remote, lastLocal, lastRemote, transfers, c.copies));
    if remote != "" && remote != lastRemote {
      var ok := c.Set(false, remote, p.call);
      if ok {
        lastLocal, lastRemote, transfers := remote, remote, transfers + 1;
      }
    }
  }

  // ---- Properties of every run ------------------------------------------------------------

  /** Text read on one side and set on the other is read back unchanged, or as nothing. */
  ghost predicate Stable(r: Reads) {
    && (forall x :: r.local(x) != "" ==> r.remote(r.local(x)) in {"", r.local(x)})
    && (forall x :: r.remote(x) != "" ==> r.local(r.remote(x)) in {"", r.remote(x)})
  }

  predicate Pending(r: Reads, s: State) { LocalChanged(r, s) || RemoteChanged(r, s) }

  function Debt(r: Reads, s: State): nat { s.transfers + if Pending(r, s) then 1 else 0 }

  lemma {:induction false} EditsPay(r: Reads, s: State, edits: seq<Edit>)
    ensures Debt(r, Edited(s, edits)) - Edited(s, edits).copies <= Debt(r, s) - s.copies
    ensures Edited(s, edits).copies == s.copies + |edits| && Edited(s, edits).transfers == s.transfers
    decreases |edits|
  {
    if edits != [] {
      EditsPay(r, s, edits[..|edits| - 1]);
    }
  }

  predicate NoCopyDuring(p: Poll) { p.afterLocal == [] && p.afterRemote == [] }

  /** A transfer leaves both sides remembering the text moved, a local change winning; and when nobody
      copies during the turn nothing is pending, both sides reading as that text or as nothing. */
  lemma TransferSettles(r: Reads, s: State, p: Poll)
    requires Stable(r)
    ensures Polled(r, s, p).transfers <= s.transfers + 1
    ensures Polled(r, s, p).transfers > s.transfers ==>
      var t, u := Polled(r, s, p), Edited(s, p.afterLocal);
      && t.lastLocal == t.lastRemote && t.lastLocal != ""
      && t.lastLocal == (if p.localOk && LocalChanged(r, s) then r.local(s.local) else r.remote(u.remote))
      && (NoCopyDuring(p) ==> Pending(r, s) && !Pending(r, t) && r.local(t.local) in {"", t.lastLocal} && r.remote(t.remote) in {"", t.lastLocal})
  {
    EditsPay(r, s, p.afterLocal);
    EditsPay(r, Edited(s, p.afterLocal), p.afterRemote);
  }

  /** Moving the text pays for itself, whatever was copied meanwhile. */
  lemma PushPays(r: Reads, s: State, edits: seq<Edit>, call: Outcome)
    requires Stable(r) && LocalChanged(r, s)
    ensures var t := Push(Edited(s, edits), r.local(s.local), call); Debt(r, t) - t.copies <= Debt(r, s) - s.copies
  {
    EditsPay(r, s, edits);
  }

  lemma PullPays(r: Reads, s: State, edits: seq<Edit>, call: Outcome)
    requires Stable(r) && RemoteChanged(r, s)
    ensures var t := Pull(Edited(s, edits), r.remote(s.remote), call); Debt(r, t) - t.copies <= Debt(r, s) - s.copies
  {
    EditsPay(r, s, edits);
  }

  lemma PollPays(r: Reads, s: State, p: Poll)
    requires Stable(r)
    ensures Debt(r, Polled(r, s, p)) - Polled(r, s, p).copies <= Debt(r, s) - s.copies
  {
    var t := Edited(s, p.afterLocal);
    if p.localOk && LocalChanged(r, s) {
      PushPays(r, s, p.afterLocal, p.call);
    } else {
      EditsPay(r, s, p.afterLocal);
      if p.remoteOk && RemoteChanged(r, t) {
        PullPays(r, t, p.afterRemote, p.call);
      } else {
        EditsPay(r, t, p.afterRemote);
      }
    }
  }

  /** Transfers never outnumber copies, beyond what a failed first read leaves pending. */
  lemma {:induction false} TransfersArePaidFor(r: Reads, s: State, polls: seq<Poll>)
    requires Stable(r)
    ensures Debt(r, Run(r, s, polls)) - Run(r, s, polls).copies <= Debt(r, s) - s.copies
    decreases |polls|
  {
    if polls != [] {
      var t, p := Run(r, s, polls[..|polls| - 1]), polls[|polls| - 1];
      TransfersArePaidFor(r, s, polls[..|polls| - 1]);
      EditsPay(r, t, p.edits);
      PollPays(r, Edited(t, p.edits), p);
    }
  }

  predicate NoEdits(polls: seq<Poll>) { forall i :: 0 <= i < |polls| ==> polls[i].edits == [] && NoCopyDuring(polls[i]) }

  /** With nothing pending, nothing happens until a user copies again. */
  lemma {:induction false} QuietUntilCopy(r: Reads, s: State, polls: seq<Poll>)
    requires !Pending(r, s) && NoEdits(polls)
    ensures Run(r, s, polls) == s
    decreases |polls|
  {
    if polls != [] {
      QuietUntilCopy(r, s, polls[..|polls| - 1]);
    }
  }

  /** A turn whose calls succeed serves what is pending. */
  lemma PendingIsServed(r: Reads, s: State, p: Poll)
    requires Pending(r, s) && p.edits == [] && NoCopyDuring(p) && p.localOk && p.remoteOk && p.call.Done?
    ensures Round(r, s, p).transfers == s.transfers + 1
  {
  }

  /** What is copied on the side about to be written is gone: the remote text read before it is what
      both sides hold and remember, and nothing is pending. */
  lemma CopyDuringPullIsLost(r: Reads, s: State, p: Poll, x: string)
    requires forall y :: r.local(y) == y && r.remote(y) == y
    requires !LocalChanged(r, s) && RemoteChanged(r, s) && p == Poll([], true, [], true, [CopyLocal(x)], Done)
    ensures var t := Round(r, s, p);
      t.local == t.remote == t.lastLocal == t.lastRemote == s.remote && t.copies == s.copies + 1 && !Pending(r, t)
  {
    assert p.afterRemote[..0] == [];
    assert Edited(s, [CopyLocal(x)]) == s.(local := x, copies := s.copies + 1);
  }

  /** When reading returns exactly what is set, a transfer makes all four texts equal. */
  lemma AllFourEqual(r: Reads, s: State, p: Poll)
    requires forall x :: r.local(x) == x && r.remote(x) == x
    requires NoCopyDuring(p) && Polled(r, s, p).transfers > s.transfers
    ensures var t := Polled(r, s, p);
      t.local == t.remote == t.lastLocal == t.lastRemote
  {
  }

  ghost predicate NeverOutnumber(r: Reads) {
    forall local, remote, polls :: Bounded(r, Initial(r, local, remote, true, true), polls)
  }

  predicate Bounded(r: Reads, s: State, polls: seq<Poll>) { Run(r, s, polls).transfers <= Run(r, s, polls).copies }

  const IDLE_POLL: Poll := Poll([], true, [], true, [], Done)

  lemma TwoRounds(r: Reads, s: State, p: Poll, q: Poll)
    ensures Run(r, s, [p, q]) == Round(r, Round(r, s, p), q)
  {
    assert [p, q][..1] == [p] && [p][..0] == [];
    assert Run(r, s, [p]) == Round(r, s, p);
  }

  /** The bound holds in every run exactly when the reads are stable (empty text reads as empty). */
  lemma NeverOutnumberIffStable(r: Reads)
    requires r.local("") == "" && r.remote("") == ""
    ensures NeverOutnumber(r) <==> Stable(r)
  {
    if Stable(r) {
      forall local, remote, polls ensures Bounded(r, Initial(r, local, remote, true, true), polls) {
        TransfersArePaidFor(r, Initial(r, local, remote, true, true), polls);
      }
    } else if x :| r.local(x) != "" && r.remote(r.local(x)) !in {"", r.local(x)} {
      EchoLocal(r, x);
      var polls := [Poll([CopyLocal(x)], true, [], true, [], Done), IDLE_POLL];
      assert !Bounded(r, Initial(r, "", "", true, true), polls);
    } else {
      var x :| r.remote(x) != "" && r.local(r.remote(x)) !in {"", r.remote(x)};
      EchoRemote(r, x);
      var polls := [Poll([CopyRemote(x)], true, [], true, [], Done), IDLE_POLL];
      assert !Bounded(r, Initial(r, "", "", true, true), polls);
    }
  }

  /** One copy, two transfers: the text comes back altered. */
  lemma EchoLocal(r: Reads, x: string)
    requires r.local("") == "" && r.remote("") == "" && r.local(x) != "" && r.remote(r.local(x)) !in {"", r.local(x)}
    ensures var s := Run(r, Initial(r, "", "", true, true), [Poll([CopyLocal(x)], true, [], true, [], Done), IDLE_POLL]);
      s.transfers == 2 && s.copies == 1
  {
    var s0 := Initial(r, "", "", true, true);
    var p := Poll([CopyLocal(x)], true, [], true, [], Done);
    TwoRounds(r, s0, p, IDLE_POLL);
    assert p.edits[..0] == [];
    assert Edited(s0, p.edits) == State(x, "", "", "", 0, 1);
    assert Round(r, s0, p) == State(x, r.local(x), r.local(x), r.local(x), 1, 1);
  }

  lemma EchoRemote(r: Reads, x: string)
    requires r.local("") == "" && r.remote("") == "" && r.remote(x) != "" && r.local(r.remote(x)) !in {"", r.remote(x)}
    ensures var s := Run(r, Initial(r, "", "", true, true), [Poll([CopyRemote(x)], true, [], true, [], Done), IDLE_POLL]);
      s.transfers == 2 && s.copies == 1
  {
    var s0 := Initial(r, "", "", true, true);
    var p := Poll([CopyRemote(x)], true, [], true, [], Done);
    TwoRounds(r, s0, p, IDLE_POLL);
    assert p.edits[..0] == [];
    assert Edited(s0, p.edits) == State("", x, "", "", 0, 1);
    assert Round(r, s0, p) == State(r.remote(x), x, r.remote(x), r.remote(x), 1, 1);
  }
}
