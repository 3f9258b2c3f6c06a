# A verified model of mrsh's client and server logic

mrsh is a remote shell: a client that picks a transport, moves files in batches, proxies SOCKS5,
keeps logs and clipboards in step, and a server that updates itself under a watchdog. This project
models the parts whose guarantees only show over whole runs, or over every input, and proves them.
`dafny verify dfyconfig.toml` checks everything.

## How the model is built

- **Concurrent parts are step machines.** `Batch` (workers, semaphore, counters, Ctrl+C), `Mux`
  (clients and keepalive on one locked stream) and `Watchdog` (probe, upgrade loop, operator) have a
  `State`, a `Step` per atomic action, `Enabled`, `Do`, and `IsRun` for any sequence of enabled
  steps. Results about runs hold for all interleavings.
- **Sequential code keeps its form.** Loops are methods with invariants, objects that change are
  classes (`Editor.App`, `LogViewer.App`, `Rotation.LogDir`, `Clipboard.Clipboards`,
  `Socks.Client`), the 258-byte SOCKS buffer is an array. Each method is proved equal to a
  specification function, and the promises are lemmas about that function. Path translation and
  glob semantics, which are expressions, are functions.
- **What a run means is said apart from how it is computed.** `Dialing` says which hosts, ports and
  peers a run of `Dispatch` may name, `Mangling` builds the paths that `PathTranslate` takes apart,
  and the outcomes of `Batch` and the replies of `Mux` are counted from the steps of a run.
- **The outside is a parameter.** curl, DNS, TLS, SSH, clipboards, the file system, clocks and hash
  functions are oracle fields, step arguments or function parameters, so the results hold whatever
  they answer.

## Where the code does not do what it says

The members named state the exact ground on which each promise holds, and inputs on which it fails.

- A mux request that times out leaves the shared stream out of step; every later reader gets somebody
  else's answer (`Mux.AnswerIsOwnIffClean`, `Mux.StalePongExample`).
- A mux request that was sent and not answered in time makes dispatch go on, and the command can run
  twice; so it can when an SSH-first shell ran and waiting for it failed (`Dispatch.RunsOnceIff`,
  `Dispatch.SecondRun`, `Dispatch.SecondShell`).
- `-p 0` counts as an explicit port, but is read as "tray first" further on and does not pin anything
  (`Dispatch.PinnedIff`, `Dispatch.ZeroPortEscapes`).
- A port pinned in the configuration file does not stop the last SSH fallback to 22; only the command
  line decides (`Dispatch.SshRuledOutIff`, `Dispatch.PinnedInConfigExample`).
- A heartbeat that succeeds while the watchdog flag reads as off is not recorded, and a rollback can
  follow it: when the operator disarms and something arms again, or when the status file cannot be
  read once. On a host nobody touches it cannot (`Watchdog.SafeIff`).
- A clearing write that is lost leaves the host armed without a probe, so it never upgrades by itself
  again (`Watchdog.UnsavedStaysArmed`).
- Looking at the flag twice does not mean that it is clear when the binary is swapped
  (`Watchdog.SwapOnClearFlagIff`).
- The SOCKS5 relay loses what it has read of a message when the client sends at that moment, and then
  reads the rest as a header (`SocksRelay.LosslessIff`, `SocksRelay.HalfReadFrameIsLost`).
- Both SOCKS5 handshakes select "no authentication" even when the client did not offer it, which
  section 3 of RFC 1928 does not allow (`Socks.SelectionConformsIff`, `Socks.UnofferedMethodExample`).
- The path filter in front of push and pull rejects every path that rule 4 (`W:/Temp` to `/tmp`) would
  rewrite, so the rule documented at src/path_translate.rs:30-33 never takes effect there
  (`PathTranslate.FilterMissesRule4`, `PathTranslate.MissedPath`).
- Translating a path twice can change it again (`PathTranslate.StableIff`, `PathTranslate.Unstable`).
- The glob matcher works on bytes: a `?` takes one byte of a character, and a `*` in a file name is
  consumed literally by a `*` in the pattern (`Glob.ExactIff`, `Glob.AccentExample`).
- A text copied while a clipboard transfer is under way can be lost (`Clipboard.CopyDuringPullIsLost`).
- Exporting a recording panics when the header's newline is the footer's (`Recording.Slice`,
  `Recording.FooterRightAfterHeader`) and when an offset plus a byte count leaves 64 bits
  (`Recording.Replay`, `Recording.OverflowExample`); the test for a blank line before "Script done"
  can never succeed (`Recording.SecondFormIsDead`).
- `split_args` drops empty arguments and turns non-ASCII ones into Latin-1 (`SplitArgs.RoundTripIff`,
  `SplitArgs.EmptyIsLost`, `SplitArgs.AccentIsMangled`).
- Toggling the log viewer selects row 0 even when the view is empty (`LogViewer.App.ToggleView`).

## Model

| member | source | states |
|---|---|---|
| `Batch.StepKeeps` | crates/mrsh-client/src/push_via_batch.rs:219-361 | every atomic step of any worker, the spawn loop, the join loop or Ctrl+C keeps the invariant that ties permits, the five counters and the index to the workers' stages |
| `Batch.Bounds` | crates/mrsh-client/src/push_via_batch.rs:218-330 | in every interleaving no more workers hold a permit than `parallel` asks for, or one if it asks for none, and the outcome sum is at most `done`, which is at most that sum plus the permits held |
| `Batch.AtReturn` | crates/mrsh-client/src/push_via_batch.rs:219-361 | when `run` returns, done, the outcome sum and the number of spawned files agree, all permits are back, bytes are the total of the successful transfers modulo 2^64, and the index is one record per spawned file plus one footer with the same tallies and the cancel flag |
| `Batch.CancelDrains` | crates/mrsh-client/src/pull_via_batch.rs:230-262 | after the flag is set at most one more file is spawned, at most max(1, parallel) transfers still end by themselves, and every worker not yet past its check can only be skipped as cancelled |
| `Batch.NoCancelNoLoss` | crates/mrsh-client/src/pull_via_batch.rs:230-360 | without Ctrl+C every file is spawned, some worker settles it, and it ends as that worker found it: skipped if the resume probe found its size at the other end, transferred if curl delivered it, failed otherwise |
| `Batch.JudgeIsRight` | crates/mrsh-client/src/push_via_batch.rs:253-330 | for uploads and downloads: a transfer succeeds if and only if the resume probe did not find the file and curl delivered it (a download with its listed size and put in place), fails if and only if neither happened, and carries the bytes or the message found |
| `Batch.TalliesAreFindings` | crates/mrsh-client/src/push_via_batch.rs:219-361 | the totals at return are those of the findings of the run, in every interleaving: `ok` the delivered files, `failed` the ones neither delivered nor already there, `skipped` the ones already there and the workers that checked the flag once it was set, and the bytes of the delivered files |
| `Batch.FindingsStand` | crates/mrsh-client/src/push_via_batch.rs:253-330 | whatever a worker finds during a run is how its file stands at the end |
| `Batch.SettledOnce` | crates/mrsh-client/src/push_via_batch.rs:253-330 | no file is settled twice |
| `Batch.IndexTells` | crates/mrsh-client/src/pull_via_batch.rs:245-345 | the finished index has a line for every file that was reached, with its path, its size (the written one if none was listed) and how it ended |
| `Batch.FullyParallel` | crates/mrsh-client/src/push_via_batch.rs:218-226 | runs in which as many transfers are in flight as `parallel` asks for, or one per file if there are fewer |
| `Batch.Progress` | crates/mrsh-client/src/push_via_batch.rs:225-341 | no deadlock: until `run` returns, something can move without another Ctrl+C |
| `Batch.AlwaysDrains` | crates/mrsh-client/src/push_via_batch.rs:219-361 | every run has at most 12 steps per file plus 4, and one that cannot be extended has returned |
| `Mux.RunKeeps` | crates/mrsh-client/src/mux.rs:188-306 | the invariant of lock, stream and connections holds in every reachable state |
| `Mux.RepliesArePaired` | crates/mrsh-client/src/mux.rs:188-306 | as long as no failed read left or tore its reply and no request was sent in part, a free lock means nothing unread on the stream, and reply j of each client answers its request j, or reports truly that it failed before or after it was sent, at most once for each failure of its own |
| `Mux.RepliesAreCaused` | crates/mrsh-client/src/mux.rs:285-304 | in every run, whatever fails: a client gets as many answers as it has whole reads on an uncut stream, as many errors as its own requests failed and as many garbled replies as it read after a cut, one fewer at most where a delivery to it failed |
| `Mux.UnfailedIsAnswered` | crates/mrsh-client/src/mux.rs:259-304 | a client none of whose requests failed, in a run that never leaves the stream out of step, reads nothing but the answers to its own requests and the farewell to its stop |
| `Mux.ClosesIff` | crates/mrsh-client/src/mux.rs:249-306 | a connection is closed if and only if the client hung up, a delivery to it failed or it asked the master to stop; a failed request does not close it |
| `Mux.StopsIff` | crates/mrsh-client/src/mux.rs:188-204 | the master stops if and only if a ping failed or a client was told that it is stopping, and the keepalive ends exactly in the first case |
| `Mux.Progress` | crates/mrsh-client/src/mux.rs:188-306 | while a request is pending, some task can serve one without a failure: the lock never blocks for good |
| `Mux.ForwardedInOrderOnce` | crates/mrsh-client/src/mux.rs:259-306 | whatever fails, `control-stop` is never forwarded, and a client's requests reach the remote in order and at most once each |
| `Mux.AnswerIsOwnIffClean` | crates/mrsh-client/src/client.rs:938-950 | the answer read is the one to the reader's own query if and only if no earlier failed read left or tore its reply and no earlier request was sent in part; a reply that arrived whole and could not be decoded does no harm |
| `Mux.StalePongExample` | crates/mrsh-client/src/mux.rs:193-203 | a run in which the keepalive times out and the client waiting for the lock is handed the pong |
| `Dispatch.AsyncMain` | src/dispatch.rs:317-873 | the nest of early returns produces exactly the events of a flat list of stages walked until one ends the run; what the events are is said by the laws of `Dialing` |
| `Dispatch.Connect` | src/dispatch.rs:530-666 | the connection phase, as the walk of its stages |
| `Dispatch.Backup` | src/dispatch.rs:574-664 | after direct TLS fails: relay if there is a DeviceID, then SSH unless `-p` was given, as the walk of those stages |
| `Dispatch.ProbeAndConnect` | src/dispatch.rs:411-463 | the LAN probe replaces the address or ends the run, as the walk from that stage on |
| `Dispatch.SshFirstAndConnect` | src/dispatch.rs:487-528 | SSH-first ends the run or leaves the native chain as it was, as the walk from that stage on |
| `Dispatch.RunSshFallback` | src/ssh_fallback.rs:15-116 | SSH hands control back only with an error from before anything ran, or when waiting for a native shell that ran has failed |
| `Dispatch.RunsAtMostOnce` | src/dispatch.rs:358-373 | the command is dispatched at most once, and once more for each of: a control master that was asked and did not answer, an SSH-first shell that ran and could not be waited for |
| `Dispatch.RunsOnceIff` | src/dispatch.rs:357-374 | for each command line and each outcome of the master and of the SSH-first shell: at most one dispatch on every machine, if and only if neither accident happened with a stage left that can dispatch |
| `Dispatch.SecondRun` | crates/mrsh-client/src/mux.rs:72-83 | a machine on which an unanswered command runs twice |
| `Dispatch.SecondShell` | src/ssh_fallback.rs:104-108 | a machine on which SSH-first starts a shell, fails to wait for it, and the last fallback starts another |
| `Dispatch.ExplicitPortIsPinned` | src/dispatch.rs:339-351 | with a nonzero `-p P` no event is SSH and every LAN, direct, QUIC, P2P and self-loop attempt and the relay's target port is P |
| `Dispatch.PinnedIff` | src/dispatch.rs:499-503 | an explicit port is respected on every machine if and only if it is not 0, or QUIC or a shared file system is used |
| `Dispatch.SshRuledOutIff` | src/dispatch.rs:613-663 | for every command line and every host configuration: no machine uses SSH if and only if QUIC, an fs:// host, a bare DeviceID or `-p` is given, so a configured port rules it out no more than no configuration does |
| `Dispatch.FallsBackToSsh` | src/dispatch.rs:646-662 | otherwise, whatever the configuration says, some machine connects to SSH on port 22 |
| `Dispatch.PinnedInConfigExample` | src/dispatch.rs:646-662 | such a machine for a host pinned to port 9999 in the configuration |
| `Dispatch.ZeroPortEscapes` | crates/mrsh-client/src/relay_connect.rs:167-173 | with `-p 0`, a machine on which the LAN attempt goes to the peer's service port |
| `Dispatch.RelayedPortReachesTarget` | src/server_mode.rs:864-902 | the accepting server hands a relayed stream for P to local port P, or handles it in place when P is its default |
| `Dispatch.CheckDeviceId` | crates/mrsh-relay/src/rendezvous/protocol.rs:183-203 | a DeviceID is any number of letters followed by one or more digits, and nothing else |
| `Dialing.PortsAreRight` | src/dispatch.rs:339-351 | on every machine: with `-p P`, or without `-p` and with a configured P other than 8822, every LAN probe, direct, QUIC, P2P and self-loop attempt and the port asked of the relay is P; otherwise the direct attempt tries 9822, 8822 and 22 in turn, the rest is at 8822, and the relay is asked for no port; SSH is always at 22 |
| `Dialing.DirectIff` | src/dispatch.rs:552-570 | a direct attempt is made if and only if it is reached (a host name, no QUIC, no answer from a master, no mandatory LAN that is missing, no SSH-first that served), and then to that address at the settled port, or at the three default ports |
| `Dialing.AddressesAreRight` | src/dispatch.rs:324-351 | whatever is dialled by name is dialled at the address the LAN probe found, else at the configured one, else at the text after the first `@` |
| `Dialing.RelayedIsAsked` | src/dispatch.rs:377-485 | every relay attempt is planned for the configured DeviceID, or the host text if it is one, with this machine's own id and token and the settled port |
| `Dialing.RelayedReaches` | src/server_mode.rs:864-902 | end to end: a relayed stream ends at the settled port on the accepting server; with none, at the tray if that is up |
| `Dialing.LanProbedIff` | src/dispatch.rs:411-463 | the LAN is probed if and only if the native chain starts with a host name that the configuration gives no address and does not exempt |
| `Dialing.SshFirstIff` | src/dispatch.rs:487-528 | SSH is used before the direct attempt if and only if a user is named, there is no terminal and no port is settled (a native shell that cannot be started leaves no trace) |
| `Dialing.SshLastIff` | src/dispatch.rs:574-664 | SSH is used after the direct attempt if and only if that failed, no relay attempt succeeds and no `-p` was given |
| `Dialing.ClientRunsIff` | src/dispatch.rs:728-873 | the command is dispatched over an mrsh connection if and only if one comes up and the command may go there: no desktop command to the SYSTEM service, no master, no proxy, no streamed `exec` without arguments |
| `Dialing.FsIff` | crates/mrsh-client/src/client.rs:239-262 | a shared file system is opened if and only if the native chain starts with an `fs://` host |
| `Dialing.QuicIff` | src/dispatch.rs:385-397 | QUIC is used if and only if it is asked for and no master answered |
| `Relay.ConnectViaRelay` | crates/mrsh-client/src/relay_connect.rs:77-343 | the attempts are the plan up to and including the first success, and the result is that success |
| `Relay.RaceCandidates` | crates/mrsh-client/src/relay_connect.rs:175-247 | collecting, sorting, probing, filtering and sorting again yields the LAN order |
| `Relay.CollectTokens` | crates/mrsh-client/src/relay_connect.rs:137-164 | skipping duplicate tokens does not change which one decrypts first |
| `Relay.TryLan` | crates/mrsh-client/src/relay_connect.rs:251-292 | handshakes go through the LAN order until one succeeds |
| `Relay.WalkIsFirstSuccess` | crates/mrsh-client/src/relay_connect.rs:81-343 | the walk is the prefix of the plan that ends with its first success, or all of it when nothing succeeds |
| `Relay.PlanShape` | crates/mrsh-client/src/relay_connect.rs:81-343 | self-loop excludes the rest; LAN before P2P before relay; `force_relay` leaves only the relay; outside a self-loop the relay is missing exactly when no relay server was resolved |
| `Relay.PlanIff` | crates/mrsh-client/src/relay_connect.rs:81-343 | what the plan consists of, attempt by attempt: oneself alone, or each announced interface that answers and is neither loopback nor empty, at the target, announced or default port; the registered address; and the relay, at its own port or 21117 |
| `Relay.LanOrderIsStable` | crates/mrsh-client/src/relay_connect.rs:175-247 | the LAN order is the one permutation of the reachable usable interfaces with same subnet first, then round trip, ties in interface order |
| `Relay.PresortIsHarmless` | crates/mrsh-client/src/relay_connect.rs:198-247 | the sort before the probes never changes the final order |
| `Relay.PlanIsPinned` | crates/mrsh-client/src/relay_connect.rs:167-173 | with one nonzero port as direct and target port, every attempt uses it |
| `Watchdog.SwapsAreGated` | src/server_mode.rs:1258-1392 | in every interleaving each swap call directly follows an advert and two clear reads of the flag, on an opted-in host with verification on, and no loop step follows a successful swap |
| `Watchdog.SwapOnClearFlagIff` | src/server_mode.rs:1341-1372 | the flag is clear at every swap call of every run if and only if the operator does not touch it and the status is always readable; what the program's own swaps record does no harm |
| `Watchdog.ArmedBeforeSwap` | src/server_mode.rs:1345-1372 | a run in which the operator arms between the second look and the swap call |
| `Watchdog.StaleWriteBeforeSwap` | crates/mrsh-server/src/update_status.rs:395-436 | a run in which the probe writes back as armed a flag that was turned off after it read it, before the swap call |
| `Watchdog.RollbackIsRare` | src/server_mode.rs:1131-1193 | rollback runs at most once, as the probe's last act, after three failures in all, and never when a success was recorded while armed |
| `Watchdog.OutcomeIsRecorded` | crates/mrsh-server/src/update_status.rs:395-436 | an outcome recorded while armed, read and written without interference: a success turns the flag off and ends the probe, the third failure does the same and rolls back, the two before it are counted |
| `Watchdog.HealthyStaysOff` | crates/mrsh-server/src/update_status.rs:401-409 | in every run, whatever interfered before: once the write after a success recorded while armed is saved, the flag is off, and later it is on if and only if the operator or a recorded swap has armed it since and nothing has disarmed it after that |
| `Watchdog.HealthyHostSwaps` | src/server_mode.rs:1181-1186 | a run of an opted-in host that starts armed, has a healthy heartbeat and goes on to swap |
| `Watchdog.UnsavedStaysArmed` | crates/mrsh-server/src/update_status.rs:406-408 | a run in which the clearing write is lost: the host stays armed without a probe |
| `Watchdog.ProbeEndsIff` | src/server_mode.rs:1131-1193 | the probe ends if and only if the flag was off at startup, it is cancelled or gives up, its check reads the flag as off, or it writes what ends the watch |
| `Watchdog.LoopEndsIff` | src/server_mode.rs:1258-1392 | the upgrade loop ends if and only if it is cancelled or a swap succeeds: an armed flag, a missing advert and a failed swap only put the upgrade off |
| `Watchdog.NoRollbackAfterSuccess` | crates/mrsh-server/src/update_status.rs:380-436 | no rollback follows a successful heartbeat in any run in which the status is always readable and the operator does not disarm, or nothing arms; the program's own swaps may record what they like in the first case |
| `Watchdog.SafeIff` | src/server_mode.rs:1131-1193 | over all hosts, statuses and interleavings, no rollback follows a success if and only if the status cannot become unreadable, and it cannot be both that the operator disarms and that the operator or a swap arms |
| `Watchdog.RollbackAfterSuccess` | crates/mrsh-server/src/update_status.rs:395-400 | a run in which the operator disarms and arms around a heartbeat and a rollback follows its success |
| `Watchdog.RollbackAfterOwnSwap` | src/server_mode.rs:1365-1384 | a run in which the operator disarms, the program's own swap arms, and a rollback follows a success |
| `Watchdog.RollbackAfterMisread` | crates/mrsh-server/src/update_status.rs:252-260 | a run in which the status is unreadable once, nobody touches the flag, and a rollback follows a success |
| `Editor.App.InputChar` | crates/mrsh-client/src/config_tui.rs:343-349 | inserting UTF-8 bytes at the byte cursor is inserting a character at the column |
| `Editor.App.InputBackspace` | crates/mrsh-client/src/config_tui.rs:351-366 | removes exactly the character before the column |
| `Editor.App.InputDelete` | crates/mrsh-client/src/config_tui.rs:368-376 | removes exactly the character at the column and keeps the byte cursor |
| `Editor.App.CursorLeft` | crates/mrsh-client/src/config_tui.rs:378-387 | the backwards byte scan moves one column left |
| `Editor.App.CursorRight` | crates/mrsh-client/src/config_tui.rs:389-400 | the forward step moves one column right |
| `Editor.App.FocusOnNext` | crates/mrsh-client/src/config_tui.rs:323-330 | focus wraps around and the cursor goes to the end of the field |
| `Editor.App.FocusOnPrev` | crates/mrsh-client/src/config_tui.rs:332-339 | the same, backwards |
| `Editor.App.CursorHome` | crates/mrsh-client/src/config_tui.rs:402-404 | goes to column 0 |
| `Editor.App.CursorEnd` | crates/mrsh-client/src/config_tui.rs:406-410 | goes to the last column |
| `Editor.App.Open` | crates/mrsh-client/src/config_tui.rs:168-229 | a form opens on its first field with the cursor at the end |
| `Editor.App.HandleAll` | crates/mrsh-client/src/config_tui.rs:323-410 | after any sequence of keys the byte editor stands for the character editor's text, focus and column |
| `Editor.CursorIsBoundary` | crates/mrsh-client/src/config_tui.rs:343-400 | in every represented state the cursor is a character boundary inside the focused input, so no slice panics |
| `Editor.ReferenceIsDetermined` | crates/mrsh-client/src/config_tui.rs:323-410 | bytes and byte cursor determine characters and column |
| `Editor.InsertBackspace` | crates/mrsh-client/src/config_tui.rs:343-400 | typing then erasing, and moving right then left, restore the form |
| `Editor.BackspaceIsLeftDelete` | crates/mrsh-client/src/config_tui.rs:351-387 | backspace is moving left and deleting forward |
| `Utf8.EncodeAllInjective` | crates/mrsh-client/src/config_tui.rs:351-400 | equal UTF-8 bytes are equal characters |
| `Wire.RoundTripIff` | crates/mrsh-core/src/wire.rs:10-38 | a message is received as sent, with the rest left on the stream, if and only if it has at most 50 MB |
| `Wire.CutFrameStarves` | crates/mrsh-core/src/wire.rs:21-38 | a frame cut anywhere never yields a shorter message |
| `Wire.ReadChunks` | crates/mrsh-client/src/socks.rs:286-341 | non-empty frames are read back one by one, whatever follows |
| `Wire.CompleteIff` | crates/mrsh-core/src/wire.rs:10-38 | a reader sees the end of its stream if and only if it was sent non-empty messages within the limit and then an empty one, and it has their contents |
| `SocksRelay.Relay` | crates/mrsh-client/src/socks.rs:286-341 | for every schedule, byte by byte on the server's side, and every write failure: what is on the wire, what the client got, and why the loop stopped |
| `SocksRelay.FlowAccounts` | crates/mrsh-client/src/socks.rs:295-335 | every byte taken from the server is in a delivered frame or was discarded with a dropped receive |
| `SocksRelay.PollIsReceive` | crates/mrsh-core/src/wire.rs:21-38 | in whatever pieces its bytes arrive, a receive that is not dropped yields the first message of its stream, or its end |
| `SocksRelay.PollIff` | crates/mrsh-core/src/wire.rs:21-38 | in bytes: a receive waits exactly while its header, or the announced length, is not complete, and has its message exactly when a length of 1 to 50 MB has arrived |
| `SocksRelay.PeerRecoversClose` | crates/mrsh-client/src/socks.rs:298-313 | a reader that stops at the first empty frame gets exactly the bytes read from the client, and sees the end exactly when the empty frame went out whole |
| `SocksRelay.PeerRecoversOpen` | crates/mrsh-client/src/socks.rs:304-308 | before the client closes the reader has exactly the bytes read so far and no end |
| `SocksRelay.PeerRecoversFailure` | crates/mrsh-client/src/socks.rs:304-308 | a failed send adds the last chunk or nothing, and never looks like a clean end |
| `SocksRelay.LosslessIff` | crates/mrsh-core/src/wire.rs:21-38 | every byte taken from the server was delivered, in whole messages, if and only if no event of the client fell inside a partly received one |
| `SocksRelay.AlignedIsPrefix` | crates/mrsh-client/src/socks.rs:317-335 | then the client has a prefix of the payloads before the first empty frame, in order |
| `SocksRelay.AlignedIsAll` | crates/mrsh-client/src/socks.rs:317-335 | and all of them once the server's arm ends the relay |
| `SocksRelay.HalfReadFrameIsLost` | crates/mrsh-client/src/socks.rs:295-330 | schedules in which the client sends while a header has arrived, and is handed bytes from inside the payload as if they were a message |
| `Socks.Client.ReadExact` | crates/mrsh-client/src/socks.rs:106-120 | fills the first n bytes of a buffer that has them, or consumes the rest of the stream |
| `Socks.Greet` | crates/mrsh-client/src/socks.rs:105-126 | consumes the greeting and answers with method 0x00, for every input |
| `Socks.SelectionConformsIff` | crates/mrsh-client/src/socks.rs:116-126 | for every complete greeting the selected method is among those offered if and only if 0x00 is |
| `Socks.UnofferedMethodExample` | crates/mrsh-client/src/socks.rs:116-126 | a client that offers only method 0x02 is answered with 0x00 |
| `Socks.ReadHost` | crates/mrsh-client/src/socks.rs:144-186 | reads the address inside the 258-byte buffer and yields its text, or refuses the type with 0x08 |
| `Socks.ReadTarget` | crates/mrsh-client/src/socks.rs:128-194 | reads the request as the grammar says, with the refusals 0x07 and 0x08 |
| `Socks.HandleClient` | crates/mrsh-client/src/socks.rs:98-256 | for every input, every server answer and every write failure: bytes consumed, everything sent, the target asked for, and established exactly on acknowledgement with the reply written |
| `Socks.HandleQuicClient` | src/streaming.rs:137-235 | the second implementation consumes the same bytes and sends the same answers |
| `Socks.QuicReadHost` | src/streaming.rs:175-204 | reads the address in its own buffers, with the same refusal, and yields its text |
| `Socks.QuicReadTarget` | src/streaming.rs:164-208 | reads the request as the grammar says, with the same refusals |
| `Socks.UnderstandsEncoded` | crates/mrsh-client/src/socks.rs:103-194 | every well-formed request of sections 3 and 4 of RFC 1928 is understood, up to its last byte, whatever follows |
| `Socks.AskedIsEncoded` | crates/mrsh-client/src/socks.rs:103-194 | nothing else is taken for a request: the bytes consumed are its encoding |
| `Socks.RefusedIff` | crates/mrsh-client/src/socks.rs:136-142 | a refusal is exactly a header with another command (0x07) or an unknown address type (0x08) |
| `Socks.ServesEncoded` | crates/mrsh-client/src/socks.rs:188-281 | a well-formed request consumes exactly its bytes and is answered by the selection and one reply, which a reader of section 6 of RFC 1928 takes to its last byte as the code, IPv4 address 0.0.0.0 and port 0 |
| `Socks.SuccessIff` | crates/mrsh-client/src/socks.rs:217-281 | for every input the client reads at most one reply: 0 exactly for an understood request the server acknowledged, 2 exactly for one it declined, 1 exactly for one that could not be asked or was not answered, 7 or 8 exactly for the two refusals, and nothing otherwise |
| `Socks.ReplyIsRead` | crates/mrsh-client/src/socks.rs:262-281 | any reply is read to its last byte by a reader of section 6 of RFC 1928, and the byte after it is the first of the tunnel |
| `Socks.EncodedBytes` | crates/mrsh-client/src/socks.rs:103-194 | the wire form of a request, byte by byte, as sections 3 and 4 of RFC 1928 lay it out |
| `Socks.RefusalIsKnown` | crates/mrsh-client/src/socks.rs:136-142 | the refused header has a command other than 1 (told 7), or an address type other than 1, 3 and 4 (told 8) |
| `Socks.QuicSuccessIff` | src/streaming.rs:213-234 | the second implementation tells the client 0 exactly when the tunnel opened, and 1 exactly when it did not |
| `Socks.SameTargetIff` | src/streaming.rs:175-208 | both implementations ask for the same target text if and only if the address is not IPv6 |
| `Socks.TargetIdentifies` | crates/mrsh-client/src/socks.rs:145-194 | equal target texts mean equal ports, and equal addresses for two IPv4 or two IPv6 requests |
| `Socks.TargetIsReadable` | crates/mrsh-client/src/socks.rs:188-194 | the target text is cut back into host and port at its last colon |
| `Numeral.TextRoundTrip` | crates/mrsh-client/src/socks.rs:170-178 | numerals in base 10 and 16 are read back, consist of digits and have no leading zero |
| `Calendar.NextCounts` | crates/mrsh-client/src/session_log.rs:120-127 | the next date has the next day number, over month ends, leap years and centuries |
| `Calendar.MinusCounts` | crates/mrsh-client/src/session_log.rs:106-127 | subtracting n days lowers the day number by n |
| `Calendar.BeforeIff` | crates/mrsh-client/src/session_log.rs:128-128 | the order of dates is the order of their numbers |
| `Rotation.ExpiresIff` | crates/mrsh-client/src/session_log.rs:117-132 | a month is deleted exactly when every one of its dates is before today minus the retention |
| `Rotation.LogDir.WriteEntry` | crates/mrsh-client/src/session_log.rs:88-102 | appends to this month's file and touches no other |
| `Rotation.LogDir.Rotate` | crates/mrsh-client/src/session_log.rs:105-134 | removes exactly the expired files it can remove, in whatever order the directory is listed |
| `Rotation.NameRoundTrip` | crates/mrsh-client/src/session_log.rs:91-118 | a month's file name parses back to that month, for every year |
| `Rotation.RotationLosesIff` | crates/mrsh-client/src/session_log.rs:105-134 | a rotation loses a month's file if and only if it can remove it and no date of the month is within the retention |
| `Rotation.OnlyGrows` | crates/mrsh-client/src/session_log.rs:88-134 | operations that spare a day only append to its file |
| `Rotation.NoRecentLoss` | crates/mrsh-client/src/session_log.rs:88-134 | in any history of writes and rotations, an entry written within the retention is still there |
| `Rotation.TodayIsSafe` | crates/mrsh-client/src/session_log.rs:88-134 | after any history, rotating on the day of a write never loses it, whatever the retention |
| `Summary.SummarizeByHost` | crates/mrsh-client/src/session_log.rs:232-258 | one row per host with its count, time, earliest start and latest end in string order, longest time first; counts and times add up to the log |
| `Summary.Tabulate` | crates/mrsh-client/src/session_log.rs:235-253 | the table holds the right summary of every host seen |
| `Summary.Collect` | crates/mrsh-client/src/session_log.rs:255-255 | every table row is collected once, in whatever order the map yields them |
| `Summary.Conserved` | crates/mrsh-client/src/session_log.rs:232-258 | any correct list of distinct hosts conserves commands and time |
| `Summary.SortKeeps` | crates/mrsh-client/src/session_log.rs:255-257 | the sort is a permutation in descending order and keeps hosts distinct |
| `Summary.LessIff` | crates/mrsh-client/src/session_log.rs:241-252 | the order of start and end times: a proper beginning, or smaller where the texts first differ |
| `LogViewer.MatchingIsExact` | crates/mrsh-client/src/log_viewer.rs:73-86 | each matching row is listed once, newest first, and no other |
| `LogViewer.MatchesIff` | crates/mrsh-client/src/log_viewer.rs:73-86 | an entry matches if and only if its folded host, command or arguments contain the folded filter |
| `LogViewer.App.constructor` | crates/mrsh-client/src/log_viewer.rs:48-71 | the first state shows all entries and is valid |
| `LogViewer.App.Refilter` | crates/mrsh-client/src/log_viewer.rs:73-108 | from any state it restores validity: rows match the filter, summaries are those of the rows, the selection is clamped |
| `LogViewer.App.SummariesAddUp` | crates/mrsh-client/src/log_viewer.rs:88-96 | in every valid state the summary counts sum to the number of rows shown and the times to their time |
| `LogViewer.App.TypeChar` | crates/mrsh-client/src/log_viewer.rs:208-214 | extends the filter and leaves a valid state |
| `LogViewer.App.EraseChar` | crates/mrsh-client/src/log_viewer.rs:204-207 | shortens the filter and leaves a valid state |
| `LogViewer.App.Next` | crates/mrsh-client/src/log_viewer.rs:117-127 | moves the selection cyclically and keeps the state valid |
| `LogViewer.App.Prev` | crates/mrsh-client/src/log_viewer.rs:129-139 | the same, backwards |
| `LogViewer.App.ToggleView` | crates/mrsh-client/src/log_viewer.rs:141-147 | selects row 0 of the other view, which exists if and only if some row is shown |
| `LogViewer.NextPrev` | crates/mrsh-client/src/log_viewer.rs:117-139 | next and previous undo each other on a selection in range |
| `Clipboard.ClipSync` | crates/mrsh-client/src/commands.rs:474-511 | the loop's clipboards and remembered texts are those of the reference run |
| `Clipboard.TransferSettles` | crates/mrsh-client/src/commands.rs:485-510 | after a transfer both sides remember the text moved, and a local change wins; if nobody copied during the turn nothing is pending |
| `Clipboard.AllFourEqual` | crates/mrsh-client/src/commands.rs:489-507 | when reads return what is set and nobody copies during the turn, a transfer makes both clipboards and both remembered texts equal |
| `Clipboard.TransfersArePaidFor` | crates/mrsh-client/src/commands.rs:474-511 | in every run, with copies between polls, between the two reads and between read and write, transfers never outnumber copies, beyond one that a failed first read leaves pending |
| `Clipboard.CopyDuringPullIsLost` | crates/mrsh-client/src/commands.rs:499-507 | a text copied between the remote read and the local write is gone, and nothing is pending |
| `Clipboard.QuietUntilCopy` | crates/mrsh-client/src/commands.rs:482-511 | with nothing pending, nothing changes until a user copies |
| `Clipboard.PendingIsServed` | crates/mrsh-client/src/commands.rs:482-511 | a turn whose calls succeed serves what is pending |
| `Clipboard.NeverOutnumberIffStable` | crates/mrsh-client/src/commands.rs:474-511 | transfers are bounded by copies in every run if and only if text set on one side is read back there unchanged or as nothing |
| `Recording.Slice` | crates/mrsh-client/src/recording.rs:40-58 | the slice is ill-formed if and only if the header newline is the footer newline; otherwise it is the payload |
| `Recording.FooterRightAfterHeader` | crates/mrsh-client/src/recording.rs:40-58 | a log whose slice is ill-formed |
| `Recording.FooterCut` | crates/mrsh-client/src/recording.rs:48-57 | the backwards scan finds the footer's newline if there is one |
| `Recording.SecondFormIsDead` | crates/mrsh-client/src/recording.rs:52-52 | the blank-line form of the footer test never holds where it is asked |
| `Recording.ScriptLayout` | crates/mrsh-client/src/recording.rs:40-58 | header line, payload and footer line are undone for every payload |
| `Recording.PayloadIsUnique` | crates/mrsh-client/src/recording.rs:40-58 | a log has one payload |
| `Recording.Replay` | crates/mrsh-client/src/recording.rs:85-117 | panics if and only if some offset plus byte count leaves 64 bits; otherwise emits the reference events |
| `Recording.OverflowExample` | crates/mrsh-client/src/recording.rs:98-112 | a timing file of two lines on which the replay panics, for every payload |
| `Recording.ChunksJoin` | crates/mrsh-client/src/recording.rs:103-113 | the chunks concatenate to the payload prefix of length min(sum of byte counts, payload length) |
| `Recording.TimesAreOrdered` | crates/mrsh-client/src/recording.rs:103-116 | with non-negative delays timestamps never decrease, and no event is empty |
| `SplitArgs.SplitLine` | crates/mrsh-client/src/sftp.rs:357-385 | the loop computes the scanner's fold |
| `SplitArgs.SplitInvertsPrinting` | crates/mrsh-client/src/sftp.rs:357-385 | every way of writing words with bare and quoted segments and any blanks is read back, without the empty words |
| `SplitArgs.RoundTripIff` | crates/mrsh-client/src/sftp.rs:357-385 | quoting a list and splitting it returns the list if and only if no argument is empty and all are ASCII |
| `SplitArgs.EmptyIsLost` | crates/mrsh-client/src/sftp.rs:373-383 | a list of one empty argument comes back empty |
| `SplitArgs.AccentIsMangled` | crates/mrsh-client/src/sftp.rs:363-380 | `é` comes back as two characters |
| `SplitArgs.SplitIsStable` | crates/mrsh-client/src/sftp.rs:357-385 | for every ASCII line, quoting the result and splitting again returns the result |
| `PathTranslate.StableIff` | src/path_translate.rs:104-203 | for a Linux receiver with an absolute home, a second translation changes no path of any sender if and only if the home is not the root, not /<letter>, and not under /<letter>/Users, except /<letter>/Users/<user> without a trailing slash |
| `PathTranslate.QuietIff` | src/path_translate.rs:104-203 | it does not even report a rewrite if and only if that exception is ruled out too |
| `PathTranslate.LongComponentIsQuiet` | src/path_translate.rs:215-225 | a first component of more than one character is enough |
| `PathTranslate.RewrittenIsPlaced` | src/path_translate.rs:104-203 | a rewritten path is the home, the home joined with a suffix free of backslashes and leading slashes, or under /tmp |
| `PathTranslate.PlacedShape` | src/path_translate.rs:165-203 | such a path starts with the home, up to its trailing slashes, or with /tmp, and has no backslash |
| `PathTranslate.AbsoluteHomeIsLinux` | src/path_translate.rs:78-89 | such a home is classified as Linux |
| `PathTranslate.Unstable` | src/path_translate.rs:193-235 | for every other home, a path that a second translation changes |
| `PathTranslate.FilterMissesRule4` | src/dispatch_client.rs:107-132 | for any receiver, a path is rewritten but not let through by the filter if and only if rule 4 matches it |
| `PathTranslate.MissedPath` | src/dispatch_client.rs:107-132 | `W:/Temp/x` is rewritten to `/tmp/x` but not let through by the filter, and is sent as it is |
| `PathTranslate.TempPathsPassThrough` | src/dispatch_client.rs:237-244 | a path that rule 4 matches is sent unchanged |
| `Mangling.HomePaths` | src/path_translate.rs:104-163 | a path in the sender's home is joined to the receiver's whether it is written `~/rest`, `/c/Users/<sender>/rest` or `C:\Users\<sender>\rest` with any slashes: the three are translated alike |
| `Mangling.TempPaths` | src/path_translate.rs:165-185 | `<drive>:/Temp/rest`, in any case and with any slashes, becomes `/tmp/rest` |
| `Mangling.OtherPaths` | src/path_translate.rs:104-203 | a path is rewritten if and only if it is a lone tilde or of one of these forms; any other loses only its line end |
| `Mangling.JoinMeans` | src/path_translate.rs:193-203 | joining puts one separator between the home without its last slashes and the rest without its first ones, in the home's own style |
| `Mangling.SentIs` | src/dispatch_client.rs:107-132 | a path in one of the home forms is sent as translated, and one in no form as it is |
| `Mangling.SystemIff` | src/path_translate.rs:78-89 | a home that starts with a slash is Linux; one with a drive, or with a backslash, is Windows |
| `Glob.Match` | crates/mrsh-client/src/via_batch_common.rs:123-148 | the two loops compute the matcher's state function on bytes |
| `Glob.LoopIsSound` | crates/mrsh-client/src/via_batch_common.rs:128-147 | on bytes a reported match is a match, from every state and for every text |
| `Glob.LoopIsComplete` | crates/mrsh-client/src/via_batch_common.rs:128-147 | on bytes no match is missed for text without stars: forgetting all but the last star is harmless |
| `Glob.ExactIff` | crates/mrsh-client/src/via_batch_common.rs:120-148 | on texts and patterns of characters: the matcher means what `*` (any run) and `?` (one character) are documented to mean, on every pattern, if and only if the text is ASCII and has no star |
| `Glob.SoundIff` | crates/mrsh-client/src/via_batch_common.rs:120-148 | what it reports is a match, on every pattern, if and only if the text is ASCII |
| `Glob.AccentExample` | crates/mrsh-client/src/via_batch_common.rs:128-147 | `é` is missed by `?` and matched by `??` |
| `Glob.QuestionsDiffer` | crates/mrsh-client/src/via_batch_common.rs:128-147 | a row of question marks counts characters in the documented meaning and bytes in the code |
| `Glob.AcceptsIff` | crates/mrsh-client/src/via_batch_common.rs:128-147 | a pattern character accepts itself and its other ASCII case, and a question mark anything |
| `Delta.ComputeSignatures` | crates/mrsh-transfer/src/delta.rs:38-57 | one signature per block, the last partial one included |
| `Delta.SignaturesAre` | crates/mrsh-transfer/src/delta.rs:38-57 | there is one signature for each 4096 bytes begun, in order, each with its index and the two hashes of its block |
| `Delta.ComputeDelta` | crates/mrsh-transfer/src/delta.rs:60-132 | the indexed scan computes the reference delta |
| `Delta.ApplyDelta` | crates/mrsh-transfer/src/delta.rs:135-155 | the reconstruction is the concatenation of the pieces |
| `Delta.LookupIff` | crates/mrsh-transfer/src/delta.rs:69-115 | a lookup finds a block with both hashes if there is one |
| `Delta.HonestScanRebuilds` | crates/mrsh-transfer/src/delta.rs:60-155 | applying the delta to the old file gives the new file, for all files, when every block the scan takes for a match is one |
| `Delta.RoundTrip` | crates/mrsh-transfer/src/delta.rs:60-155 | in particular for all files without a hash collision between them |
| `Delta.SingleBlockIff` | crates/mrsh-transfer/src/delta.rs:60-155 | for files of one block the round trip holds if and only if there is no collision |
| `Delta.WholeFilesIff` | crates/mrsh-transfer/src/delta.rs:60-155 | for files of whole blocks that condition is also necessary: one false match is never made up for |
| `Delta.UnchangedCostsNothing` | crates/mrsh-transfer/src/delta.rs:79-121 | an unchanged file is sent as matches only, whatever the hashes |
| `Delta.InsertionCostsItself` | crates/mrsh-transfer/src/delta.rs:79-121 | bytes put in front of a file of whole blocks, if they look like none of its blocks, are all the data that is sent, however many they are |

## Left out

- Batch.AtReturn: index write errors, which the code ignores, and tasks that panic are not modelled; every record is taken to be written.
- Batch.NoCancelNoLoss: what curl and the resume probe find is given; manifest parsing and path sanitising would only add easy members.
- Mux.RepliesArePaired: once the stream is out of step inside a frame, answers are only known to be garbled; idle shutdown and the accept loop are not modelled.
- Dispatch.AsyncMain: fleet, install and other subcommands that never choose a transport, and the commands' own work, are not modelled.
- Socks.HandleClient: lossy UTF-8 conversion, and the compressed IPv6 notation of the QUIC variant, are function parameters.
- Rotation.LogDir.Rotate: dates outside the date library's range (where subtracting a huge retention panics) and what else the date parser accepts are not modelled; the parser is any function that reads back the names written.
- Summary.SummarizeByHost: durations are reals, so rounding and NaN are not modelled.
- LogViewer.App.Refilter: case folding is a function parameter.
- Recording.Replay: delays are reals, timing lines are already parsed, and the per-chunk lossy UTF-8 conversion, which can damage a character cut by a chunk boundary, is not modelled.
- Delta.RoundTrip: the hashes are functions, and base64 is taken to be lossless; no collision is sufficient, and what is exactly needed is shown for files of whole blocks and for files of one block.
- TLS, ed25519, TOTP, release signing, base64 and zstd: library code with nothing to prove here.
- Drawing, key reading, help text, dashboard and host picker: user interface.
- Flag parsing, MAC detection, timeouts and path lookups: each branch is read off directly.
- Chunking, block cache, rendezvous and the remote file-system transport: not part of this model.
