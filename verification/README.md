# minisshd: a verified model

minisshd is a small single-user SSH server. This project models the parts of it that keep state,
run concurrently, or put bytes on a wire, and proves what they guarantee on every input and in
every interleaving.

- **Per-IP backoff** (`Addresses`, `Backoff`, `LimiterProtocol`, `LimiterHistory`,
  `LimiterSerial`, `LimiterSnapshot`, `LimiterWitness`, `LimiterOverlap`, `LimiterCalm`,
  `LimiterExact`, `LimiterProgress`,
  `Limiter`, `Auth`). The limiter is modelled twice. `LimiterProtocol` is a small-step system: any number of attempts and Snapshot
  calls, each with a program counter, over a map lock, entry mutexes and a clock. `Limiter` is the
  class its callers use while attempts on one address do not overlap; its method contracts relate
  it to the plain history of attempts. `Auth` has the two authentication callbacks on top.
- **Session channels** (`Wire`, `Environment`, `Session`, `SessionMachine`, `SessionTheorems`,
  `SessionAnswers`, `SessionTerminal`, `SessionChild`, `SessionProgress`). The payload codec, the child environment, the request handlers as a class,
  and the whole channel as an interleaving of `Handle`, the goroutine that serves later requests,
  the peer, the child, the context and the clock.
- **Port forwarding** (`Forwarding`). The slot counter and any number of concurrent handlers.
- **Logging** (`Logfmt`, `JsonEscape`, `Scrub`, `ScrubExact`). The logfmt encoder with a decoder,
  and the password scrub with the JSON escaping it relies on.
- **Authorized keys** (`Keyset`). Parsing, membership, load and reload.

A state machine here is a total function `Step` on a state and an action (an action that is not
enabled changes nothing), and a run is the fold of any list of actions; "in every run" below means
for every such list. Events recorded in a trace are auxiliary: no step reads them.

## Where the code and its documentation differ

- `computeDelay` documents min(60 s, 2^(n-1) s). The 64-bit product is zero for fail counts
  56..63, so the delay there is zero. `DelayMeetsDocumentation` says the formula holds exactly
  outside that range.
- `Acquire` documents a critical section per IP. It is one per table entry: after a success or an
  expiry, two attempts from one address can be inside together (`SuccessSplitsAKey`,
  `ExpirySplitsAKey`). `ExclusiveIffCalm` gives the exact condition: whenever the map lock is free,
  the address is served one attempt at a time until its next success or expiry if and only if there
  is at most one way in. A way in is the table's entry, unless it is stale and everybody bound for it
  still has to test it, or an entry outside the table that somebody can still get in on, which
  includes a stale one that an attempt past its swap will not test again
  (`ExpiryLeavesASideDoor`). Where nothing is stale this comes down to everybody being on the table's
  entry and nobody about to remove it (`ExclusiveIffSettled`). A past success or expiry does no harm
  once that holds again, and from there `SettledKeyIsSerialised` gives the order, the delays and the
  readings.
- `Snapshot` and a successful `release` take the map lock and an entry mutex in opposite orders.
  `SnapshotCanWedge` is a run in which they block each other, `StuckOnlyWhenWedged` says that the
  limiter cannot get stuck in any other way, and `WedgeBlocksEveryone` says what it costs: every
  later attempt, from any address, stays at its first step for ever. Without Snapshots, or without
  successes, it does not happen (`AttemptsNeverDeadlock`, `FailuresNeverDeadlock`).
- `New` documents that every occurrence of the password and of its JSON-escaped form is replaced.
  After replacement the marker itself can complete a new occurrence. `BothPassesExactly` gives
  exactly the passwords for which that can happen, for both passes together; it ranges over lines
  of arbitrary bytes. `TimestampLetterSurvives` is one such password at lines the logger writes.
- A terminal is given the size its request asks for only if all four numbers fit in 16 bits
  (`TerminalShowsRequestIffFits`); larger ones are cut, so that a client told that it has 65536
  columns has none (`WideTerminalHasNoColumns`).
- A client can make the child see a variable name twice by putting a '=' into a name
  (`ClientCanRepeatAName`); `SeenOnceIffNoClash` says exactly when.
- After a kill the server does not close the channel itself: `KilledWaitsForPeer` says that `Handle`
  then returns only once the peer has closed the stream.

The documentation does not speak of a PTY on an sftp channel: the code never closes the master
when sftp is committed after a `pty-req`, and `PtyLifecycle` states both cases. The slave is left
open there too, and when a child fails to start (`SlaveLifecycle`).

## Model

| member | source | states |
|---|---|---|
| Addresses.SharedKeyIffMapped | internal/ratelimit/ratelimit.go:59-64 | two distinct addresses share a counter exactly when one is the IPv4-mapped IPv6 form of the other |
| Backoff.DelayExact | internal/ratelimit/ratelimit.go:185-189 | up to exponent 33 the 64-bit product is exact |
| Backoff.DelayOverflows | internal/ratelimit/ratelimit.go:185-189 | for exponents 34..54 the wrapped product never lands in [0, 60 s], so the cap catches it |
| Backoff.DelayVanishes | internal/ratelimit/ratelimit.go:185-189 | for exponents 55..62 the wrapped product is zero |
| Backoff.DelayMeetsDocumentation | internal/ratelimit/ratelimit.go:168-190 | for every count the delay is in [0, 60 s], and it is the documented one if and only if the count is outside 56..63, where it is zero |
| Backoff.TotalSleepClosedForm | internal/ratelimit/ratelimit.go:174-190 | closed form of the total sleep over k consecutive failures, for every k, including the eight missing minutes |
| LimiterProtocol.StepKeepsStructure | internal/ratelimit/ratelimit.go:84-166 | every step keeps lock ownership, program counters and table consistent, for any number of threads |
| LimiterProtocol.PlanCoherent | internal/ratelimit/ratelimit.go:84-211 | every step changes what its thread holds exactly as its lock operation says, touches the table only under the write lock and for its own key, and counts only on a failed release |
| LimiterHistory.EveryRun | internal/ratelimit/ratelimit.go:84-211 | the full invariant (structure, counts equal history, faithful events, referenced fresh entries) holds in every run |
| LimiterHistory.ExclusionAndCounting | internal/ratelimit/ratelimit.go:84-144 | in every run each entry mutex has at most one holder, each fail count is the number of completed failures on that entry, and each holder's delay and each Snapshot reading is the one those failures give |
| LimiterHistory.OnlyTheHolderCounts | internal/ratelimit/ratelimit.go:137-141 | a fail count changes only by one, upwards, by the mutex holder's failed release, with the time of that release |
| LimiterHistory.UnmappedForever | internal/ratelimit/ratelimit.go:94-135 | an entry that left the table is never mapped again in any continuation |
| LimiterHistory.QuietTableOnlyHoldsFailures | internal/ratelimit/ratelimit.go:94-166 | no two keys share an entry, and with nothing in flight every mapped entry has at least one failure |
| LimiterSerial.SettledKeyIsSerialised | internal/ratelimit/ratelimit.go:84-144 | from any reachable state with nobody astray on a key, whatever happened before, and until the next success or expiry there: attempts run strictly one at a time, the i-th gets ComputeDelay of the count at the start plus i, and Snapshot reads exactly the running count |
| LimiterSerial.FailingKeyIsSerialised | internal/ratelimit/ratelimit.go:84-144 | while no attempt on a key has succeeded or found it expired, attempts on it run strictly one at a time, the i-th gets ComputeDelay(i), and Snapshot reads exactly the completed failures |
| LimiterExact.ExclusiveIffCalm | internal/ratelimit/ratelimit.go:73-135 | the documented critical section per address, exactly: whenever the map lock is free, every continuation without success or expiry there has at most one attempt inside if and only if there is at most one way in: no two entries outside the table that can still be entered, none beside a table that admits anybody, and no removal of an entry that can be entered |
| LimiterCalm.CalmStaysExclusive | internal/ratelimit/ratelimit.go:84-144 | the sufficient half from every reachable state, map lock free or not |
| LimiterCalm.StepKeepsCalm | internal/ratelimit/ratelimit.go:84-166 | no step without success or expiry on the address opens a second way in |
| LimiterExact.ExclusiveIffSettled | internal/ratelimit/ratelimit.go:73-135 | where nothing that still has to be tested is stale, the condition is that everybody in or on the way in is on the table's entry and nobody is about to remove it |
| LimiterExact.ExpiryLeavesASideDoor | internal/ratelimit/ratelimit.go:98-115 | a state reached without any success, map lock free, in which an attempt past its swap queues for a stale entry outside the table beside an open one, so that two can get in |
| LimiterOverlap.OverlapNeedsADrop | internal/ratelimit/ratelimit.go:94-135 | in every run two attempts on one address overlap only on different entries, at most one of them in the table, and any other dropped by a recorded success or expiry on that address |
| LimiterOverlap.EveryDropIsAccounted | internal/ratelimit/ratelimit.go:98-135 | in every run each entry is in the table or has a recorded success or expiry, and so has each entry about to be unmapped |
| LimiterOverlap.ExpirySplitsAKey | internal/ratelimit/ratelimit.go:98-115 | a run without any success in which two attempts on one address are inside together, one of them on an expired entry it did not re-check |
| LimiterOverlap.SuccessSplitsAKey | internal/ratelimit/ratelimit.go:117-135 | a run in which a success leaves two attempts on one address inside together |
| LimiterProgress.StuckOnlyWhenWedged | internal/ratelimit/ratelimit.go:94-211 | in every reachable state with unfinished work some thread can step, even if pending writers bar new readers, or a Snapshot and a successful release hold what the other needs |
| LimiterProgress.FailuresNeverDeadlock | internal/ratelimit/ratelimit.go:94-211 | with Snapshot calls but no success some thread can always step |
| LimiterProgress.AttemptsNeverDeadlock | internal/ratelimit/ratelimit.go:94-166 | without Snapshot calls some thread can always step |
| LimiterProgress.SnapshotCanWedge | internal/ratelimit/ratelimit.go:199-211 | a run that ends in that mutual wait |
| LimiterProgress.WedgeBlocksEveryone | internal/ratelimit/ratelimit.go:127-134 | after such a wedge, under the lock's preference for writers, the table never changes, whoever needs the map lock never moves, and every attempt begun later from any address stays at its first step |
| LimiterProgress.WedgedForever | internal/ratelimit/ratelimit.go:127-134 | no continuation ever resolves the mutual wait |
| LimiterSnapshot.SnapshotReports | internal/ratelimit/ratelimit.go:199-211 | in every interleaving the returned map has exactly the table's keys at the moment of return, and each number is one this call read itself, from the entry the table has for that key, equal to the failures completed on that entry by then |
| LimiterSnapshot.SnapshotReportsFailures | internal/ratelimit/ratelimit.go:199-211 | for an address without success or expiry it is the number of failures completed there when read, and the address is left out only if there were none |
| Limiter.LatestRunUnique | internal/ratelimit/ratelimit.go:84-115 | a history and a time determine the length of the latest unbroken run of failures |
| Limiter.FailureExtends | internal/ratelimit/ratelimit.go:137-141 | a recorded failure extends the run its attempt saw by exactly one |
| Limiter.RecordedSeenAs | internal/ratelimit/ratelimit.go:97-110 | a stored count is the length of the latest run within ten minutes of its last failure, and zero is after that |
| Limiter.Limiter.LoadOrCreate | internal/ratelimit/ratelimit.go:149-166 | returns the mapped entry, or maps a fresh one; every other key keeps its entry |
| Limiter.Limiter.LockEntry | internal/ratelimit/ratelimit.go:94-110 | the locked entry carries the stored count, or zero when it was missing or stale; other keys are untouched |
| Limiter.Limiter.Acquire | internal/ratelimit/ratelimit.go:84-143 | the delay is ComputeDelay of the length of that normalised address's latest unbroken run of failures in the history; no other address is read or changed |
| Limiter.Limiter.Release | internal/ratelimit/ratelimit.go:117-141 | success forgets the address, failure adds one to its run, and the table again agrees with the longer history |
| Limiter.Limiter.Snapshot | internal/ratelimit/ratelimit.go:199-211 | has exactly the mapped keys, with the count of every entry that is not in flight |
| Auth.LogRefusal | internal/server/auth.go:93-99 | the logged attempt number is the length of the run of failures that now ends the address's history, and the logged delay is what that run earns |
| Auth.Authenticate | internal/server/auth.go:73-100 | the sleep is the delay earned by the history, the attempt is recorded once with its outcome, and a refusal logs the new count and the delay it earns |
| Auth.PasswordCallback | internal/server/auth.go:73-100 | outcome, sleep earned by the history, log record on success and on refusal, and limiter history after one password attempt |
| Auth.PublickeyCallback | internal/server/auth.go:129-161 | the same for one publickey attempt, accepted exactly if user and key both pass, a bad user outranking a bad key |
| Auth.OtherTraffic | internal/ratelimit/ratelimit.go:84-143 | any traffic on other keys, overlapping in any way, leaves the history of a key and whether it is in flight unchanged |
| Auth.RefusedThenRetried | internal/server/auth.go:191-219 | after a refusal by either method, and any traffic from other addresses in between, the next Acquire from any address with the same normalised form within ten minutes returns exactly the logged next_delay |
| Wire.ReadStringPanicsExactly | internal/session/helpers.go:37-46 | exactly when the 32-bit length arithmetic slices out of range; never on a buffer shorter than 2^32 bytes |
| Wire.ReadStringExact | internal/session/helpers.go:37-46 | reading yields a value and a rest if and only if the buffer is the appended value followed by that rest |
| Wire.ReadUint32Exact | internal/session/helpers.go:49-54 | the same, both ways, for 32-bit integers |
| Wire.BigEndian | internal/session/helpers.go:41-53 | numbers are ordered as the first byte in which their encodings differ, which leaves only big-endian |
| Wire.ReadStringFields | internal/session/helpers.go:37-46 | a string is read exactly if the number in its first four bytes fits, and is that many of the following bytes |
| Wire.WindowChangeFields | internal/session/helpers.go:117-133 | columns, rows, width and height are the numbers at offsets 0, 4, 8 and 12 |
| Wire.PtyReqFields | internal/session/helpers.go:77-101 | where the terminal type, the columns, rows, width and height stand in the payload |
| Wire.PtyReqModes | internal/session/helpers.go:95-100 | where the modes stand |
| Wire.EnvReqFields | internal/session/helpers.go:142-152 | where the name and the value stand |
| Wire.PtyReqExact | internal/session/helpers.go:77-101 | parsePtyReq returns given fields if and only if the payload begins with their encoding; it never slices out of range |
| Wire.SizesExact | internal/session/helpers.go:117-133 | the same for parseWindowChange |
| Wire.EnvReqExact | internal/session/helpers.go:142-152 | the same for parseEnvReq |
| Wire.SingleStringExact | internal/session/helpers.go:155-171 | the same for the payloads of exec and subsystem |
| Wire.ExitSignalReadsBack | internal/session/helpers.go:226-246 | a client reads back the signal name, the core flag, the message and an empty language tag, with nothing left over |
| Environment.NamesApart | internal/session/helpers.go:15-23 | inherited names, filtered names and TERM do not overlap |
| Environment.IndexEqual | internal/session/service.go:664-671 | the position of the first '=', or -1 exactly when there is none |
| Environment.Pick | internal/session/service.go:624-632 | the last host definition of a name is taken; a missing one changes nothing |
| Environment.PickLocale | internal/session/service.go:638-647 | every filtered name gets its last host definition, every other name is left alone |
| Environment.BuildEnv | internal/session/service.go:616-661 | each child variable is exactly the terminal type, the channel's value, or the last host value, in that precedence, and there are no others |
| Environment.ExpectedMeans | internal/session/service.go:633-654 | by name: the terminal type becomes TERM, then the client's value wins, then the host's HOME, USER, LOGNAME, SHELL, PATH, LANG and LC_ names are passed on, and nothing else is |
| Environment.SettableNames | internal/session/helpers.go:15-23 | a client may set exactly LANG and LC_ followed by something |
| Environment.DefinesMeans | internal/session/service.go:624-632 | a host string defines a name exactly if it is that name, '=', and a value, the name neither empty nor with a '=' |
| Environment.LastHostMeans | internal/session/service.go:624-632 | the host's value is that of the last string that defines the name |
| Environment.OnlyPermittedNames | internal/session/service.go:616-661 | re-split at its first '=', every entry carries a permitted name, even when the client put '=' into a variable name, and none but the terminal type reads as TERM |
| Environment.TermIffTerminal | internal/session/service.go:652-654 | TERM is passed if and only if the terminal type is non-empty |
| Environment.NamesDistinctIffNoClash | internal/session/service.go:648-659 | the child sees every name at most once if and only if no sent name with a '=' stands for a variable it gets anyway or for the same as another sent name; in particular if no sent name contains a '=' |
| Environment.SeenOnceIffNoClash | internal/session/service.go:656-660 | the same for the list of strings the child receives |
| Session.ClientCanRepeatAName | internal/session/service.go:272-289 | two env requests, both accepted, after which the child gets two strings that re-split to one name |
| Session.OtherRepliesOnce | internal/session/service.go:152-204 | a request that does not commit is answered at most once, exactly once if it must be, and no other request is answered |
| Session.TracksNext | internal/session/service.go:234-312 | one more request keeps the state equal to what the requests add up to: the first PTY that could be granted, and per permitted name the last value sent |
| Session.LastEnvMeans | internal/session/service.go:272-289 | the client's value for a name is that of the last well-formed request that sends it |
| Session.FirstPtyMeans | internal/session/service.go:234-267 | the PTY is that of the first well-formed request for which there was one to be had |
| Session.LaunchIsAsked | internal/session/service.go:163-182 | a request commits to a shell exactly by its kind, to a command exactly if it is an exec whose payload begins with that string, to sftp exactly if it is a subsystem whose payload begins with the string sftp |
| Session.SessionState.HandlePtyReq | internal/session/service.go:234-267 | new fields, PTY operations and reply for every payload and allocation result |
| Session.SessionState.HandleEnv | internal/session/service.go:272-289 | new fields and reply for every payload; only filtered names are stored |
| Session.SessionState.HandleWindowChange | internal/session/service.go:296-312 | resize with the parsed size exactly if a PTY is open, reply only if wanted |
| Session.SessionState.PreSpawnDispatch | internal/session/service.go:152-204 | the launch it returns is exactly the one the bytes of the request ask for; a request that asks for none is handled on the spot |
| Session.SessionState.RequestLoop | internal/session/service.go:94-102 | the first committing request and no other is taken as pending; every earlier one has had its reply; the state is the first grantable PTY and the last value per permitted name |
| Session.SessionState.ChildEnv | internal/session/service.go:616-661 | the child receives exactly the expected variables, only under permitted names, TERM if and only if a PTY with a non-empty terminal type was granted, and no name twice if and only if no sent name clashes |
| SessionMachine.SideKeepsPty | internal/session/service.go:296-312 | the in-flight request goroutine resizes only an open PTY, whatever Handle is doing |
| SessionMachine.ClosingKeepsPty | internal/session/service.go:490-500 | clearing the pointer under the lock and then closing keeps the PTY accounting, whatever the other goroutine is doing |
| SessionTheorems.EveryRunInControl | internal/session/service.go:80-137 | positions, lock, PTY, exit and launch accounting agree in every interleaving |
| SessionTheorems.PtyLifecycle | internal/session/service.go:383-500 | in every run at most one PTY is opened and its master closed at most once, Setsize is only called while it is open, and by the time Handle returns it is closed exactly if sftp was not committed |
| SessionTheorems.ExitProtocol | internal/session/service.go:472-564 | in every run at most one exit message, never after a signal or a close; KILL only after HUP, a full grace period and only live polls; on return, a channel committed to a child has had exactly one of exit message and HUP, any other neither, and the channel is closed |
| SessionChild.ChildProtocol | internal/session/service.go:472-513 | in every run a child is supervised until it exits, the context ends or the stream closes; in the last two cases and only then it is sent a HUP, polled only within and killed only after five seconds; nobody is told of an exit, and its terminal is neither withdrawn nor closed, before it has exited; on return it has |
| SessionChild.KilledIffStillThere | internal/session/service.go:550-564 | once polling is over, KILL has been sent if and only if the group answered every poll |
| SessionChild.SlaveLifecycle | internal/session/service.go:103-115 | the PTY slave is closed at most once, and by the return exactly if the channel was never committed or its child started; a failed start and sftp leave it open |
| SessionTheorems.OneCommitOneReply | internal/session/service.go:94-137 | in every run the first request whose bytes ask for a launch is the only one launched, and as what it asks for; every request is answered at most once, and exactly once if it wants an answer, is no signal and is not still in progress |
| SessionAnswers.EveryRunAnswers | internal/session/service.go:520-545 | in every run the answers given and the window-changes in progress agree with the requests they belong to |
| SessionAnswers.AnswersAreTruthful | internal/session/service.go:117-137 | in every run each resize has the size its own request asked for; env and pty-req are granted only before the commit; a pty-req is refused only if malformed, late, without a PTY to be had or not the first to get one; a launch request only if malformed, not the first, or not started; and on return the committing request was told yes exactly if it was launched |
| SessionAnswers.AnswerIsDetermined | internal/session/service.go:152-312 | the conditions for granting and refusing exclude each other for every request but the committing one |
| SessionAnswers.TerminalShowsRequestIffFits | internal/session/pty.go:50-56 | in every run the terminal has the size its last resizing request asked for if and only if all four numbers are below 65536 |
| SessionTerminal.WindowChangesTakeEffect | internal/session/service.go:296-312 | in every run each well-formed window-change taken, not under sftp, has set the terminal to the size it asks for, unless no PTY had been granted or the child was gone; they take effect in order, so the terminal has the size of the last one that found it |
| SessionAnswers.WideTerminalHasNoColumns | internal/session/pty.go:50-56 | a run in which a pty-req for 65536 columns is granted and the terminal has none |
| SessionProgress.IdleExactlyWhenWaiting | internal/session/service.go:94-137 | in every reachable state no step of the server's own is left exactly when Handle has returned or waits for a request, the sftp server, the context, the child's exit or the end of the stream, and the request goroutine waits for the peer |
| SessionProgress.KilledWaitsForPeer | internal/session/service.go:502-513 | after a kill the server closes the channel only when Handle returns, and Handle gets that far only once the peer has closed the stream |
| Forwarding.DirectExact | internal/server/forward.go:72-81 | a payload is accepted if and only if it is to the last byte an encoding with destination port in 1..65535, and its fields are returned |
| Forwarding.DirectFields | internal/server/forward.go:72-81 | where the destination host and port and the originator's stand in the payload |
| Forwarding.ForwardCounter.Acquire | internal/server/forward.go:49-57 | grants a slot if and only if one is free, and the count stays between zero and the capacity |
| Forwarding.ForwardCounter.Release | internal/server/forward.go:60-66 | frees a taken slot, does nothing when none is taken, and keeps the count between zero and the capacity |
| Forwarding.SlotsAreConserved | internal/server/forward.go:95-172 | for any number of concurrent handlers the counter is the number holding a slot, and it and the number with a dial or a copy in progress are at most the cap; a granted slot is given back exactly once, never to an empty counter, and for an opened forward only after both copies have ended; a finished handler refused the channel and logged one reject, or logged open then close, or nothing exactly when Accept failed, and left no connection open |
| Forwarding.Drive | internal/server/forward.go:95-172 | any interleaving of any number of handlers run on one shared counter: it always holds the number of handlers with a slot, and every Release finds one taken |
| Logfmt.QuotingNeeded | internal/logging/logging.go:170-182 | quotes exactly the empty value and values with a byte among space, tab, line feed, carriage return, '=' and '"' |
| Logfmt.WriteValue | internal/logging/logging.go:152-166 | the loop appends exactly the quoted or plain form |
| Logfmt.EncodeLogfmt | internal/logging/logging.go:136-149 | the buffer gains exactly the line of the record |
| Logfmt.LineLayout | internal/logging/logging.go:136-149 | time, level and event with a space between them, the fields, a line feed |
| Logfmt.FieldsInOrder | internal/logging/logging.go:142-147 | the fields are written in their order |
| Logfmt.SampleFields | internal/logging/logging.go:142-166 | a plain field and a field with a quote, a space and a backslash, byte by byte |
| Logfmt.ValueRoundTrip | internal/logging/logging.go:152-182 | any byte string used as a value decodes back, in front of any next field or line end |
| Logfmt.LogRoundTrip | internal/logging/logging.go:136-182 | any concatenation of lines decodes to exactly the records logged, for arbitrary values |
| Scrub.EmitScrubbed | internal/logging/logging.go:124-129 | the loop applies every replacement in order |
| Scrub.OnlyOccurrencesChange | internal/logging/logging.go:124-129 | input and output are the same pieces in the same order, joined by the password in one and the marker in the other |
| Scrub.PasswordBecomesMarker | internal/logging/logging.go:124-129 | a line that is the password becomes [REDACTED] |
| Scrub.ScrubbedExactly | internal/logging/logging.go:124-129 | a single pass, with any marker, removes the password from every line if and only if the marker cannot put it back |
| Scrub.NothingNewAppears | internal/logging/logging.go:124-129 | a string that cannot be laid over the marker occurs in the output only if it occurred in the input |
| JsonEscape.EscapeSplits | internal/logging/logging.go:99-107 | escaping the concatenation of two texts is the concatenation of the escaped texts when the second begins with an ASCII byte, whatever UTF-8 or non-UTF-8 surrounds it |
| JsonEscape.MoreBackslashes | internal/logging/logging.go:99-110 | the escaped form is the password itself or has more backslashes |
| JsonEscape.Locate | internal/logging/logging.go:99-107 | a byte of the marker in the escaped form comes from that byte of the password, and both split there |
| JsonEscape.RuneSizeExact | internal/logging/logging.go:99-107 | exactly the UTF-8 encodings of Unicode scalar values outside ASCII are taken for runes |
| JsonEscape.RuneEscaped | internal/logging/logging.go:99-107 | a rune is copied except for the two line separators |
| JsonEscape.EscapedIsPlain | internal/logging/logging.go:99-107 | nothing in the escaped text is a control character or one of <, > and & |
| JsonEscape.SampleEscapes | internal/logging/logging.go:99-107 | escapes of a quote, a line feed, a control character, < and a byte that is not UTF-8 |
| ScrubExact.EscapedIsNoWorse | internal/logging/logging.go:95-129 | whenever the marker can put the escaped form back it can put the password back |
| ScrubExact.SecondPassAddsNothing | internal/logging/logging.go:124-129 | for a password the marker cannot put back, replacing the escaped form does not bring the password back either |
| ScrubExact.EmittedByLoop | internal/logging/logging.go:95-129 | what is emitted is the scrub list built by New run through the loop of emit |
| ScrubExact.BothPassesExactly | internal/logging/logging.go:90-129 | after both passes neither the password nor its JSON-escaped form is left in any line if and only if the marker cannot put the password back |
| Scrub.BothFormsRemoved | internal/logging/logging.go:95-129 | the same in one direction for any second form whatsoever: neither form is left when neither can be laid over the marker |
| Scrub.DisjointPasswordRemoved | internal/logging/logging.go:95-129 | this holds for every line and every password that shares no byte with the marker |
| Scrub.MarkerLetterSurvives | internal/logging/logging.go:90-94 | a one-byte password that is part of the marker is left in every line that contained it |
| ScrubExact.TimestampLetterSurvives | internal/logging/logging.go:124-149 | with the letter T as the password, every logfmt line with an RFC 3339 timestamp still shows it |
| Keyset.Parse | internal/auth/pubkey.go:158-214 | the keys of the well-formed lines, sorted by digest; any read error yields no keyset |
| Keyset.SortSorts | internal/auth/pubkey.go:207-211 | the sort is by digest and a permutation |
| Keyset.Check | internal/auth/pubkey.go:62-83 | accepts exactly when some key of a loaded keyset has the presented digest |
| Keyset.AcceptsExactlyTheLines | internal/auth/pubkey.go:165-213 | a loaded file accepts exactly the digests on its well-formed lines, whatever their order or repetition |
| Keyset.OrderDoesNotMatter | internal/auth/pubkey.go:207-211 | permuting the accepted keys changes no answer |
| Keyset.KeysetSource.Load | internal/auth/pubkey.go:117-130 | stores the parsed keys, or none with a warning for a missing file, or nothing at all on another error |
| Keyset.KeysetSource.Reload | internal/auth/pubkey.go:135-152 | swaps in the new keys, or keeps the old ones on an error or on an empty result |
| Keyset.ReloadsKeepLastUsable | internal/auth/pubkey.go:135-152 | after any sequence of reloads the keyset is non-empty and is that of the last usable file |
| Keyset.NeverLockedOut | cmd/minisshd/main.go:262-275 | a publickey-only server that started accepts, after any sequence of reloads, exactly the keys of the last usable file, and there is at least one |

## Left out

- The SSH library, the sftp server, PTY allocation, process creation, sockets: they appear as
  nondeterministic events or answers (granted or not, started or not, exited, closed, dialled).
- Textual IP addresses: the normalised octets are the table key. A nil IP is excluded, because the
  callback and the limiter then use different keys.
- Fail counts near 2^63: the counter is unbounded; the delay arithmetic is 64-bit.
- Fairness and time limits of mutexes and of the scheduler: progress is stated as "some thread can
  step", not as eventual completion.
- Limiter.Limiter.Snapshot: the class method says nothing about an entry in flight, whose value depends on when its
  holder lets go; `SnapshotReports` covers that case in the small-step model.
- Limiter.Limiter.Acquire: the class method is stated for non-overlapping attempts on one address; overlapping ones
  are covered by the small-step model.
- ExclusiveIffCalm: stated for states with the map lock free; the sufficient half,
  `CalmStaysExclusive`, needs no such condition. While the lock is held, the other half would depend
  on whether its holder can go on, and a wedged lock lets nobody in at all.
- ExclusiveIffSettled: the special case of `ExclusiveIffCalm` in which nothing that still has to be
  tested is stale.
- BothFormsRemoved: a sufficient condition, for a second form that need not be an escape; for the
  escape the logger uses, `BothPassesExactly` is exact.
- SortByDigest: the library sort is modelled as a function on values, proved sorted and a
  permutation; which of two keys with the same digest comes first is not modelled.
- SHA-256, constant-time comparison and timing: digests are abstract values.
- `encoding/json` is library code: `JsonEscape.Escape` writes out its string escaping (with HTML
  escaping on, invalid UTF-8 replaced) from that library's definition.
- JSON log lines other than the escaping of the password: nothing is claimed about JSON staying
  well-formed after the scrub.
- Log records of the session, the warnings per line of the key file, and the fingerprint and user
  fields of the authentication records.
- The exit code and signal name sent to the client; only the layout of the message is modelled.
- Output draining and its cap, and the copying of bytes between channel, child and socket,
  including the byte counts of a forward.
- The accept loop and shutdown of the server, channel dispatch, log formats other than logfmt,
  credential generation and resolution, host keys, and command-line handling other than the
  start-up check on the number of keys: mostly single decisions.
