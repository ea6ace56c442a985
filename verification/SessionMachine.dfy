/** A whole session channel as an interleaving: `Handle` on one side, the goroutine that serves
    later requests on the other, and the peer, the context, the child and the clock around them. */
module SessionMachine {
  import opened Common
  import opened Wire
  import opened Session

  const GRACE: int := 5_000_000_000

  datatype Who = Main | Side

  datatype Pending = Pending(launch: Launch, i: nat)

  datatype MainPc =
    | Receiving                        // request loop, before the commit point
    | SweepMaster | SweepSlave         // the stream closed first: release the PTY
    | Committed                        // a launch is pending
    | AfterStart | ReplyStarted        // the child is running, its request not yet answered
    | FailClose | FailReply | FailExit // the child did not start
    | SftpStart | SftpServing | SftpClosing
    | Running                          // select: context, channel close or child exit
    | SendHup | SetDeadline | Polling(deadline: int)
    | AwaitExit | Draining
    | ClearLock | Clearing | CloseMaster
    | Finishing | CloseChannel | AwaitSide
    | Returning | Returned

  datatype SidePc =
    | Idle
    | Rejecting                              // sftp: refuse everything
    | Serving
    | WcLock(i: nat, want: bool, size: WinChange)   // window-change: before st.mu
    | WcHeld(i: nat, want: bool, size: WinChange)   // holds st.mu
    | WcReply(i: nat, want: bool)
    | SideDone

  /** What the two goroutines change after the commit point: their positions, the holder of
      `st.mu`, the pointer `st.ptyMaster`, and whether the child's group has been signalled. */
  datatype Ctl = Ctl(main: MainPc, side: SidePc, lock: Option<Who>, master: bool, killed: bool)

  /** What they only read: the pending launch, whether a PTY was granted, and the outside. */
  datatype World = World(
    pending: Option<Pending>, hasPty: bool, reqsClosed: bool, ctxDone: bool, childExited: bool, now: int)

  datatype State = State(ctl: Ctl, world: World, fields: Fields, reqs: seq<Request>, trace: seq<Event>)

  const INIT: State :=
    State(Ctl(Receiving, Idle, None, false, false), World(None, false, false, false, false, 0), FRESH, [], [])

  datatype Action =
    | Receive(r: Request, allocOk: bool)
    | SideReceive(r: Request)
    | MainStep(ok: bool)    // `ok` resolves what the system answers: started, alive, finished
    | Select(branch: Branch)
    | SideStep
    | PeerCloses
    | ContextDone
    | ChildExits
    | Tick(dt: nat)

  /** A step: the new control state and the event it causes. */
  datatype Move = Move(to: Ctl, event: Option<Event>)

  function Quiet(c: Ctl): Move { Move(c, None) }

  predicate IsSftp(w: World) { w.pending.Some? && w.pending.value.launch.LaunchSftp? }

  function Index(w: World): nat { if w.pending.Some? then w.pending.value.i else 0 }

  function StartMove(c: Ctl, w: World, ok: bool): Move {
    if w.pending.None? then Quiet(c)
    else if IsSftp(w) then Move(c.(main := SftpStart), Some(Replied(Index(w), true)))
    else if ok then Move(c.(main := AfterStart), Some(Launched(w.pending.value.launch, Index(w))))
    else Quiet(c.(main := if w.hasPty then FailClose else FailReply))
  }

  function PollMove(c: Ctl, w: World, deadline: int, alive: bool): Move {
    if w.now < deadline then
      Move(c.(main := if alive then Polling(deadline) else AwaitExit), Some(Polled(w.now, alive)))
    else Move(c.(main := AwaitExit), Some(KillSent(w.now)))
  }

  function MainMove(c: Ctl, w: World, ok: bool): Move {
    match c.main
    case Receiving => Quiet(if w.reqsClosed then c.(main := SweepMaster) else c)
    case SweepMaster => Move(c.(main := SweepSlave), if c.master then Some(MasterClosed) else None)
    case SweepSlave => Move(c.(main := Returning), if w.hasPty then Some(SlaveClosed) else None)
    case Committed => StartMove(c, w, ok)
    case AfterStart => Move(c.(main := ReplyStarted), if w.hasPty then Some(SlaveClosed) else None)
    case ReplyStarted => Move(c.(main := Running, side := Serving), Some(Replied(Index(w), true)))
    case FailClose => Move(c.(main := FailReply), Some(MasterClosed))
    case FailReply => Move(c.(main := FailExit), Some(Replied(Index(w), false)))
    case FailExit => Move(c.(main := Returning), Some(ExitSent))
    case SftpStart => Move(c.(main := SftpServing, side := Rejecting), Some(Launched(LaunchSftp, Index(w))))
    case SftpServing =>
      if ok then Quiet(c.(main := AwaitSide))
      else if w.ctxDone then Move(c.(main := SftpClosing), Some(ChannelClosed))
      else Quiet(c)
    case SftpClosing => Quiet(if ok then c.(main := AwaitSide) else c)
    case Running => Quiet(c)
    case SendHup => Move(c.(main := SetDeadline), Some(HupSent(w.now)))
    case SetDeadline => Move(c.(main := Polling(w.now + GRACE)), Some(GraceStarted(w.now)))
    case Polling(deadline) => PollMove(c, w, deadline, ok)
    case AwaitExit => Quiet(if w.childExited then c.(main := Draining) else c)
    case Draining => Quiet(c.(main := if w.hasPty then ClearLock else Finishing))
    case ClearLock => Quiet(if c.lock.None? then c.(main := Clearing, lock := Some(Main)) else c)
    case Clearing => Move(c.(main := CloseMaster, lock := None, master := false), Some(Withdrawn))
    case CloseMaster => Move(c.(main := Finishing), Some(MasterClosed))
    case Finishing => if c.killed then Quiet(c.(main := AwaitSide)) else Move(c.(main := CloseChannel), Some(ExitSent))
    case CloseChannel => Move(c.(main := AwaitSide), Some(ChannelClosed))
    case AwaitSide => Quiet(if c.side.SideDone? then c.(main := Returning) else c)
    case Returning => Move(c.(main := Returned), Some(ChannelClosed))
    case Returned => Quiet(c)
  }

  function SelectMove(c: Ctl, w: World, branch: Branch): Move {
    if !c.main.Running? then Quiet(c)
    else
      match branch
      case FromContext =>
        if w.ctxDone then Move(c.(main := SendHup, killed := true), Some(Selected(branch))) else Quiet(c)
      case FromClosed =>
        if c.side.SideDone? then Move(c.(main := SendHup, killed := true), Some(Selected(branch))) else Quiet(c)
      case FromExit => if w.childExited then Move(c.(main := Draining), Some(Selected(branch))) else Quiet(c)
  }

  function Maybe(want: bool, i: nat, ok: bool): Option<Event> { if want then Some(Replied(i, ok)) else None }

  /** The i-th request, arriving after the commit point. */
  function SideReceiveMove(c: Ctl, i: nat, r: Request): Move {
    if c.side.Rejecting? then Move(c, Maybe(r.wantReply, i, false))
    else
      match r.kind
      case WindowChange =>
        var w := ParseWindowChange(r.payload);
        if w.Value? then Quiet(c.(side := WcLock(i, r.wantReply, w.value)))
        else Move(c, Maybe(r.wantReply, i, false))
      case Signal => Quiet(c)
      case Shell => Move(c, Some(Replied(i, false)))
      case Exec => Move(c, Some(Replied(i, false)))
      case Subsystem => Move(c, Some(Replied(i, false)))
      case _ => Move(c, Maybe(r.wantReply, i, false))
  }

  function SideMove(c: Ctl, w: World): Move {
    match c.side
    case Rejecting => Quiet(if w.reqsClosed then c.(side := SideDone) else c)
    case Serving => Quiet(if w.reqsClosed then c.(side := SideDone) else c)
    case WcLock(i, want, size) =>
      Quiet(if c.lock.None? then c.(side := WcHeld(i, want, size), lock := Some(Side)) else c)
    case WcHeld(i, want, size) =>
      Move(c.(side := WcReply(i, want), lock := None), Some(if c.master then Resized(i, size) else NoTerminal(i)))
    case WcReply(i, want) => Move(c.(side := Serving), Maybe(want, i, true))
    case _ => Quiet(c)
  }

  /** A request is taken off the stream by `Handle` before the commit point ... */
  predicate MainTakes(s: State) { s.ctl.main.Receiving? && !s.world.reqsClosed }

  /** ... and by the side goroutine after it. */
  predicate SideTakes(s: State) { (s.ctl.side.Rejecting? || s.ctl.side.Serving?) && !s.world.reqsClosed }

  function NextMove(s: State, a: Action): Move {
    match a
    case SideReceive(r) => if SideTakes(s) then SideReceiveMove(s.ctl, |s.reqs|, r) else Quiet(s.ctl)
    case MainStep(ok) => MainMove(s.ctl, s.world, ok)
    case Select(branch) => SelectMove(s.ctl, s.world, branch)
    case SideStep => SideMove(s.ctl, s.world)
    case ChildExits => if ChildAlive(s.ctl, s.world) then Move(s.ctl, Some(ChildExited)) else Quiet(s.ctl)
    case _ => Quiet(s.ctl)
  }

  /** A child was started and has not exited. */
  predicate ChildAlive(c: Ctl, w: World) { LaunchAt(c.main) == Some(true) && !IsSftp(w) && !w.childExited }

  function NextWorld(c: Ctl, w: World, a: Action): World {
    match a
    case PeerCloses => w.(reqsClosed := true)
    case ContextDone => w.(ctxDone := true)
    case ChildExits => if ChildAlive(c, w) then w.(childExited := true) else w
    case Tick(dt) => w.(now := w.now + dt)
    case _ => w
  }

  function AsSeq(e: Option<Event>): seq<Event> { if e.Some? then [e.value] else [] }

  /** A request in the loop before the commit point. */
  function ReceiveStep(s: State, r: Request, allocOk: bool): State {
    var i, reqs := |s.reqs|, s.reqs + [r];
    match LaunchOf(r)
    case Some(launch) =>
      s.(ctl := s.ctl.(main := Committed), world := s.world.(pending := Some(Pending(launch, i))), reqs := reqs)
    case None =>
      var o := OnOther(s.fields, i, r, allocOk);
      State(s.ctl.(master := o.fields.master), s.world.(hasPty := o.fields.pty.Some?), o.fields, reqs,
            s.trace + o.events)
  }

  function Step(s: State, a: Action): State {
    if a.Receive? then (if MainTakes(s) then ReceiveStep(s, a.r, a.allocOk) else s)
    else
      State(
        NextMove(s, a).to, NextWorld(s.ctl, s.world, a), s.fields,
        if a.SideReceive? && SideTakes(s) then s.reqs + [a.r] else s.reqs,
        s.trace + AsSeq(NextMove(s, a).event))
  }

  function Run(acts: seq<Action>): State
    decreases |acts|
  {
    if acts == [] then INIT else Step(Run(acts[..|acts| - 1]), acts[|acts| - 1])
  }

  // ----- where the two goroutines can be -----

  datatype SideNeed = MustBeIdle | MustBeLive | MustBeSettled
  datatype PendingNeed = NoPending | SomePending | OnlySftp | OnlyChild | AnyPending

  function SideAt(pc: MainPc): SideNeed {
    match pc
    case Receiving => MustBeIdle
    case SweepMaster => MustBeIdle
    case SweepSlave => MustBeIdle
    case Committed => MustBeIdle
    case AfterStart => MustBeIdle
    case ReplyStarted => MustBeIdle
    case FailClose => MustBeIdle
    case FailReply => MustBeIdle
    case FailExit => MustBeIdle
    case SftpStart => MustBeIdle
    case Returning => MustBeSettled
    case Returned => MustBeSettled
    case _ => MustBeLive
  }

  function PendingAt(pc: MainPc): PendingNeed {
    match pc
    case Receiving => NoPending
    case SweepMaster => NoPending
    case SweepSlave => NoPending
    case Committed => SomePending
    case AwaitSide => SomePending
    case SftpStart => OnlySftp
    case SftpServing => OnlySftp
    case SftpClosing => OnlySftp
    case Returning => AnyPending
    case Returned => AnyPending
    case _ => OnlyChild
  }

  /** The side goroutine is serving requests for a child. */
  predicate ServesChild(side: SidePc) { side.Serving? || side.WcLock? || side.WcHeld? || side.WcReply? }

  predicate Shape(c: Ctl, w: World) {
    && (c.lock == Some(Side) <==> c.side.WcHeld?) && (c.lock == Some(Main) <==> c.main.Clearing?)
    && (c.side.Rejecting? ==> IsSftp(w))
    && (ServesChild(c.side) ==> w.pending.Some? && !IsSftp(w))
    && (match SideAt(c.main)
        case MustBeIdle => c.side.Idle?
        case MustBeLive => !c.side.Idle?
        case MustBeSettled => c.side.Idle? || c.side.SideDone?)
    && (match PendingAt(c.main)
        case NoPending => w.pending.None?
        case SomePending => w.pending.Some?
        case OnlySftp => w.pending.Some? && IsSftp(w)
        case OnlyChild => w.pending.Some? && !IsSftp(w)
        case AnyPending => true)
  }

  // Main's program points in three stretches, to keep each case analysis small.

  predicate Opening(pc: MainPc) {
    pc.Receiving? || pc.SweepMaster? || pc.SweepSlave? || pc.Committed? || pc.AfterStart? || pc.ReplyStarted?
    || pc.FailClose? || pc.FailReply? || pc.FailExit?
  }

  predicate Attending(pc: MainPc) {
    pc.SftpStart? || pc.SftpServing? || pc.SftpClosing? || pc.Running? || pc.SendHup? || pc.SetDeadline?
    || pc.Polling? || pc.AwaitExit?
  }

  lemma OpeningKeepsShape(c: Ctl, w: World, ok: bool)
    requires Shape(c, w) && Opening(c.main)
    ensures Shape(MainMove(c, w, ok).to, w)
  {
  }

  lemma ServingKeepsShape(c: Ctl, w: World, ok: bool)
    requires Shape(c, w) && Attending(c.main)
    ensures Shape(MainMove(c, w, ok).to, w)
  {
  }

  lemma ClosingKeepsShape(c: Ctl, w: World, ok: bool)
    requires Shape(c, w) && !Opening(c.main) && !Attending(c.main)
    ensures Shape(MainMove(c, w, ok).to, w)
  {
  }

  lemma SideKeepsShape(c: Ctl, w: World)
    requires Shape(c, w)
    ensures Shape(SideMove(c, w).to, w)
  {
  }

  lemma SideReceiveKeepsShape(c: Ctl, w: World, i: nat, r: Request)
    requires Shape(c, w) && (c.side.Rejecting? || c.side.Serving?)
    ensures Shape(SideReceiveMove(c, i, r).to, w)
  {
  }

  lemma StepKeepsShape(s: State, a: Action)
    requires Shape(s.ctl, s.world)
    ensures Shape(Step(s, a).ctl, Step(s, a).world)
  {
    hide Shape, MainMove, SideMove, SideReceiveMove;
    match a {
      case MainStep(ok) =>
        if Opening(s.ctl.main) { OpeningKeepsShape(s.ctl, s.world, ok); }
        else if Attending(s.ctl.main) { ServingKeepsShape(s.ctl, s.world, ok); }
        else { ClosingKeepsShape(s.ctl, s.world, ok); }
      case SideStep => SideKeepsShape(s.ctl, s.world);
      case SideReceive(r) => if SideTakes(s) { SideReceiveKeepsShape(s.ctl, s.world, |s.reqs|, r); }
      case Select(b) => SelectKeepsShape(s.ctl, s.world, b);
      case Receive(r, allocOk) => if MainTakes(s) { ReceiveKeepsShape(s, r, allocOk); }
      case _ => OutsideKeepsShape(s.ctl, s.world, a);
    }
  }

  lemma SelectKeepsShape(c: Ctl, w: World, b: Branch)
    requires Shape(c, w)
    ensures Shape(SelectMove(c, w, b).to, w)
  {
  }

  lemma ReceiveKeepsShape(s: State, r: Request, allocOk: bool)
    requires Shape(s.ctl, s.world) && MainTakes(s)
    ensures Shape(ReceiveStep(s, r, allocOk).ctl, ReceiveStep(s, r, allocOk).world)
  {
    hide LaunchOf, OnOther;
  }

  lemma OutsideKeepsShape(c: Ctl, w: World, a: Action)
    requires Shape(c, w)
    ensures Shape(c, NextWorld(c, w, a))
  {
    hide SideAt, PendingAt;
  }

  // ----- monitors over the events -----

  /** PTYs opened and closed, and whether Setsize was ever called without an open one. */
  datatype PtyTally = PtyTally(allocs: nat, closes: nat, bad: bool)

  function ObservePty(m: PtyTally, e: Event): PtyTally {
    match e
    case Allocated => m.(allocs := m.allocs + 1)
    case Resized(_, _) => m.(bad := m.bad || m.allocs == 0 || m.closes > 0)
    case MasterClosed => m.(closes := m.closes + 1)
    case _ => m
  }

  /** Exit messages, signals and channel closes, and whether an ordering rule was ever broken. */
  datatype ExitTally = ExitTally(
    exits: nat, hups: nat, hupAt: int, answered: bool, kills: nat, closes: nat, badExit: bool, badKill: bool)

  function ObserveExit(m: ExitTally, e: Event): ExitTally {
    match e
    case ExitSent => m.(exits := m.exits + 1, badExit := m.badExit || m.hups > 0 || m.closes > 0)
    case HupSent(at) => m.(hups := m.hups + 1, hupAt := at, badExit := m.badExit || m.exits > 0)
    case Polled(_, alive) => m.(answered := m.answered && alive)
    case KillSent(at) =>
      m.(kills := m.kills + 1, badKill := m.badKill || m.hups == 0 || !m.answered || at < m.hupAt + GRACE)
    case ChannelClosed => m.(closes := m.closes + 1)
    case _ => m
  }

  function ObserveLaunch(m: seq<Pending>, e: Event): seq<Pending> {
    match e
    case Launched(launch, i) => m + [Pending(launch, i)]
    case _ => m
  }

  datatype Tally = Tally(pty: PtyTally, exit: ExitTally, launches: seq<Pending>)

  const NOTHING: Tally := Tally(PtyTally(0, 0, false), ExitTally(0, 0, 0, true, 0, 0, false, false), [])

  function Observe(m: Tally, e: Event): Tally {
    Tally(ObservePty(m.pty, e), ObserveExit(m.exit, e), ObserveLaunch(m.launches, e))
  }

  function ObserveAll(m: Tally, es: seq<Event>): Tally
    decreases |es|
  {
    if es == [] then m else Observe(ObserveAll(m, es[..|es| - 1]), es[|es| - 1])
  }

  function TallyOf(trace: seq<Event>): Tally { ObserveAll(NOTHING, trace) }

  lemma {:induction false} ObserveAppend(m: Tally, a: seq<Event>, b: seq<Event>)
    ensures ObserveAll(m, a + b) == ObserveAll(ObserveAll(m, a), b)
    decreases |b|
  {
    if b == [] {
      assert a + b == a;
    } else {
      assert (a + b)[..|a + b| - 1] == a + b[..|b| - 1];
      ObserveAppend(m, a, b[..|b| - 1]);
    }
  }

  lemma ObserveOne(m: Tally, e: Event)
    ensures ObserveAll(m, [e]) == Observe(m, e)
  {
    assert [e][..0] == [];
  }

  function After(m: Tally, e: Option<Event>): Tally { if e.Some? then Observe(m, e.value) else m }

  lemma StepTally(s: State, a: Action)
    requires !a.Receive?
    ensures TallyOf(Step(s, a).trace) == After(TallyOf(s.trace), NextMove(s, a).event)
  {
    var e := NextMove(s, a).event;
    ObserveAppend(NOTHING, s.trace, AsSeq(e));
    if e.Some? { ObserveOne(TallyOf(s.trace), e.value); }
  }

  // ----- the PTY -----

  datatype MasterNeed = Set | Cleared | Either

  /** At each point: the state of the pointer, and whether the master has been closed. */
  datatype PtyRow = PtyRow(master: MasterNeed, closed: bool, needsPty: bool)

  function PtyAt(pc: MainPc, sftp: bool): PtyRow {
    match pc
    case SweepSlave => PtyRow(Either, true, false)
    case FailClose => PtyRow(Set, false, true)
    case FailReply => PtyRow(Either, true, false)
    case FailExit => PtyRow(Either, true, false)
    case ClearLock => PtyRow(Set, false, true)
    case Clearing => PtyRow(Set, false, true)
    case CloseMaster => PtyRow(Cleared, false, true)
    case Finishing => PtyRow(Cleared, true, false)
    case CloseChannel => PtyRow(Cleared, true, false)
    case AwaitSide => PtyRow(if sftp then Either else Cleared, !sftp, false)
    case Returning => PtyRow(Either, !sftp, false)
    case Returned => PtyRow(Either, !sftp, false)
    case _ => PtyRow(Set, false, false)
  }

  predicate PtyFits(row: PtyRow, c: Ctl, w: World, m: PtyTally) {
    && m.closes == (if row.closed then m.allocs else 0)
    && (row.master.Set? ==> c.master == w.hasPty)
    && (row.master.Cleared? ==> !c.master)
    && (row.needsPty ==> w.hasPty)
  }

  predicate PtyOk(c: Ctl, w: World, m: PtyTally) {
    && m.allocs == (if w.hasPty then 1 else 0) && !m.bad
    && (c.master ==> w.hasPty)
    && (c.master && ServesChild(c.side) ==> m.closes == 0)
    && PtyFits(PtyAt(c.main, IsSftp(w)), c, w, m)
  }

  function PtyAfter(m: PtyTally, e: Option<Event>): PtyTally { if e.Some? then ObservePty(m, e.value) else m }

  lemma OpeningKeepsPty(c: Ctl, w: World, m: PtyTally, ok: bool)
    requires Shape(c, w) && PtyOk(c, w, m) && Opening(c.main)
    ensures PtyOk(MainMove(c, w, ok).to, w, PtyAfter(m, MainMove(c, w, ok).event))
  {
  }

  lemma ServingKeepsPty(c: Ctl, w: World, m: PtyTally, ok: bool)
    requires Shape(c, w) && PtyOk(c, w, m) && Attending(c.main)
    ensures PtyOk(MainMove(c, w, ok).to, w, PtyAfter(m, MainMove(c, w, ok).event))
  {
  }

  lemma ClosingKeepsPty(c: Ctl, w: World, m: PtyTally, ok: bool)
    requires Shape(c, w) && PtyOk(c, w, m) && !Opening(c.main) && !Attending(c.main)
    ensures PtyOk(MainMove(c, w, ok).to, w, PtyAfter(m, MainMove(c, w, ok).event))
  {
  }

  /** The side goroutine resizes only under the lock, while the pointer is still set. */
  lemma SideKeepsPty(c: Ctl, w: World, m: PtyTally)
    requires Shape(c, w) && PtyOk(c, w, m)
    ensures PtyOk(SideMove(c, w).to, w, PtyAfter(m, SideMove(c, w).event))
  {
  }

  lemma SideReceiveKeepsPty(c: Ctl, w: World, m: PtyTally, i: nat, r: Request)
    requires Shape(c, w) && PtyOk(c, w, m) && (c.side.Rejecting? || c.side.Serving?)
    ensures PtyOk(SideReceiveMove(c, i, r).to, w, PtyAfter(m, SideReceiveMove(c, i, r).event))
  {
  }

  // ----- exit, signals, close -----

  datatype KillNeed = NotKilled | KilledUnsent | KilledSent | AsSent | AnyKill

  datatype ExitRow = ExitRow(noExit: bool, noClose: bool, kill: KillNeed, polling: bool)

  function ExitAt(pc: MainPc): ExitRow {
    match pc
    case SftpClosing => ExitRow(true, false, NotKilled, false)
    case SendHup => ExitRow(true, true, KilledUnsent, false)
    case SetDeadline => ExitRow(true, true, KilledSent, true)
    case Polling(_) => ExitRow(true, true, KilledSent, true)
    case AwaitExit => ExitRow(true, true, KilledSent, false)
    case Draining => ExitRow(true, true, AsSent, false)
    case ClearLock => ExitRow(true, true, AsSent, false)
    case Clearing => ExitRow(true, true, AsSent, false)
    case CloseMaster => ExitRow(true, true, AsSent, false)
    case Finishing => ExitRow(true, true, AsSent, false)
    case CloseChannel => ExitRow(false, true, NotKilled, false)
    case AwaitSide => ExitRow(false, false, AnyKill, false)
    case Returning => ExitRow(false, false, AnyKill, false)
    case Returned => ExitRow(false, false, AnyKill, false)
    case _ => ExitRow(true, true, NotKilled, false)
  }

  predicate ExitFits(row: ExitRow, c: Ctl, m: ExitTally) {
    && (row.noExit ==> m.exits == 0)
    && (row.noClose ==> m.closes == 0)
    && (match row.kill
        case NotKilled => !c.killed && m.hups == 0
        case KilledUnsent => c.killed && m.hups == 0
        case KilledSent => c.killed && m.hups == 1
        case AsSent => m.hups == (if c.killed then 1 else 0)
        case AnyKill => true)
    && (row.polling ==> m.answered && m.kills == 0)
  }

  /** Once `Handle` is on its way out, a child that was not signalled has had its exit message. */
  predicate ExitSettled(c: Ctl, w: World, m: ExitTally) {
    && (c.main.AwaitSide? || c.main.Returning? || c.main.Returned? ==>
          && m.hups == (if c.killed then 1 else 0)
          && m.exits == (if w.pending.Some? && !IsSftp(w) && !c.killed then 1 else 0))
    && (c.killed ==> w.pending.Some? && !IsSftp(w))
    && (c.main.CloseChannel? ==> m.exits == 1)
    && (c.main.AwaitSide? && !IsSftp(w) && !c.killed ==> m.closes > 0)
    && (c.main.SftpClosing? ==> m.closes > 0)
    && (c.killed && !c.main.SendHup? && !c.main.SetDeadline? && !c.main.Polling? ==> (m.kills == 1 <==> m.answered))
    && (c.main.Returned? ==> m.closes > 0)
    && (c.killed && !c.main.Returned? ==> m.closes == 0)
  }

  predicate ExitOk(c: Ctl, w: World, m: ExitTally) {
    && m.exits <= 1 && m.hups <= 1 && m.kills <= 1 && !m.badExit && !m.badKill
    && (m.hups > 0 ==> m.exits == 0 && m.hupAt <= w.now)
    && (c.killed ==> m.exits == 0)
    && (m.hups == 0 ==> m.kills == 0 && m.answered)
    && (c.main.Polling? ==> c.main.deadline >= m.hupAt + GRACE)
    && ExitFits(ExitAt(c.main), c, m)
  }

  function ExitAfter(m: ExitTally, e: Option<Event>): ExitTally { if e.Some? then ObserveExit(m, e.value) else m }

  lemma OpeningKeepsExit(c: Ctl, w: World, m: ExitTally, ok: bool)
    requires ExitOk(c, w, m) && Opening(c.main)
    ensures ExitOk(MainMove(c, w, ok).to, w, ExitAfter(m, MainMove(c, w, ok).event))
  {
  }

  lemma ServingKeepsExit(c: Ctl, w: World, m: ExitTally, ok: bool)
    requires ExitOk(c, w, m) && Attending(c.main)
    ensures ExitOk(MainMove(c, w, ok).to, w, ExitAfter(m, MainMove(c, w, ok).event))
  {
    hide ExitOk, MainMove;
    if c.main.Polling? { PollKeepsExit(c, w, m, ok); } else { OtherServingKeepsExit(c, w, m, ok); }
  }

  lemma PollKeepsExit(c: Ctl, w: World, m: ExitTally, ok: bool)
    requires ExitOk(c, w, m) && c.main.Polling?
    ensures ExitOk(MainMove(c, w, ok).to, w, ExitAfter(m, MainMove(c, w, ok).event))
  {
  }

  lemma OtherServingKeepsExit(c: Ctl, w: World, m: ExitTally, ok: bool)
    requires ExitOk(c, w, m) && Attending(c.main) && !c.main.Polling?
    ensures ExitOk(MainMove(c, w, ok).to, w, ExitAfter(m, MainMove(c, w, ok).event))
  {
  }

  lemma ClosingKeepsExit(c: Ctl, w: World, m: ExitTally, ok: bool)
    requires ExitOk(c, w, m) && !Opening(c.main) && !Attending(c.main)
    ensures ExitOk(MainMove(c, w, ok).to, w, ExitAfter(m, MainMove(c, w, ok).event))
  {
  }

  /** The side goroutine neither signals, nor sends exit messages, nor closes the channel. */
  lemma SideKeepsExit(c: Ctl, w: World, m: ExitTally)
    requires ExitOk(c, w, m)
    ensures ExitOk(SideMove(c, w).to, w, ExitAfter(m, SideMove(c, w).event))
    ensures ExitSettled(c, w, m) ==> ExitSettled(SideMove(c, w).to, w, ExitAfter(m, SideMove(c, w).event))
  {
  }

  lemma SideReceiveKeepsExit(c: Ctl, w: World, m: ExitTally, i: nat, r: Request)
    requires ExitOk(c, w, m)
    ensures ExitOk(SideReceiveMove(c, i, r).to, w, ExitAfter(m, SideReceiveMove(c, i, r).event))
    ensures ExitSettled(c, w, m) ==>
              ExitSettled(SideReceiveMove(c, i, r).to, w, ExitAfter(m, SideReceiveMove(c, i, r).event))
  {
  }

  lemma EarlyKeepsSettled(c: Ctl, w: World, m: ExitTally, ok: bool)
    requires Shape(c, w) && ExitOk(c, w, m) && ExitSettled(c, w, m) && (Opening(c.main) || Attending(c.main))
    ensures ExitSettled(MainMove(c, w, ok).to, w, ExitAfter(m, MainMove(c, w, ok).event))
  {
    hide Shape, ExitOk, ExitSettled, MainMove;
    if Opening(c.main) {
      OpeningKeepsSettled(c, w, m, ok);
    } else if c.main.Polling? {
      PollKeepsSettled(c, w, m, ok);
    } else {
      ServingKeepsSettled(c, w, m, ok);
    }
  }

  lemma OpeningKeepsSettled(c: Ctl, w: World, m: ExitTally, ok: bool)
    requires Shape(c, w) && ExitOk(c, w, m) && ExitSettled(c, w, m) && (Opening(c.main) || Attending(c.main))
    requires Opening(c.main)
    ensures ExitSettled(MainMove(c, w, ok).to, w, ExitAfter(m, MainMove(c, w, ok).event))
  {
  }

  lemma PollKeepsSettled(c: Ctl, w: World, m: ExitTally, ok: bool)
    requires Shape(c, w) && ExitOk(c, w, m) && ExitSettled(c, w, m) && (Opening(c.main) || Attending(c.main))
    requires c.main.Polling?
    ensures ExitSettled(MainMove(c, w, ok).to, w, ExitAfter(m, MainMove(c, w, ok).event))
  {
  }

  lemma ServingKeepsSettled(c: Ctl, w: World, m: ExitTally, ok: bool)
    requires Shape(c, w) && ExitOk(c, w, m) && ExitSettled(c, w, m) && (Opening(c.main) || Attending(c.main))
    requires Attending(c.main) && !c.main.Polling?
    ensures ExitSettled(MainMove(c, w, ok).to, w, ExitAfter(m, MainMove(c, w, ok).event))
  {
  }

  lemma ClosingKeepsSettled(c: Ctl, w: World, m: ExitTally, ok: bool)
    requires Shape(c, w) && ExitOk(c, w, m) && ExitSettled(c, w, m) && !Opening(c.main) && !Attending(c.main)
    ensures ExitSettled(MainMove(c, w, ok).to, w, ExitAfter(m, MainMove(c, w, ok).event))
  {
  }

  // ----- launches -----

  /** Whether the launch has happened; undecided once `Handle` is on its way out. */
  function LaunchAt(pc: MainPc): Option<bool> {
    match pc
    case Receiving => Some(false)
    case SweepMaster => Some(false)
    case SweepSlave => Some(false)
    case Committed => Some(false)
    case FailClose => Some(false)
    case FailReply => Some(false)
    case FailExit => Some(false)
    case SftpStart => Some(false)
    case Returning => None
    case Returned => None
    case _ => Some(true)
  }

  predicate LaunchOk(c: Ctl, w: World, m: seq<Pending>) {
    && (m == [] || (w.pending.Some? && m == [w.pending.value]))
    && (LaunchAt(c.main) == Some(false) ==> m == [])
    && (LaunchAt(c.main) == Some(true) ==> m != [])
  }

  function LaunchAfter(m: seq<Pending>, e: Option<Event>): seq<Pending> {
    if e.Some? then ObserveLaunch(m, e.value) else m
  }

  lemma OpeningKeepsLaunch(c: Ctl, w: World, m: seq<Pending>, ok: bool)
    requires Shape(c, w) && LaunchOk(c, w, m) && Opening(c.main)
    ensures LaunchOk(MainMove(c, w, ok).to, w, LaunchAfter(m, MainMove(c, w, ok).event))
  {
  }

  lemma LaterKeepsLaunch(c: Ctl, w: World, m: seq<Pending>, ok: bool)
    requires Shape(c, w) && LaunchOk(c, w, m) && !Opening(c.main)
    ensures LaunchOk(MainMove(c, w, ok).to, w, LaunchAfter(m, MainMove(c, w, ok).event))
  {
  }

  /** The side goroutine never moves `Handle`, never touches the pointer, and launches nothing. */
  lemma SideIsModest(c: Ctl, w: World, m: seq<Pending>)
    ensures var mv := SideMove(c, w);
            mv.to.main == c.main && mv.to.master == c.master && LaunchAfter(m, mv.event) == m
  {
  }

  predicate InWindowChange(side: SidePc) { side.WcLock? || side.WcHeld? || side.WcReply? }

  /** A window-change keeps its place until its last step, which gives the answer it is due. */
  lemma SideAnswers(c: Ctl, w: World)
    ensures var mv := SideMove(c, w);
            if c.side.WcReply? then mv.to.side.Serving? && mv.event == Maybe(c.side.want, c.side.i, true)
            else
              && (mv.event.Some? <==> c.side.WcHeld?)
              && (c.side.WcHeld? ==>
                    mv.event.value == if c.master then Resized(c.side.i, c.side.size) else NoTerminal(c.side.i))
              && (mv.to.side.WcHeld? && !c.side.WcHeld? ==> c.side.WcLock? && mv.to.side.size == c.side.size)
              && InWindowChange(mv.to.side) == InWindowChange(c.side)
              && (InWindowChange(c.side) ==> mv.to.side.i == c.side.i && mv.to.side.want == c.side.want)
  {
  }

  /** A request after the commit point is answered on the spot with the answer it is due, except
      for a well-formed window-change, which is set aside. */
  lemma SideReceiveAnswers(c: Ctl, i: nat, r: Request)
    ensures var mv := SideReceiveMove(c, i, r);
            && (mv.event.Some? ==> mv.event.value == Replied(i, false))
            && (mv.event.Some? && r.kind.WindowChange? ==> c.side.Rejecting? || !ParseWindowChange(r.payload).Value?)
            && (mv.event.Some? && r.kind.Signal? ==> c.side.Rejecting?)
            && (mv.to == c || (mv.event.None? && r.kind.WindowChange? && ParseWindowChange(r.payload).Value?
                               && mv.to == c.(side := WcLock(i, r.wantReply, ParseWindowChange(r.payload).value))))
            && (mv.to == c && Mandatory(r) && !c.side.WcLock? ==> mv.event.Some?)
  {
  }
}
