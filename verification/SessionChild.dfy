/** The life of a child: what ends its supervision, who is told, and in which order. */
module SessionChild {
  import opened Common
  import opened Wire
  import opened Session
  import opened SessionMachine
  import opened SessionTheorems
  import opened SessionProgress

  // ----- a monitor over the events -----

  /** Whether a child was started and has exited, why `Handle` stopped waiting for it, whether it was
      sent a HUP, when its grace period began, how often the PTY slave was closed, and whether an
      ordering rule was broken. */
  datatype ChildTally = ChildTally(
    started: bool, exited: bool, why: Option<Branch>, hup: bool, grace: Option<int>, slaves: nat, bad: bool)

  const UNBORN: ChildTally := ChildTally(false, false, None, false, None, 0, false)

  /** `Handle` gave up waiting although the child may still run. */
  predicate GaveUp(why: Option<Branch>) { why == Some(FromContext) || why == Some(FromClosed) }

  // In nanoseconds.
  const FIVE_SECONDS: int := 5_000_000_000

  function ObserveChild(m: ChildTally, e: Event): ChildTally {
    match e
    case Launched(launch, _) => m.(started := m.started || !launch.LaunchSftp?)
    case ChildExited => m.(exited := true, bad := m.bad || !m.started || m.exited)
    case Selected(why) =>
      m.(why := Some(why), bad := m.bad || !m.started || m.why.Some? || (why.FromExit? && !m.exited))
    case HupSent(_) => m.(hup := true, bad := m.bad || m.hup || !GaveUp(m.why))
    case GraceStarted(at) => m.(grace := Some(at), bad := m.bad || !m.hup || m.grace.Some?)
    case Polled(at, _) => m.(bad := m.bad || m.grace.None? || at >= m.grace.value + FIVE_SECONDS)
    case KillSent(at) => m.(bad := m.bad || m.grace.None? || at < m.grace.value + FIVE_SECONDS)
    case ExitSent => m.(bad := m.bad || (m.started && !m.exited))
    case MasterClosed => m.(bad := m.bad || (m.started && !m.exited))
    case Withdrawn => m.(bad := m.bad || !m.exited)
    case SlaveClosed => m.(slaves := m.slaves + 1)
    case _ => m
  }

  function ChildOf(trace: seq<Event>): ChildTally
    decreases |trace|
  {
    if trace == [] then UNBORN else ObserveChild(ChildOf(trace[..|trace| - 1]), trace[|trace| - 1])
  }

  function ChildAfter(m: ChildTally, e: Option<Event>): ChildTally { if e.Some? then ObserveChild(m, e.value) else m }

  lemma ChildOfAppend(trace: seq<Event>, e: Option<Event>)
    ensures ChildOf(trace + AsSeq(e)) == ChildAfter(ChildOf(trace), e)
  {
    hide ObserveChild;
    if e.Some? { assert (trace + [e.value])[..|trace|] == trace; } else { assert trace + [] == trace; }
  }

  // ----- what every step keeps -----

  /** `Handle` has seen the child exit. */
  predicate SawExit(pc: MainPc) {
    pc.Draining? || pc.ClearLock? || pc.Clearing? || pc.CloseMaster? || pc.Finishing? || pc.CloseChannel?
          || pc.AwaitSide?
  }

  /** `Handle` is on its way out. */
  predicate Leaving(pc: MainPc) { pc.Returning? || pc.Returned? }

  /** `Handle` no longer waits for the child. */
  predicate LeftRunning(pc: MainPc) {
    pc.SendHup? || pc.SetDeadline? || pc.Polling? || pc.AwaitExit? || SawExit(pc)
  }

  /** How often the PTY slave has been closed: once, when the child has its own copy or when the
      channel ends without a commit. */
  function SlaveCloses(c: Ctl, w: World, started: bool): nat {
    if !w.hasPty then 0
    else if Leaving(c.main) then (if w.pending.None? || started then 1 else 0)
    else if started && !c.main.AfterStart? then 1
    else 0
  }

  predicate ChildOk(c: Ctl, w: World, m: ChildTally) {
    && !m.bad && m.exited == w.childExited
    && (LaunchAt(c.main) == Some(false) ==> !m.started)
    && (LaunchAt(c.main) == Some(true) ==> m.started == !IsSftp(w))
    && (m.exited || m.why.Some? ==> m.started)
    && (m.started ==> w.pending.Some? && !IsSftp(w))
    && (m.why.Some? ==> LeftRunning(c.main) || Leaving(c.main))
    && (m.started && (LeftRunning(c.main) || Leaving(c.main)) ==> m.why.Some?)
    && (m.started && (SawExit(c.main) || Leaving(c.main)) ==> m.exited)
    && c.killed == GaveUp(m.why) && m.hup == (c.killed && !c.main.SendHup?)
    && (c.main.SendHup? || c.main.SetDeadline? || c.main.Polling? || c.main.AwaitExit? ==> c.killed)
    && m.slaves == SlaveCloses(c, w, m.started)
    && (c.main.SendHup? || c.main.SetDeadline? ==> m.grace.None?) && (!c.killed ==> m.grace.None?)
    && (c.main.Polling? ==> m.grace.Some? && c.main.deadline == m.grace.value + FIVE_SECONDS)
    && (m.why == Some(FromContext) ==> w.ctxDone) && (m.why == Some(FromClosed) ==> c.side.SideDone?)
  }

  lemma OpeningKeepsChild(c: Ctl, w: World, m: ChildTally, ok: bool)
    requires Shape(c, w) && ChildOk(c, w, m) && Opening(c.main)
    ensures ChildOk(MainMove(c, w, ok).to, w, ChildAfter(m, MainMove(c, w, ok).event))
  {
    hide Shape, ChildOk, MainMove;
    if c.main.Receiving? || c.main.SweepMaster? || c.main.SweepSlave? {
      UncommittedKeepsChild(c, w, m, ok);
    } else {
      LaunchKeepsChild(c, w, m, ok);
    }
  }

  lemma UncommittedKeepsChild(c: Ctl, w: World, m: ChildTally, ok: bool)
    requires Shape(c, w) && ChildOk(c, w, m) && (c.main.Receiving? || c.main.SweepMaster? || c.main.SweepSlave?)
    ensures ChildOk(MainMove(c, w, ok).to, w, ChildAfter(m, MainMove(c, w, ok).event))
  {
  }

  lemma LaunchKeepsChild(c: Ctl, w: World, m: ChildTally, ok: bool)
    requires Shape(c, w) && ChildOk(c, w, m) && Opening(c.main)
    requires !c.main.Receiving? && !c.main.SweepMaster? && !c.main.SweepSlave?
    ensures ChildOk(MainMove(c, w, ok).to, w, ChildAfter(m, MainMove(c, w, ok).event))
  {
    hide Shape, ChildOk, MainMove;
    if c.main.Committed? {
      CommitKeepsChild(c, w, m, ok);
    } else if c.main.AfterStart? || c.main.ReplyStarted? {
      StartedKeepsChild(c, w, m, ok);
    } else {
      FailKeepsChild(c, w, m, ok);
    }
  }

  lemma CommitKeepsChild(c: Ctl, w: World, m: ChildTally, ok: bool)
    requires Shape(c, w) && ChildOk(c, w, m) && Opening(c.main)
    requires !c.main.Receiving? && !c.main.SweepMaster? && !c.main.SweepSlave?
    requires c.main.Committed?
    ensures ChildOk(MainMove(c, w, ok).to, w, ChildAfter(m, MainMove(c, w, ok).event))
  {
  }

  lemma StartedKeepsChild(c: Ctl, w: World, m: ChildTally, ok: bool)
    requires Shape(c, w) && ChildOk(c, w, m) && Opening(c.main)
    requires !c.main.Receiving? && !c.main.SweepMaster? && !c.main.SweepSlave?
    requires c.main.AfterStart? || c.main.ReplyStarted?
    ensures ChildOk(MainMove(c, w, ok).to, w, ChildAfter(m, MainMove(c, w, ok).event))
  {
  }

  lemma FailKeepsChild(c: Ctl, w: World, m: ChildTally, ok: bool)
    requires Shape(c, w) && ChildOk(c, w, m) && Opening(c.main)
    requires !c.main.Receiving? && !c.main.SweepMaster? && !c.main.SweepSlave?
    requires c.main.FailClose? || c.main.FailReply? || c.main.FailExit?
    ensures ChildOk(MainMove(c, w, ok).to, w, ChildAfter(m, MainMove(c, w, ok).event))
  {
  }

  lemma ServingKeepsChild(c: Ctl, w: World, m: ChildTally, ok: bool)
    requires Shape(c, w) && ChildOk(c, w, m) && Attending(c.main)
    ensures ChildOk(MainMove(c, w, ok).to, w, ChildAfter(m, MainMove(c, w, ok).event))
  {
    hide Shape, ChildOk, MainMove;
    if c.main.SftpStart? || c.main.SftpServing? || c.main.SftpClosing? {
      SftpKeepsChild(c, w, m, ok);
    } else {
      SupervisionKeepsChild(c, w, m, ok);
    }
  }

  lemma SftpKeepsChild(c: Ctl, w: World, m: ChildTally, ok: bool)
    requires Shape(c, w) && ChildOk(c, w, m) && (c.main.SftpStart? || c.main.SftpServing? || c.main.SftpClosing?)
    ensures ChildOk(MainMove(c, w, ok).to, w, ChildAfter(m, MainMove(c, w, ok).event))
  {
  }

  lemma SupervisionKeepsChild(c: Ctl, w: World, m: ChildTally, ok: bool)
    requires Shape(c, w) && ChildOk(c, w, m)
    requires c.main.Running? || c.main.SendHup? || c.main.SetDeadline? || c.main.Polling? || c.main.AwaitExit?
    ensures ChildOk(MainMove(c, w, ok).to, w, ChildAfter(m, MainMove(c, w, ok).event))
  {
    hide Shape, ChildOk, MainMove;
    if c.main.Polling? {
      PollKeepsChild(c, w, m, ok);
    } else if c.main.AwaitExit? {
      AwaitKeepsChild(c, w, m, ok);
    } else {
      SignalKeepsChild(c, w, m, ok);
    }
  }

  lemma PollKeepsChild(c: Ctl, w: World, m: ChildTally, ok: bool)
    requires Shape(c, w) && ChildOk(c, w, m)
    requires c.main.Running? || c.main.SendHup? || c.main.SetDeadline? || c.main.Polling? || c.main.AwaitExit?
    requires c.main.Polling?
    ensures ChildOk(MainMove(c, w, ok).to, w, ChildAfter(m, MainMove(c, w, ok).event))
  {
  }

  lemma AwaitKeepsChild(c: Ctl, w: World, m: ChildTally, ok: bool)
    requires Shape(c, w) && ChildOk(c, w, m)
    requires c.main.Running? || c.main.SendHup? || c.main.SetDeadline? || c.main.Polling? || c.main.AwaitExit?
    requires c.main.AwaitExit?
    ensures ChildOk(MainMove(c, w, ok).to, w, ChildAfter(m, MainMove(c, w, ok).event))
  {
  }

  lemma SignalKeepsChild(c: Ctl, w: World, m: ChildTally, ok: bool)
    requires Shape(c, w) && ChildOk(c, w, m)
    requires c.main.Running? || c.main.SendHup? || c.main.SetDeadline? || c.main.Polling? || c.main.AwaitExit?
    requires c.main.Running? || c.main.SendHup? || c.main.SetDeadline?
    ensures ChildOk(MainMove(c, w, ok).to, w, ChildAfter(m, MainMove(c, w, ok).event))
  {
  }

  lemma ClosingKeepsChild(c: Ctl, w: World, m: ChildTally, ok: bool)
    requires Shape(c, w) && ChildOk(c, w, m) && !Opening(c.main) && !Attending(c.main)
    requires c.main.CloseMaster? || c.main.Clearing? ==> w.pending.Some? && !IsSftp(w)
    ensures ChildOk(MainMove(c, w, ok).to, w, ChildAfter(m, MainMove(c, w, ok).event))
  {
    hide Shape, ChildOk, MainMove;
    if c.main.Draining? || c.main.ClearLock? || c.main.Clearing? || c.main.CloseMaster? {
      DrainKeepsChild(c, w, m, ok);
    } else {
      FinishKeepsChild(c, w, m, ok);
    }
  }

  lemma DrainKeepsChild(c: Ctl, w: World, m: ChildTally, ok: bool)
    requires Shape(c, w) && ChildOk(c, w, m) && !Opening(c.main) && !Attending(c.main)
    requires c.main.CloseMaster? || c.main.Clearing? ==> w.pending.Some? && !IsSftp(w)
    requires c.main.Draining? || c.main.ClearLock? || c.main.Clearing? || c.main.CloseMaster?
    ensures ChildOk(MainMove(c, w, ok).to, w, ChildAfter(m, MainMove(c, w, ok).event))
  {
  }

  lemma FinishKeepsChild(c: Ctl, w: World, m: ChildTally, ok: bool)
    requires Shape(c, w) && ChildOk(c, w, m) && !Opening(c.main) && !Attending(c.main)
    requires c.main.CloseMaster? || c.main.Clearing? ==> w.pending.Some? && !IsSftp(w)
    requires c.main.Finishing? || c.main.CloseChannel? || c.main.AwaitSide? || Leaving(c.main)
    ensures ChildOk(MainMove(c, w, ok).to, w, ChildAfter(m, MainMove(c, w, ok).event))
  {
  }

  lemma SelectKeepsChild(c: Ctl, w: World, m: ChildTally, b: Branch)
    requires Shape(c, w) && ChildOk(c, w, m)
    ensures ChildOk(SelectMove(c, w, b).to, w, ChildAfter(m, SelectMove(c, w, b).event))
  {
    hide ChildOk, Shape;
    if c.main.Running? && SelectMove(c, w, b).to != c { LeavingKeepsChild(c, w, m, b); }
  }

  lemma LeavingKeepsChild(c: Ctl, w: World, m: ChildTally, b: Branch)
    requires Shape(c, w) && ChildOk(c, w, m) && c.main.Running? && SelectMove(c, w, b).to != c
    ensures ChildOk(SelectMove(c, w, b).to, w, ChildAfter(m, SelectMove(c, w, b).event))
  {
  }

  lemma SideKeepsChild(c: Ctl, w: World, m: ChildTally)
    requires ChildOk(c, w, m)
    ensures ChildOk(SideMove(c, w).to, w, ChildAfter(m, SideMove(c, w).event))
  {
    hide LaunchAt;
  }

  lemma SideReceiveKeepsChild(c: Ctl, w: World, m: ChildTally, i: nat, r: Request)
    requires ChildOk(c, w, m) && (c.side.Rejecting? || c.side.Serving?)
    ensures ChildOk(SideReceiveMove(c, i, r).to, w, ChildAfter(m, SideReceiveMove(c, i, r).event))
  {
    hide LaunchAt, SideReceiveMove;
    SideReceiveAnswers(c, i, r);
  }

  lemma OutsideKeepsChild(s: State, a: Action, m: ChildTally)
    requires ChildOk(s.ctl, s.world, m) && (a.PeerCloses? || a.ContextDone? || a.ChildExits? || a.Tick?)
    ensures ChildOk(NextMove(s, a).to, NextWorld(s.ctl, s.world, a), ChildAfter(m, NextMove(s, a).event))
  {
  }

  /** A request before the commit point has nothing to do with a child. */
  lemma ReceiveIsNoChild(f: Fields, i: nat, r: Request, allocOk: bool, trace: seq<Event>)
    requires LaunchOf(r).None?
    ensures ChildOf(trace + OnOther(f, i, r, allocOk).events) == ChildOf(trace)
  {
    hide LaunchOf;
    OtherForms(f, i, r, allocOk);
    var es := OnOther(f, i, r, allocOk).events;
    OtherAreSilent(f, i, r, allocOk);
    SilentAppend(trace, es);
  }

  predicate Silent(e: Event) { e.Replied? || e.Allocated? || e.AllocFailed? || e.Resized? || e.NoTerminal? }

  lemma OtherAreSilent(f: Fields, i: nat, r: Request, allocOk: bool)
    requires LaunchOf(r).None?
    ensures forall k :: 0 <= k < |OnOther(f, i, r, allocOk).events| ==> Silent(OnOther(f, i, r, allocOk).events[k])
  {
    hide ParsePtyReq, ParseEnvReq, ParseWindowChange;
  }

  lemma {:induction false} SilentAppend(trace: seq<Event>, es: seq<Event>)
    requires forall k :: 0 <= k < |es| ==> Silent(es[k])
    ensures ChildOf(trace + es) == ChildOf(trace)
    decreases |es|
  {
    if es == [] {
      assert trace + es == trace;
    } else {
      assert (trace + es)[..|trace + es| - 1] == trace + es[..|es| - 1];
      SilentAppend(trace, es[..|es| - 1]);
    }
  }

  ghost predicate ChildInv(s: State) { ChildOk(s.ctl, s.world, ChildOf(s.trace)) }

  lemma ReceiveKeepsChild(s: State, r: Request, allocOk: bool)
    requires Shape(s.ctl, s.world) && ChildInv(s) && MainTakes(s)
    ensures ChildInv(ReceiveStep(s, r, allocOk))
  {
    hide OnOther, LaunchOf, ChildOf;
    if LaunchOf(r).None? { ReceiveIsNoChild(s.fields, |s.reqs|, r, allocOk, s.trace); }
  }

  lemma MainKeepsChild(s: State, ok: bool)
    requires Shape(s.ctl, s.world) && ChildInv(s)
    ensures ChildInv(Step(s, MainStep(ok)))
  {
    hide ChildOk, MainMove, ChildOf, Shape;
    var c, w, m := s.ctl, s.world, ChildOf(s.trace);
    ChildOfAppend(s.trace, MainMove(c, w, ok).event);
    if Opening(c.main) {
      OpeningKeepsChild(c, w, m, ok);
    } else if Attending(c.main) {
      ServingKeepsChild(c, w, m, ok);
    } else {
      ClosersHaveChild(c, w);
      ClosingKeepsChild(c, w, m, ok);
    }
  }

  lemma ClosersHaveChild(c: Ctl, w: World)
    requires Shape(c, w)
    ensures c.main.CloseMaster? || c.main.Clearing? ==> w.pending.Some? && !IsSftp(w)
  {
  }

  lemma StepKeepsChild(s: State, a: Action)
    requires Shape(s.ctl, s.world) && ChildInv(s)
    ensures ChildInv(Step(s, a))
  {
    hide ChildOk, MainMove, SideMove, SideReceiveMove, SelectMove, ChildOf, Shape;
    match a {
      case Receive(r, allocOk) => if MainTakes(s) { ReceiveKeepsChild(s, r, allocOk); }
      case MainStep(ok) => MainKeepsChild(s, ok);
      case SideStep =>
        ChildOfAppend(s.trace, NextMove(s, a).event);
        SideKeepsChild(s.ctl, s.world, ChildOf(s.trace));
      case SideReceive(r) =>
        ChildOfAppend(s.trace, NextMove(s, a).event);
        if SideTakes(s) { SideReceiveKeepsChild(s.ctl, s.world, ChildOf(s.trace), |s.reqs|, r); }
      case Select(b) =>
        ChildOfAppend(s.trace, NextMove(s, a).event);
        SelectKeepsChild(s.ctl, s.world, ChildOf(s.trace), b);
      case _ =>
        ChildOfAppend(s.trace, NextMove(s, a).event);
        OutsideKeepsChild(s, a, ChildOf(s.trace));
    }
  }

  lemma {:induction false} EveryRunChild(acts: seq<Action>)
    ensures ChildInv(Run(acts))
    decreases |acts|
  {
    hide ChildInv, Step, PtyOk, ExitOk, ExitSettled, LaunchOk;
    if acts == [] {
      NothingStarted();
    } else {
      EveryRunChild(acts[..|acts| - 1]);
      EveryRunInControl(acts[..|acts| - 1]);
      StepKeepsChild(Run(acts[..|acts| - 1]), acts[|acts| - 1]);
    }
  }

  lemma NothingStarted()
    ensures ChildInv(INIT)
  {
  }

  // ----- what the monitor means -----

  /** A shell or a command was started. */
  ghost predicate StartedChild(trace: seq<Event>) {
    exists j :: 0 <= j < |trace| && trace[j].Launched? && !trace[j].launch.LaunchSftp?
  }

  ghost predicate SelectedIn(trace: seq<Event>) { exists j :: 0 <= j < |trace| && trace[j].Selected? }

  ghost predicate HupIn(trace: seq<Event>) { exists j :: 0 <= j < |trace| && trace[j].HupSent? }

  ghost predicate GraceIn(trace: seq<Event>) { exists j :: 0 <= j < |trace| && trace[j].GraceStarted? }

  /** An event is in order after those before it. */
  ghost predicate InOrder(before: seq<Event>, e: Event) {
    match e
    case ChildExited => StartedChild(before) && ChildExited !in before
    case Selected(why) => StartedChild(before) && !SelectedIn(before) && (why.FromExit? ==> ChildExited in before)
    case HupSent(_) => !HupIn(before) && (Selected(FromContext) in before || Selected(FromClosed) in before)
    case GraceStarted(_) => HupIn(before) && !GraceIn(before)
    case Polled(at, _) => exists g :: GraceStarted(g) in before && at < g + FIVE_SECONDS
    case KillSent(at) => exists g :: GraceStarted(g) in before && at >= g + FIVE_SECONDS
    case ExitSent => StartedChild(before) ==> ChildExited in before
    case MasterClosed => StartedChild(before) ==> ChildExited in before
    case Withdrawn => ChildExited in before
    case _ => true
  }

  ghost predicate AllInOrder(trace: seq<Event>) {
    forall j :: 0 <= j < |trace| ==> InOrder(trace[..j], trace[j])
  }

  ghost predicate Reads(trace: seq<Event>, m: ChildTally) {
    && (m.started <==> StartedChild(trace)) && (m.exited <==> ChildExited in trace)
    && (m.why.Some? <==> SelectedIn(trace)) && (m.why.Some? ==> Selected(m.why.value) in trace)
    && (m.hup <==> HupIn(trace)) && (m.grace.Some? <==> GraceIn(trace))
    && (m.grace.Some? ==> GraceStarted(m.grace.value) in trace) && m.slaves == Count(trace, IsSlaveClose)
  }

  lemma StartedOne(before: seq<Event>, e: Event)
    ensures StartedChild(before + [e]) <==> StartedChild(before) || (e.Launched? && !e.launch.LaunchSftp?)
  {
    var trace := before + [e];
    assert trace[|before|] == e && forall j :: 0 <= j < |before| ==> trace[j] == before[j];
  }

  lemma SelectedOne(before: seq<Event>, e: Event)
    ensures SelectedIn(before + [e]) <==> SelectedIn(before) || e.Selected?
  {
    var trace := before + [e];
    assert trace[|before|] == e && forall j :: 0 <= j < |before| ==> trace[j] == before[j];
  }

  lemma HupOne(before: seq<Event>, e: Event)
    ensures HupIn(before + [e]) <==> HupIn(before) || e.HupSent?
  {
    var trace := before + [e];
    assert trace[|before|] == e && forall j :: 0 <= j < |before| ==> trace[j] == before[j];
  }

  lemma GraceOne(before: seq<Event>, e: Event)
    ensures GraceIn(before + [e]) <==> GraceIn(before) || e.GraceStarted?
  {
    var trace := before + [e];
    assert trace[|before|] == e && forall j :: 0 <= j < |before| ==> trace[j] == before[j];
  }

  lemma ReadsOne(before: seq<Event>, e: Event, m: ChildTally)
    requires Reads(before, m)
    ensures Reads(before + [e], ObserveChild(m, e))
  {
    hide StartedChild, SelectedIn, HupIn, GraceIn, Count;
    assert e in before + [e] && forall x :: x in before ==> x in before + [e];
    assert forall x :: x in before + [e] ==> x in before || x == e;
    StartedOne(before, e);
    SelectedOne(before, e);
    HupOne(before, e);
    GraceOne(before, e);
    SlaveOne(before, e);
  }

  lemma SlaveOne(before: seq<Event>, e: Event)
    ensures Count(before + [e], IsSlaveClose) == Count(before, IsSlaveClose) + (if e.SlaveClosed? then 1 else 0)
  {
    assert (before + [e])[..|before|] == before;
  }

  lemma {:induction false} ChildMonitorReads(trace: seq<Event>)
    ensures Reads(trace, ChildOf(trace))
    decreases |trace|
  {
    hide Reads, ObserveChild;
    if trace == [] {
      ReadsNothing();
    } else {
      var n := |trace| - 1;
      ChildMonitorReads(trace[..n]);
      ReadsOne(trace[..n], trace[n], ChildOf(trace[..n]));
      assert trace == trace[..n] + [trace[n]];
    }
  }

  lemma ReadsNothing()
    ensures Reads([], UNBORN)
  {
  }

  lemma OneInOrder(before: seq<Event>, e: Event, m: ChildTally)
    requires Reads(before, m) && !ObserveChild(m, e).bad
    ensures !m.bad && InOrder(before, e)
  {
  }

  lemma {:induction false} ChildMonitorMeans(trace: seq<Event>)
    requires !ChildOf(trace).bad
    ensures AllInOrder(trace)
    decreases |trace|
  {
    hide InOrder, ObserveChild, Reads;
    if trace != [] {
      var before := trace[..|trace| - 1];
      ChildMonitorReads(before);
      OneInOrder(before, trace[|before|], ChildOf(before));
      ChildMonitorMeans(before);
      forall j | 0 <= j < |trace| ensures InOrder(trace[..j], trace[j]) {
        if j < |before| {
          assert before[..j] == trace[..j] && before[j] == trace[j];
        } else {
          assert trace[..j] == before;
        }
      }
    }
  }

  // ----- the theorems -----

  /** In every run: nobody is told that a child exited, its terminal is not withdrawn and not closed,
      before it has exited; `Handle` stops waiting for it once, because it exited, or because the
      context ended, or because the stream closed; in the last two cases, and only then, it is sent a
      HUP, after which a grace period of five seconds begins; its group is polled only within that
      period and killed only after it. A child that had not exited when `Handle` stopped waiting is
      thus signalled. By the time `Handle` returns, a child that was started has exited. */
  lemma ChildProtocol(acts: seq<Action>)
    ensures var s := Run(acts); var t := s.trace;
            && AllInOrder(t)
            && (forall j :: 0 <= j < |t| && t[j].Selected? && ChildExited !in t[..j] ==>
                  HupIn(t) || s.ctl.main.SendHup?)
            && (Selected(FromContext) in t ==> s.world.ctxDone) && (Selected(FromClosed) in t ==> s.world.reqsClosed)
            && (Leaving(s.ctl.main) && StartedChild(t) ==> SelectedIn(t) && ChildExited in t)
            && (HupIn(t) || s.ctl.main.SendHup? <==> Selected(FromContext) in t || Selected(FromClosed) in t)
  {
    hide Run, InOrder, Shape;
    EveryRunChild(acts);
    var s := Run(acts);
    ChildMonitorMeans(s.trace);
    ChildMonitorReads(s.trace);
    SideDoneMeansClosed(acts);
    SelectedOnce(s.trace);
    forall j | 0 <= j < |s.trace| && s.trace[j].Selected? && ChildExited !in s.trace[..j]
      ensures HupIn(s.trace) || s.ctl.main.SendHup?
    {
      SelectedAlive(s.trace, j);
      assert s.trace[j] in s.trace;
    }
  }

  lemma SelectedAlive(trace: seq<Event>, j: nat)
    requires AllInOrder(trace) && j < |trace| && trace[j].Selected? && ChildExited !in trace[..j]
    ensures !trace[j].why.FromExit?
  {
    assert InOrder(trace[..j], trace[j]);
  }

  /** Only one reason is ever recorded. */
  lemma SelectedOnce(trace: seq<Event>)
    requires AllInOrder(trace)
    ensures forall i, j :: 0 <= i < |trace| && 0 <= j < |trace| && trace[i].Selected? && trace[j].Selected? ==> i == j
  {
    hide AllInOrder;
    forall i, j | 0 <= i < j < |trace| && trace[j].Selected? ensures !trace[i].Selected? { NoneEarlier(trace, i, j); }
  }

  lemma NoneEarlier(trace: seq<Event>, i: nat, j: nat)
    requires AllInOrder(trace) && i < j < |trace| && trace[j].Selected?
    ensures !trace[i].Selected?
  {
    assert InOrder(trace[..j], trace[j]);
    assert trace[..j][i] == trace[i];
  }

  /** Once polling is over, KILL has been sent if and only if the group answered every poll. */
  lemma KilledIffStillThere(acts: seq<Action>)
    ensures var s := Run(acts); var t := s.trace;
            HupIn(t) && !s.ctl.main.SetDeadline? && !s.ctl.main.Polling? ==>
              (Count(t, IsKill) == 1 <==> forall j :: 0 <= j < |t| && t[j].Polled? ==> t[j].alive)
  {
    hide Run, Shape, PtyOk, LaunchOk, ExitFits;
    EveryRunInControl(acts);
    EveryRunChild(acts);
    var t := Run(acts).trace;
    ChildMonitorReads(t);
    TallyCounts(t);
    ExitMonitorReads(t);
    UnansweredReads(t);
  }

  lemma {:induction false} UnansweredReads(trace: seq<Event>)
    ensures (forall j :: 0 <= j < |trace| && trace[j].Polled? ==> trace[j].alive) ==> TallyOf(trace).exit.answered
    decreases |trace|
  {
    if trace != [] {
      var before := trace[..|trace| - 1];
      UnansweredReads(before);
      assert forall j :: 0 <= j < |before| ==> before[j] == trace[j];
      assert trace[|before|] == trace[|trace| - 1];
    }
  }

  /** The PTY slave is closed at most once; when `Handle` returns it has been closed exactly if a PTY
      was granted and the channel was never committed, or was committed to a child that started: it
      is left open when the child failed to start and when sftp was committed. */
  lemma SlaveLifecycle(acts: seq<Action>)
    ensures var s := Run(acts);
            && Count(s.trace, IsSlaveClose) <= 1
            && (s.ctl.main.Returned? ==>
                  (Count(s.trace, IsSlaveClose) == 1 <==>
                   s.world.hasPty && (s.world.pending.None? || StartedChild(s.trace))))
  {
    hide Run, Shape;
    EveryRunChild(acts);
    ChildMonitorReads(Run(acts).trace);
  }
}
