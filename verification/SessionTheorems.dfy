/** What every run of a session channel keeps: one PTY, one launch, one exit message, one reply. */
module SessionTheorems {
  import opened Common
  import opened Session
  import opened SessionMachine

  ghost predicate ControlOk(s: State) {
    var m := TallyOf(s.trace);
    && Shape(s.ctl, s.world) && PtyOk(s.ctl, s.world, m.pty) && ExitOk(s.ctl, s.world, m.exit)
    && ExitSettled(s.ctl, s.world, m.exit)
    && LaunchOk(s.ctl, s.world, m.launches)
    && (s.ctl.main.Receiving? ==> s.fields.master == s.ctl.master && s.fields.pty.Some? == s.world.hasPty)
  }

  /** A request before the commit point can only add the one PTY. */
  lemma ReceiveTally(f: Fields, i: nat, r: Request, allocOk: bool, m: Tally)
    requires LaunchOf(r).None? && f.master == f.pty.Some?
    requires m.pty == PtyTally(if f.pty.Some? then 1 else 0, 0, false)
    ensures var o := OnOther(f, i, r, allocOk);
            && ObserveAll(m, o.events) == m.(pty := PtyTally(if o.fields.pty.Some? then 1 else 0, 0, false))
            && o.fields.master == o.fields.pty.Some?
  {
    OtherForms(f, i, r, allocOk);
    var es := OnOther(f, i, r, allocOk).events;
    if |es| == 1 {
      assert es == [es[0]];
      ObserveOne(m, es[0]);
    } else if |es| == 2 {
      ObserveTwo(m, es[0], es[1]);
    } else if |es| == 3 {
      ObserveThree(m, Allocated, es[1], es[2]);
    }
  }

  /** The events of a request before the commit point: nothing, a reply, a resize of the open
      PTY, or the granting of the one PTY. */
  lemma OtherForms(f: Fields, i: nat, r: Request, allocOk: bool)
    requires LaunchOf(r).None?
    ensures var o := OnOther(f, i, r, allocOk); var es := o.events;
            || (o.fields.pty == f.pty && o.fields.master == f.master && es == [])
            || (o.fields.pty == f.pty && o.fields.master == f.master && |es| == 1
                  && (es[0].Replied? || es[0].NoTerminal? || (es[0].Resized? && f.master)))
            || (o.fields.pty == f.pty && o.fields.master == f.master && |es| == 2 && es == [es[0], es[1]]
                && (es[0].AllocFailed? || es[0].NoTerminal? || (es[0].Resized? && f.master)) && es[1].Replied?)
            || (f.pty.None? && o.fields.pty.Some? && o.fields.master && |es| == 3 && es == [Allocated, es[1], es[2]]
                  && es[1].Resized? && es[2].Replied?)
  {
  }

  lemma ObserveThree(m: Tally, a: Event, b: Event, c: Event)
    ensures ObserveAll(m, [a, b, c]) == Observe(Observe(Observe(m, a), b), c)
  {
    assert [a, b, c][..2] == [a, b];
    ObserveTwo(m, a, b);
  }

  lemma ObserveTwo(m: Tally, a: Event, b: Event)
    ensures ObserveAll(m, [a, b]) == Observe(Observe(m, a), b)
  {
    assert [a, b][..1] == [a];
    ObserveOne(m, a);
  }

  lemma ReceiveKeepsControl(s: State, r: Request, allocOk: bool)
    requires ControlOk(s) && MainTakes(s)
    ensures ControlOk(ReceiveStep(s, r, allocOk))
  {
    if LaunchOf(r).None? {
      ReceiveTally(s.fields, |s.reqs|, r, allocOk, TallyOf(s.trace));
      ObserveAppend(NOTHING, s.trace, OnOther(s.fields, |s.reqs|, r, allocOk).events);
    }
  }

  lemma MainKeepsControl(s: State, ok: bool)
    requires ControlOk(s)
    ensures ControlOk(Step(s, MainStep(ok)))
  {
    hide Shape, PtyOk, ExitOk, ExitSettled, LaunchOk, MainMove;
    var c, w, m := s.ctl, s.world, TallyOf(s.trace);
    StepTally(s, MainStep(ok));
    StepKeepsShape(s, MainStep(ok));
    if Opening(c.main) {
      OpeningKeepsPty(c, w, m.pty, ok);
      OpeningKeepsExit(c, w, m.exit, ok);
      EarlyKeepsSettled(c, w, m.exit, ok);
      OpeningKeepsLaunch(c, w, m.launches, ok);
    } else {
      LaterKeepsLaunch(c, w, m.launches, ok);
      if Attending(c.main) {
        ServingKeepsPty(c, w, m.pty, ok);
        ServingKeepsExit(c, w, m.exit, ok);
        EarlyKeepsSettled(c, w, m.exit, ok);
      } else {
        ClosingKeepsPty(c, w, m.pty, ok);
        ClosingKeepsExit(c, w, m.exit, ok);
        ClosingKeepsSettled(c, w, m.exit, ok);
      }
    }
    ReceivingIsLeft(c, w, ok);
  }

  lemma ReceivingIsLeft(c: Ctl, w: World, ok: bool)
    ensures MainMove(c, w, ok).to.main.Receiving? ==> c.main.Receiving? && MainMove(c, w, ok).to == c
  {
  }

  lemma SideKeepsControl(s: State)
    requires ControlOk(s)
    ensures ControlOk(Step(s, SideStep))
  {
    hide Shape, PtyOk, ExitOk, ExitSettled;
    var m := TallyOf(s.trace);
    StepTally(s, SideStep);
    StepKeepsShape(s, SideStep);
    SideKeepsPty(s.ctl, s.world, m.pty);
    SideKeepsExit(s.ctl, s.world, m.exit);
    SideIsModest(s.ctl, s.world, m.launches);
  }

  lemma SideReceiveKeepsControl(s: State, r: Request)
    requires ControlOk(s)
    ensures ControlOk(Step(s, SideReceive(r)))
  {
    hide Shape, PtyOk, ExitOk, ExitSettled;
    var m := TallyOf(s.trace);
    StepTally(s, SideReceive(r));
    StepKeepsShape(s, SideReceive(r));
    if SideTakes(s) {
      SideReceiveKeepsPty(s.ctl, s.world, m.pty, |s.reqs|, r);
      SideReceiveKeepsExit(s.ctl, s.world, m.exit, |s.reqs|, r);
      SideReceiveAnswers(s.ctl, |s.reqs|, r);
    }
  }

  /** Choosing a branch of the select changes nothing but where `Handle` goes next. */
  lemma SelectKeeps(c: Ctl, w: World, b: Branch, m: Tally)
    requires Shape(c, w) && PtyOk(c, w, m.pty) && ExitOk(c, w, m.exit) && ExitSettled(c, w, m.exit)
          && LaunchOk(c, w, m.launches)
    ensures var c' := SelectMove(c, w, b).to;
            && PtyOk(c', w, m.pty) && ExitOk(c', w, m.exit) && ExitSettled(c', w, m.exit) && LaunchOk(c', w, m.launches)
            && (c'.main.Receiving? ==> c' == c)
  {
  }

  /** Nor does what happens outside. */
  lemma OutsideTallies(c: Ctl, w: World, a: Action, m: Tally)
    requires PtyOk(c, w, m.pty) && ExitOk(c, w, m.exit) && ExitSettled(c, w, m.exit) && LaunchOk(c, w, m.launches)
    ensures var w' := NextWorld(c, w, a);
            PtyOk(c, w', m.pty) && ExitOk(c, w', m.exit) && ExitSettled(c, w', m.exit) && LaunchOk(c, w', m.launches)
  {
    hide PtyAt, ExitAt, LaunchAt;
  }

  lemma OutsideKeepsControl(s: State, a: Action)
    requires ControlOk(s) && !a.Receive? && !a.MainStep? && !a.SideStep? && !a.SideReceive?
    ensures ControlOk(Step(s, a))
  {
    hide Shape, TallyOf;
    StepTally(s, a);
    StepKeepsShape(s, a);
    if a.Select? { SelectKeeps(s.ctl, s.world, a.branch, TallyOf(s.trace)); }
    OutsideTallies(s.ctl, s.world, a, TallyOf(s.trace));
  }

  lemma {:induction false} EveryRunInControl(acts: seq<Action>)
    ensures ControlOk(Run(acts))
    decreases |acts|
  {
    if acts != [] {
      var s, a := Run(acts[..|acts| - 1]), acts[|acts| - 1];
      EveryRunInControl(acts[..|acts| - 1]);
      match a {
        case Receive(r, allocOk) => if MainTakes(s) { ReceiveKeepsControl(s, r, allocOk); }
        case MainStep(ok) => MainKeepsControl(s, ok);
        case SideStep => SideKeepsControl(s);
        case SideReceive(r) => SideReceiveKeepsControl(s, r);
        case _ => OutsideKeepsControl(s, a);
      }
    }
  }

  // ----- what the monitors mean -----

  datatype Tag = IsAlloc | IsMasterClose | IsSlaveClose | IsExit | IsHup | IsKill | IsClose

  predicate Is(e: Event, tag: Tag) {
    match tag
    case IsAlloc => e.Allocated?
    case IsMasterClose => e.MasterClosed?
    case IsSlaveClose => e.SlaveClosed?
    case IsExit => e.ExitSent?
    case IsHup => e.HupSent?
    case IsKill => e.KillSent?
    case IsClose => e.ChannelClosed?
  }

  function Count(trace: seq<Event>, tag: Tag): nat
    decreases |trace|
  {
    if trace == [] then 0 else Count(trace[..|trace| - 1], tag) + One(trace[|trace| - 1], tag)
  }

  function One(e: Event, tag: Tag): nat { if Is(e, tag) then 1 else 0 }

  lemma CountsOne(m: Tally, e: Event)
    ensures var n := Observe(m, e);
            && n.pty.allocs == m.pty.allocs + One(e, IsAlloc) && n.pty.closes == m.pty.closes + One(e, IsMasterClose)
            && n.exit.exits == m.exit.exits + One(e, IsExit) && n.exit.hups == m.exit.hups + One(e, IsHup)
            && n.exit.kills == m.exit.kills + One(e, IsKill) && n.exit.closes == m.exit.closes + One(e, IsClose)
  {
  }

  lemma {:induction false} TallyCounts(trace: seq<Event>)
    ensures var m := TallyOf(trace);
            && m.pty.allocs == Count(trace, IsAlloc) && m.pty.closes == Count(trace, IsMasterClose)
            && m.exit.exits == Count(trace, IsExit) && m.exit.hups == Count(trace, IsHup)
            && m.exit.kills == Count(trace, IsKill) && m.exit.closes == Count(trace, IsClose)
    decreases |trace|
  {
    hide Observe, Is;
    if trace != [] {
      TallyCounts(trace[..|trace| - 1]);
      CountsOne(TallyOf(trace[..|trace| - 1]), trace[|trace| - 1]);
    }
  }

  /** Setsize is only called between the opening and the closing of the PTY. */
  ghost predicate ResizesWhileOpen(trace: seq<Event>) {
    forall j :: 0 <= j < |trace| && trace[j].Resized? ==>
      Count(trace[..j], IsAlloc) > 0 && Count(trace[..j], IsMasterClose) == 0
  }

  lemma {:induction false} PtyMonitorMeans(trace: seq<Event>)
    requires !TallyOf(trace).pty.bad
    ensures ResizesWhileOpen(trace)
    decreases |trace|
  {
    if trace != [] {
      var before := trace[..|trace| - 1];
      PtyMonitorMeans(before);
      TallyCounts(before);
      forall j | 0 <= j < |trace| && trace[j].Resized?
        ensures Count(trace[..j], IsAlloc) > 0 && Count(trace[..j], IsMasterClose) == 0
      {
        if j < |before| {
          assert before[..j] == trace[..j] && before[j].Resized?;
        } else {
          assert trace[..j] == before;
        }
      }
    }
  }

  /** An exit message follows no signal and no close, and no signal follows an exit message. */
  ghost predicate ExitsInOrder(trace: seq<Event>) {
    && (forall j :: 0 <= j < |trace| && trace[j].ExitSent? ==>
          Count(trace[..j], IsHup) == 0 && Count(trace[..j], IsClose) == 0)
    && (forall j :: 0 <= j < |trace| && trace[j].HupSent? ==> Count(trace[..j], IsExit) == 0)
  }

  /** What the monitor checks at the last event. */
  lemma LastExitInOrder(before: seq<Event>, e: Event)
    requires !TallyOf(before + [e]).exit.badExit
    ensures !TallyOf(before).exit.badExit
    ensures e.ExitSent? ==> Count(before, IsHup) == 0 && Count(before, IsClose) == 0
    ensures e.HupSent? ==> Count(before, IsExit) == 0
  {
    hide Count;
    assert (before + [e])[..|before|] == before;
    TallyCounts(before);
  }

  lemma ExitsExtend(before: seq<Event>, e: Event)
    requires ExitsInOrder(before)
    requires e.ExitSent? ==> Count(before, IsHup) == 0 && Count(before, IsClose) == 0
    requires e.HupSent? ==> Count(before, IsExit) == 0
    ensures ExitsInOrder(before + [e])
  {
    hide Count;
    var trace := before + [e];
    assert forall j :: 0 <= j < |before| ==> before[..j] == trace[..j] && before[j] == trace[j];
    assert trace[..|before|] == before;
  }

  lemma NoExits()
    ensures ExitsInOrder([])
  {
  }

  lemma {:induction false} ExitMonitorMeans(trace: seq<Event>)
    requires !TallyOf(trace).exit.badExit
    ensures ExitsInOrder(trace)
    decreases |trace|
  {
    hide ExitsInOrder, Count, TallyOf;
    assert trace == [] ==> ExitsInOrder(trace) by { NoExits(); }
    if trace != [] {
      var before := trace[..|trace| - 1];
      assert trace == before + [trace[|before|]];
      LastExitInOrder(before, trace[|before|]);
      ExitMonitorMeans(before);
      ExitsExtend(before, trace[|before|]);
    }
  }

  /** The last HUP, if any, and whether every poll was answered, read off the trace. */
  lemma {:induction false} ExitMonitorReads(trace: seq<Event>)
    ensures var m := TallyOf(trace).exit;
            && (m.hups > 0 ==> HupSent(m.hupAt) in trace)
            && (m.answered ==> forall j :: 0 <= j < |trace| && trace[j].Polled? ==> trace[j].alive)
    decreases |trace|
  {
    if trace != [] {
      var before := trace[..|trace| - 1];
      ExitMonitorReads(before);
      assert trace == before + [trace[|trace| - 1]];
    }
  }

  /** A KILL at `at` comes a full grace period after a HUP, every poll in between answered. */
  ghost predicate KillJustified(before: seq<Event>, at: int) {
    && (exists h :: HupSent(h) in before && at >= h + 5_000_000_000)
    && (forall j :: 0 <= j < |before| && before[j].Polled? ==> before[j].alive)
  }

  ghost predicate KillsJustified(trace: seq<Event>) {
    forall j :: 0 <= j < |trace| && trace[j].KillSent? ==> KillJustified(trace[..j], trace[j].at)
  }

  lemma {:induction false} KillMonitorMeans(trace: seq<Event>)
    requires !TallyOf(trace).exit.badKill
    ensures KillsJustified(trace)
    decreases |trace|
  {
    if trace != [] {
      var before := trace[..|trace| - 1];
      KillMonitorMeans(before);
      ExitMonitorReads(before);
      forall j | 0 <= j < |trace| && trace[j].KillSent? ensures KillJustified(trace[..j], trace[j].at) {
        if j < |before| {
          assert before[..j] == trace[..j] && before[j].KillSent?;
        } else {
          assert trace[..j] == before;
        }
      }
    }
  }

  // ----- the theorems -----

  /** In every interleaving a channel opens at most one PTY, closes its master at most once,
      resizes it only while it is open, and has closed it by the time `Handle` returns unless
      sftp was started on the channel. */
  lemma PtyLifecycle(acts: seq<Action>)
    ensures var s := Run(acts);
            && ResizesWhileOpen(s.trace)
            && Count(s.trace, IsAlloc) <= 1 && Count(s.trace, IsMasterClose) <= Count(s.trace, IsAlloc)
            && (s.ctl.main.Returned? && !IsSftp(s.world) ==> Count(s.trace, IsMasterClose) == Count(s.trace, IsAlloc))
            && (IsSftp(s.world) ==> Count(s.trace, IsMasterClose) == 0)
  {
    hide ExitOk, ExitSettled, LaunchOk, TallyOf, Run, ResizesWhileOpen, Count;
    EveryRunInControl(acts);
    TallyCounts(Run(acts).trace);
    PtyMonitorMeans(Run(acts).trace);
  }

  /** In every run at most one exit message is sent, never once the child's group has been
      signalled and never after the channel was closed; at most one HUP and one KILL are sent,
      and KILL only after a full grace period in which the group answered every poll. By the time
      `Handle` returns the channel is closed, and a channel committed to a child has either had
      its exit message or seen its group signalled; any other channel has seen neither. */
  lemma ExitProtocol(acts: seq<Action>)
    ensures var s := Run(acts); var t := s.trace;
            && Count(t, IsExit) <= 1 && Count(t, IsHup) <= 1 && Count(t, IsKill) <= 1
            && (Count(t, IsExit) > 0 ==> Count(t, IsHup) == 0)
            && ExitsInOrder(t) && KillsJustified(t)
            && (s.ctl.main.Returned? ==>
                  && Count(t, IsClose) > 0
                  && Count(t, IsExit) + Count(t, IsHup) == (if s.world.pending.Some? && !IsSftp(s.world) then 1 else 0))
  {
    hide Shape, PtyOk, LaunchOk, TallyOf, Run, ExitsInOrder, KillsJustified;
    EveryRunInControl(acts);
    TallyCounts(Run(acts).trace);
    ExitMonitorMeans(Run(acts).trace);
    KillMonitorMeans(Run(acts).trace);
  }

  // ----- commit and replies -----

  ghost predicate CommitOk(s: State) {
    match s.world.pending
    case None => forall j :: 0 <= j < |s.reqs| ==> LaunchOf(s.reqs[j]).None?
    case Some(p) =>
      && p.i < |s.reqs| && LaunchOf(s.reqs[p.i]) == Some(p.launch)
      && forall j :: 0 <= j < p.i ==> LaunchOf(s.reqs[j]).None?
  }

  lemma StepKeepsCommit(s: State, a: Action)
    requires CommitOk(s) && Shape(s.ctl, s.world)
    ensures CommitOk(Step(s, a))
  {
    if a.SideReceive? && SideTakes(s) { assert s.world.pending.Some?; }
  }

  /** The request whose answer is still to come. */
  predicate Outstanding(s: State, i: nat) {
    || (s.world.pending.Some? && s.world.pending.value.i == i
        && AwaitsAnswer(s.ctl.main))
    || (InWindowChange(s.ctl.side) && s.ctl.side.i == i)
  }

  /** A window-change in progress remembers whether its sender wants an answer. */
  predicate WcOk(s: State) {
    InWindowChange(s.ctl.side) ==>
      s.ctl.side.i < |s.reqs| && s.ctl.side.want == s.reqs[s.ctl.side.i].wantReply
  }

  ghost predicate ReplyOk(s: State, i: nat) {
    var n := Replies(s.trace, i);
    if i >= |s.reqs| then n == 0
    else n <= 1 && (Outstanding(s, i) ==> n == 0) && (!Outstanding(s, i) && Mandatory(s.reqs[i]) ==> n == 1)
  }

  lemma RepliesStep(trace: seq<Event>, e: Option<Event>, i: nat)
    ensures Replies(trace + AsSeq(e), i) == Replies(trace, i)
          + (if e.Some? && e.value.Replied? && e.value.i == i then 1 else 0)
  {
    RepliesAppend(trace, AsSeq(e), i);
    if e.Some? { assert [e.value][..0] == []; }
  }

  lemma MainKeepsReply(s: State, ok: bool, i: nat)
    requires Shape(s.ctl, s.world) && CommitOk(s) && ReplyOk(s, i)
    ensures ReplyOk(Step(s, MainStep(ok)), i)
  {
    hide Shape, MainMove, LaunchOf, Mandatory, Replies;
    var mv := MainMove(s.ctl, s.world, ok);
    RepliesStep(s.trace, mv.event, i);
    MainAnswersPending(s.ctl, s.world, ok);
  }

  predicate AwaitsAnswer(pc: MainPc) {
    pc.Committed? || pc.AfterStart? || pc.ReplyStarted? || pc.FailClose? || pc.FailReply?
  }

  /** `Handle` answers the committing request exactly when it stops being outstanding. */
  lemma MainAnswersPending(c: Ctl, w: World, ok: bool)
    requires Shape(c, w)
    ensures var mv := MainMove(c, w, ok);
            && (mv.event.Some? && mv.event.value.Replied? <==> AwaitsAnswer(c.main) && !AwaitsAnswer(mv.to.main))
            && (mv.event.Some? && mv.event.value.Replied? ==> w.pending.Some? && mv.event.value.i == w.pending.value.i)
            && (AwaitsAnswer(mv.to.main) ==> AwaitsAnswer(c.main))
            && (AwaitsAnswer(c.main) ==> c.side.Idle?)
            && (mv.to.side == c.side || (c.side.Idle? && (mv.to.side.Serving? || mv.to.side.Rejecting?)))
  {
    hide Shape, MainMove;
    if Opening(c.main) { OpeningAnswers(c, w, ok); } else { LaterAnswersNothing(c, w, ok); }
  }

  lemma OpeningAnswers(c: Ctl, w: World, ok: bool)
    requires Shape(c, w) && Opening(c.main)
    ensures var mv := MainMove(c, w, ok);
            && (mv.event.Some? && mv.event.value.Replied? <==> AwaitsAnswer(c.main) && !AwaitsAnswer(mv.to.main))
            && (mv.event.Some? && mv.event.value.Replied? ==> w.pending.Some? && mv.event.value.i == w.pending.value.i)
            && (AwaitsAnswer(mv.to.main) ==> AwaitsAnswer(c.main))
            && (AwaitsAnswer(c.main) ==> c.side.Idle?)
            && (mv.to.side == c.side || (c.side.Idle? && mv.to.side.Serving?))
  {
  }

  lemma LaterAnswersNothing(c: Ctl, w: World, ok: bool)
    requires Shape(c, w) && !Opening(c.main)
    ensures var mv := MainMove(c, w, ok);
            && !(mv.event.Some? && mv.event.value.Replied?) && !AwaitsAnswer(c.main) && !AwaitsAnswer(mv.to.main)
            && (mv.to.side == c.side || (c.side.Idle? && mv.to.side.Rejecting?))
  {
  }

  lemma AwaitingMeansIdle(c: Ctl, w: World)
    requires Shape(c, w) && AwaitsAnswer(c.main)
    ensures c.side.Idle?
  {
  }

  /** A step of a window-change, seen from request `i`. */
  lemma WindowChangeReply(s: State, s': State, i: nat)
    requires WcOk(s) && ReplyOk(s, i) && InWindowChange(s.ctl.side) && !AwaitsAnswer(s.ctl.main)
    requires s'.reqs == s.reqs && s'.ctl.main == s.ctl.main
    requires if s.ctl.side.WcReply?
             then s'.ctl.side.Serving? &&
                  Replies(s'.trace, i) == Replies(s.trace, i) + (if s.ctl.side.want && s.ctl.side.i == i then 1 else 0)
             else InWindowChange(s'.ctl.side) && s'.ctl.side.i == s.ctl.side.i && s'.ctl.side.want == s.ctl.side.want &&
                  Replies(s'.trace, i) == Replies(s.trace, i)
    ensures ReplyOk(s', i) && WcOk(s')
  {
  }

  lemma SideKeepsReply(s: State, i: nat)
    requires Shape(s.ctl, s.world) && WcOk(s) && ReplyOk(s, i)
    ensures ReplyOk(Step(s, SideStep), i) && WcOk(Step(s, SideStep))
  {
    var mv := SideMove(s.ctl, s.world);
    RepliesStep(s.trace, mv.event, i);
    SideAnswers(s.ctl, s.world);
    SideIsModest(s.ctl, s.world, []);
    if InWindowChange(s.ctl.side) {
      if AwaitsAnswer(s.ctl.main) { AwaitingMeansIdle(s.ctl, s.world); }
      WindowChangeReply(s, Step(s, SideStep), i);
    }
  }

  lemma TakersAreBetween(c: Ctl, w: World)
    requires Shape(c, w) && (c.side.Rejecting? || c.side.Serving?)
    ensures !AwaitsAnswer(c.main) && w.pending.Some? && !InWindowChange(c.side)
  {
  }

  lemma SideReceiveKeepsReply(s: State, r: Request, i: nat)
    requires Shape(s.ctl, s.world) && CommitOk(s) && WcOk(s) && ReplyOk(s, i)
    ensures ReplyOk(Step(s, SideReceive(r)), i) && WcOk(Step(s, SideReceive(r)))
  {
    hide SideReceiveMove, LaunchOf, Replies;
    RepliesStep(s.trace, NextMove(s, SideReceive(r)).event, i);
    if SideTakes(s) {
      SideReceiveAnswers(s.ctl, |s.reqs|, r);
      TakersAreBetween(s.ctl, s.world);
    }
  }

  lemma ReceiveKeepsReply(s: State, r: Request, allocOk: bool, i: nat)
    requires Shape(s.ctl, s.world) && MainTakes(s) && ReplyOk(s, i)
    ensures ReplyOk(ReceiveStep(s, r, allocOk), i) && WcOk(ReceiveStep(s, r, allocOk))
  {
    if LaunchOf(r).None? {
      RepliesAppend(s.trace, OnOther(s.fields, |s.reqs|, r, allocOk).events, i);
      OtherRepliesOnce(s.fields, |s.reqs|, r, allocOk, i);
    }
  }

  lemma OutsideKeepsReply(s: State, a: Action, i: nat)
    requires Shape(s.ctl, s.world) && WcOk(s) && ReplyOk(s, i)
    requires !a.Receive? && !a.MainStep? && !a.SideStep? && !a.SideReceive?
    ensures ReplyOk(Step(s, a), i) && WcOk(Step(s, a))
  {
    hide Shape, LaunchOf, Mandatory, Replies;
    RepliesStep(s.trace, NextMove(s, a).event, i);
  }

  lemma MainKeepsWc(s: State, ok: bool)
    requires Shape(s.ctl, s.world) && WcOk(s)
    ensures WcOk(Step(s, MainStep(ok)))
  {
    MainAnswersPending(s.ctl, s.world, ok);
  }

  lemma {:induction false} EveryRunReplies(acts: seq<Action>, i: nat)
    ensures CommitOk(Run(acts)) && WcOk(Run(acts)) && ReplyOk(Run(acts), i)
    decreases |acts|
  {
    if acts != [] {
      var s, a := Run(acts[..|acts| - 1]), acts[|acts| - 1];
      EveryRunReplies(acts[..|acts| - 1], i);
      EveryRunInControl(acts[..|acts| - 1]);
      StepKeepsCommit(s, a);
      match a {
        case Receive(r, allocOk) => if MainTakes(s) { ReceiveKeepsReply(s, r, allocOk, i); }
        case MainStep(ok) => MainKeepsReply(s, ok, i); MainKeepsWc(s, ok);
        case SideStep => SideKeepsReply(s, i);
        case SideReceive(r) => SideReceiveKeepsReply(s, r, i);
        case _ => OutsideKeepsReply(s, a, i);
      }
    }
  }

  /** The same read off the bytes of the requests: the pending launch is the one its request asks
      for, and no earlier request asks for any. */
  ghost predicate CommitAsked(s: State) {
    match s.world.pending
    case None => forall j, launch :: 0 <= j < |s.reqs| ==> !Asks(s.reqs[j], launch)
    case Some(p) =>
      && p.i < |s.reqs| && Asks(s.reqs[p.i], p.launch)
      && forall j, launch :: 0 <= j < p.i ==> !Asks(s.reqs[j], launch)
  }

  lemma CommitIsAsked(s: State)
    requires CommitOk(s)
    ensures CommitAsked(s)
  {
    hide LaunchOf, Asks;
    var n := if s.world.pending.Some? then s.world.pending.value.i else |s.reqs|;
    forall j, launch | 0 <= j < n ensures !Asks(s.reqs[j], launch) {
      assert LaunchOf(s.reqs[j]).None?;
      LaunchIsAsked(s.reqs[j], launch);
    }
    if s.world.pending.Some? { LaunchIsAsked(s.reqs[n], s.world.pending.value.launch); }
  }

  /** The channel is committed by the first well-formed shell, exec or sftp request and by no
      other, and nothing but that request is ever launched. Every request taken off the stream is
      answered at most once, and exactly once if it wants an answer, is not a signal, and is not
      still being worked on. */
  lemma OneCommitOneReply(acts: seq<Action>, i: nat)
    ensures var s := Run(acts);
            && CommitOk(s) && CommitAsked(s)
            && (|| TallyOf(s.trace).launches == []
                || (s.world.pending.Some? && TallyOf(s.trace).launches == [s.world.pending.value]))
            && Replies(s.trace, i) <= 1
            && (i < |s.reqs| && Mandatory(s.reqs[i]) && !Outstanding(s, i) ==> Replies(s.trace, i) == 1)
            && (s.ctl.main.Returned? ==> !Outstanding(s, i))
  {
    hide PtyOk, ExitOk, ExitSettled, TallyOf, Run, CommitAsked;
    EveryRunInControl(acts);
    EveryRunReplies(acts, i);
    CommitIsAsked(Run(acts));
  }
}
