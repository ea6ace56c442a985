/** When a session channel can go on by itself, and what it waits for otherwise. */
module SessionProgress {
  import opened Common
  import opened Session
  import opened SessionMachine
  import opened SessionTheorems

  /** The sftp server is at work, or has been told to stop. */
  predicate InSftp(pc: MainPc) { pc.SftpServing? || pc.SftpClosing? }

  /** A step the server takes by itself; that an sftp server finishes is up to its peer. */
  predicate Internal(s: State, a: Action) {
    match a
    case MainStep(ok) => !(InSftp(s.ctl.main) && ok)
    case Select(_) => true
    case SideStep => true
    case _ => false
  }

  /** The request goroutine has nothing to do until the peer sends something or closes. */
  predicate SideQuiet(c: Ctl, w: World) {
    c.side.Idle? || c.side.SideDone? || ((c.side.Serving? || c.side.Rejecting?) && !w.reqsClosed)
  }

  /** `Handle` has returned, or waits for a request, the sftp server, the context, the child's
      exit, or the end of the request goroutine. */
  predicate MainQuiet(c: Ctl, w: World) {
    match c.main
    case Receiving => !w.reqsClosed
    case SftpServing => !w.ctxDone
    case SftpClosing => true
    case Running => !w.ctxDone && !w.childExited && !c.side.SideDone?
    case AwaitExit => !w.childExited
    case AwaitSide => !c.side.SideDone?
    case Returned => true
    case _ => false
  }

  predicate Moves(c: Ctl, mv: Move) { mv.to != c || mv.event.Some? }

  lemma LockOwners(lock: Option<Who>)
    ensures lock == None || lock == Some(Main) || lock == Some(Side)
  {
    match lock {
      case None =>
      case Some(who) => assert who.Main? || who.Side?;
    }
  }

  lemma SideMovesUnlessQuiet(c: Ctl, w: World)
    requires Shape(c, w)
    ensures Moves(c, SideMove(c, w)) ==> !SideQuiet(c, w)
    ensures !SideQuiet(c, w) ==> Moves(c, SideMove(c, w)) || (c.side.WcLock? && c.main.Clearing?)
  {
    LockOwners(c.lock);
  }

  lemma SelectMovesUnlessQuiet(c: Ctl, w: World, b: Branch)
    ensures Moves(c, SelectMove(c, w, b)) ==> !MainQuiet(c, w)
    ensures c.main.Running? && !MainQuiet(c, w) ==>
              var b := if w.ctxDone then FromContext else if w.childExited then FromExit else FromClosed;
              Moves(c, SelectMove(c, w, b))
  {
  }

  lemma MainRestsWhenQuiet(c: Ctl, w: World, ok: bool)
    requires MainQuiet(c, w) && !(InSftp(c.main) && ok)
    ensures !Moves(c, MainMove(c, w, ok))
  {
  }

  lemma MainMovesUnlessQuiet(c: Ctl, w: World)
    requires Shape(c, w) && !MainQuiet(c, w) && !c.main.Running?
    ensures Moves(c, MainMove(c, w, false)) || (c.main.ClearLock? && c.side.WcHeld?)
  {
    LockOwners(c.lock);
    if Opening(c.main) { OpeningMoves(c, w); }
  }

  lemma OpeningMoves(c: Ctl, w: World)
    requires Shape(c, w) && !MainQuiet(c, w) && Opening(c.main)
    ensures Moves(c, MainMove(c, w, false))
  {
  }

  lemma StepMoves(s: State, a: Action)
    requires Internal(s, a)
    ensures Step(s, a) == s <==> !Moves(s.ctl, NextMove(s, a))
  {
    hide MainMove, SideMove, SelectMove;
    if NextMove(s, a).event.Some? { assert |Step(s, a).trace| == |s.trace| + 1; }
  }

  /** In every reachable state, no step of the server's own is left exactly when `Handle` and the
      request goroutine both wait for the outside, or `Handle` has returned. */
  lemma IdleExactlyWhenWaiting(acts: seq<Action>)
    ensures var s := Run(acts);
            (forall a :: Internal(s, a) ==> Step(s, a) == s) <==> SideQuiet(s.ctl, s.world) && MainQuiet(s.ctl, s.world)
  {
    hide Run, Shape, PtyOk, ExitOk, ExitSettled, LaunchOk, MainMove, SideMove, SelectMove, MainQuiet, SideQuiet, Step;
    EveryRunInControl(acts);
    var s := Run(acts);
    var c, w := s.ctl, s.world;
    if SideQuiet(c, w) && MainQuiet(c, w) {
      forall a | Internal(s, a) ensures Step(s, a) == s { QuietRests(s, a); }
    } else {
      var a := BusyStep(s);
      StepMoves(s, a);
    }
  }

  lemma QuietRests(s: State, a: Action)
    requires Shape(s.ctl, s.world) && SideQuiet(s.ctl, s.world) && MainQuiet(s.ctl, s.world) && Internal(s, a)
    ensures Step(s, a) == s
  {
    hide Shape, MainMove, SideMove, SelectMove, MainQuiet, SideQuiet;
    StepMoves(s, a);
    match a {
      case MainStep(ok) => MainRestsWhenQuiet(s.ctl, s.world, ok);
      case Select(b) => SelectMovesUnlessQuiet(s.ctl, s.world, b);
      case SideStep => SideMovesUnlessQuiet(s.ctl, s.world);
    }
  }

  lemma BusyStep(s: State) returns (a: Action)
    requires Shape(s.ctl, s.world) && !(SideQuiet(s.ctl, s.world) && MainQuiet(s.ctl, s.world))
    ensures Internal(s, a) && Moves(s.ctl, NextMove(s, a))
  {
    hide Shape, SideMove, SelectMove, SideQuiet;
    var c, w := s.ctl, s.world;
    SideMovesUnlessQuiet(c, w);
    if Moves(c, SideMove(c, w)) {
      a := SideStep;
    } else if c.main.Clearing? {
      a := MainStep(false);
    } else if c.main.Running? {
      a := Select(if w.ctxDone then FromContext else if w.childExited then FromExit else FromClosed);
      SelectMovesUnlessQuiet(c, w, a.branch);
    } else {
      a := MainStep(false);
      MainMovesUnlessQuiet(c, w);
      if c.main.ClearLock? && c.side.WcHeld? { HeldMoves(c, w); }
    }
  }

  lemma HeldMoves(c: Ctl, w: World)
    requires c.side.WcHeld?
    ensures Moves(c, SideMove(c, w))
  {
  }

  // ----- after a kill -----

  lemma {:induction false} SideDoneMeansClosed(acts: seq<Action>)
    ensures Run(acts).ctl.side.SideDone? ==> Run(acts).world.reqsClosed
    decreases |acts|
  {
    if acts != [] {
      var before, a := acts[..|acts| - 1], acts[|acts| - 1];
      SideDoneMeansClosed(before);
      StepKeepsDone(Run(before), a);
    }
  }

  lemma StepKeepsDone(s: State, a: Action)
    requires s.ctl.side.SideDone? ==> s.world.reqsClosed
    ensures Step(s, a).ctl.side.SideDone? ==> Step(s, a).world.reqsClosed
  {
    match a {
      case MainStep(ok) => MainKeepsSide(s.ctl, s.world, ok);
      case _ =>
    }
  }

  lemma MainKeepsSide(c: Ctl, w: World, ok: bool)
    ensures MainMove(c, w, ok).to.side.SideDone? ==> c.side.SideDone?
  {
  }

  /** After the child's group was signalled the server does not close the channel before `Handle`
      returns, and `Handle` does not get that far until the peer has closed the stream. */
  lemma KilledWaitsForPeer(acts: seq<Action>)
    ensures var s := Run(acts);
            s.ctl.killed ==>
              && (!s.ctl.main.Returned? ==> Count(s.trace, IsClose) == 0)
              && (s.ctl.main.Returning? || s.ctl.main.Returned? ==> s.world.reqsClosed)
  {
    hide Run, PtyOk, ExitOk, LaunchOk, TallyOf;
    EveryRunInControl(acts);
    TallyCounts(Run(acts).trace);
    SideDoneMeansClosed(acts);
    KilledSideIsDone(acts);
  }

  lemma {:induction false} KilledSideIsDone(acts: seq<Action>)
    ensures var s := Run(acts);
            && (s.ctl.killed ==> !s.ctl.side.Idle?)
            && (s.ctl.killed && (s.ctl.main.Returning? || s.ctl.main.Returned?) ==> s.ctl.side.SideDone?)
    decreases |acts|
  {
    if acts != [] {
      var before, a := acts[..|acts| - 1], acts[|acts| - 1];
      KilledSideIsDone(before);
      EveryRunInControl(before);
      StepKeepsKilledSide(Run(before), a);
    }
  }

  lemma StepKeepsKilledSide(s: State, a: Action)
    requires ControlOk(s) && (s.ctl.killed ==> !s.ctl.side.Idle?)
    requires s.ctl.killed && (s.ctl.main.Returning? || s.ctl.main.Returned?) ==> s.ctl.side.SideDone?
    ensures var s' := Step(s, a);
            && (s'.ctl.killed ==> !s'.ctl.side.Idle?)
            && (s'.ctl.killed && (s'.ctl.main.Returning? || s'.ctl.main.Returned?) ==> s'.ctl.side.SideDone?)
  {
    hide PtyOk, ExitOk, ExitSettled, LaunchOk, TallyOf;
    match a {
      case MainStep(ok) => MainKeepsKilledSide(s.ctl, s.world, ok);
      case SideStep => SideIsModest(s.ctl, s.world, []); SideStaysLive(s.ctl, s.world);
      case SideReceive(r) => if SideTakes(s) { SideReceiveAnswers(s.ctl, |s.reqs|, r); }
      case _ =>
    }
  }

  lemma SideStaysLive(c: Ctl, w: World)
    ensures var c' := SideMove(c, w).to;
            c'.killed == c.killed && (c'.side.Idle? ==> c.side.Idle?) && (c.side.SideDone? ==> c'.side.SideDone?)
  {
  }

  lemma MainKeepsKilledSide(c: Ctl, w: World, ok: bool)
    requires Shape(c, w) && (c.killed ==> !c.side.Idle?)
    requires c.killed && (c.main.Returning? || c.main.Returned?) ==> c.side.SideDone?
    ensures var c' := MainMove(c, w, ok).to;
            && (c'.killed ==> !c'.side.Idle?)
            && (c'.killed && (c'.main.Returning? || c'.main.Returned?) ==> c'.side.SideDone?)
  {
  }
}
