/** Replies and resizes say what happened: every positive answer is deserved, and the committing
    request is told truthfully whether anything was started for it. */
module SessionAnswers {
  import opened Common
  import opened Wire
  import opened Session
  import opened SessionMachine
  import opened SessionTheorems

  /** The terminal size a request asks for. */
  function SizeAsked(r: Request): Option<WinChange> {
    match r.kind
    case PtyRequest =>
      var p := ParsePtyReq(r.payload);
      if p.Value? then Some(SizeOf(p.value)) else None
    case WindowChange =>
      var w := ParseWindowChange(r.payload);
      if w.Value? then Some(w.value) else None
    case _ => None
  }

  /** The i-th request came before the one that committed the channel. */
  predicate Early(i: nat, pending: Option<Pending>) { pending.Some? ==> i < pending.value.i }

  /** The i-th request came after a commit to sftp. */
  predicate UnderSftp(i: nat, pending: Option<Pending>) { !Early(i, pending) && pending.value.launch.LaunchSftp? }

  /** When request `r`, the i-th, may be answered with success: pty-req and env only before the
      commit point, window-change when well-formed and not under sftp, the others only if this is
      the request that commits. */
  predicate MayGrant(r: Request, i: nat, pending: Option<Pending>) {
    match r.kind
    case PtyRequest => ParsePtyReq(r.payload).Value? && Early(i, pending)
    case EnvRequest => Early(i, pending)
    case WindowChange => ParseWindowChange(r.payload).Value? && !UnderSftp(i, pending)
    case Shell => pending.Some? && pending.value.i == i
    case Exec => pending.Some? && pending.value.i == i
    case Subsystem => pending.Some? && pending.value.i == i
    case _ => false
  }

  /** When it may be refused; for pty-req see below. */
  predicate MayRefuse(r: Request, i: nat, pending: Option<Pending>) {
    match r.kind
    case EnvRequest => !Early(i, pending)
    case WindowChange => !ParseWindowChange(r.payload).Value? || UnderSftp(i, pending)
    case Shell => !Early(i, pending)
    case Exec => LaunchOf(r).None? || !Early(i, pending)
    case Subsystem => LaunchOf(r).None? || !Early(i, pending)
    case Signal => UnderSftp(i, pending)
    case _ => true
  }

  /** A pty-req answered by the k-th event was granted: it has just been given the one PTY of the
      channel, at its own size. */
  ghost predicate PtyGranted(i: nat, trace: seq<Event>, k: nat)
    requires k < |trace|
  {
    && k >= 2 && trace[k - 2].Allocated? && trace[k - 1].Resized? && trace[k - 1].i == i
    && Count(trace[..k - 2], IsAlloc) == 0
  }

  /** ... or refused: it is malformed, comes after the commit, found no PTY to be had, or is not the
      first to get one. */
  ghost predicate PtyRefused(r: Request, i: nat, pending: Option<Pending>, trace: seq<Event>, k: nat)
    requires k < |trace|
  {
    || !ParsePtyReq(r.payload).Value?
    || !Early(i, pending)
    || (k >= 1 && trace[k - 1] == AllocFailed(i))
    || (Count(trace[..k], IsAlloc) > 0 && !(k >= 1 && trace[k - 1].Resized? && trace[k - 1].i == i))
  }

  /** No request but the committing one has a choice of answers. */
  lemma AnswerIsDetermined(r: Request, i: nat, pending: Option<Pending>, trace: seq<Event>, k: nat)
    requires k < |trace| && MayGrant(r, i, pending) && MayRefuse(r, i, pending)
    requires r.kind.PtyRequest? ==> PtyGranted(i, trace, k) && PtyRefused(r, i, pending, trace, k)
    ensures pending.Some? && pending.value.i == i && (r.kind.Shell? || r.kind.Exec? || r.kind.Subsystem?)
  {
  }

  /** The k-th event is justified by the requests so far: a resize sets the size its request asks
      for, and an answer is the one the request should have. */
  ghost predicate Deserved(reqs: seq<Request>, pending: Option<Pending>, trace: seq<Event>, k: nat)
    requires k < |trace|
  {
    match trace[k]
    case Resized(i, size) => i < |reqs| && SizeAsked(reqs[i]) == Some(size)
    case Replied(i, true) =>
      && i < |reqs| && MayGrant(reqs[i], i, pending)
      && (reqs[i].kind.PtyRequest? ==> PtyGranted(i, trace, k))
    case Replied(i, false) =>
      && i < |reqs| && MayRefuse(reqs[i], i, pending)
      && (reqs[i].kind.PtyRequest? ==> PtyRefused(reqs[i], i, pending, trace, k))
    case _ => true
  }

  ghost predicate Truthful(s: State) {
    forall k :: 0 <= k < |s.trace| ==> Deserved(s.reqs, s.world.pending, s.trace, k)
  }

  /** A window-change in progress is a well-formed one and carries its own size. */
  predicate WcAsked(s: State) {
    InWindowChange(s.ctl.side) ==>
      && s.ctl.side.i < |s.reqs| && s.reqs[s.ctl.side.i].kind.WindowChange?
      && ParseWindowChange(s.reqs[s.ctl.side.i].payload).Value?
      && (!s.ctl.side.WcReply? ==> SizeAsked(s.reqs[s.ctl.side.i]) == Some(s.ctl.side.size))
  }

  /** What was justified stays justified as requests arrive and events follow. */
  lemma StaysDeserved(s: State, s': State, more: seq<Event>)
    requires Truthful(s) && s.reqs <= s'.reqs && s'.trace == s.trace + more
    requires s.world.pending.Some? ==> s'.world.pending == s.world.pending
    requires s.world.pending.None? && s'.world.pending.Some? ==> s'.world.pending.value.i >= |s.reqs|
    requires forall k :: |s.trace| <= k < |s'.trace| ==> Deserved(s'.reqs, s'.world.pending, s'.trace, k)
    ensures Truthful(s')
  {
    hide Deserved;
    forall k | 0 <= k < |s'.trace| ensures Deserved(s'.reqs, s'.world.pending, s'.trace, k) {
      if k < |s.trace| { OneStaysDeserved(s, s', more, k); }
    }
  }

  lemma OneStaysDeserved(s: State, s': State, more: seq<Event>, k: nat)
    requires k < |s.trace| && s.reqs <= s'.reqs && s'.trace == s.trace + more
    requires s.world.pending.Some? ==> s'.world.pending == s.world.pending
    requires s.world.pending.None? && s'.world.pending.Some? ==> s'.world.pending.value.i >= |s.reqs|
    requires Deserved(s.reqs, s.world.pending, s.trace, k)
    ensures Deserved(s'.reqs, s'.world.pending, s'.trace, k)
  {
    hide SizeAsked, Count;
    assert s'.trace[..k] == s.trace[..k];
    if k >= 2 { assert s'.trace[..k - 2] == s.trace[..k - 2]; }
  }

  /** What a request before the commit point leaves behind. */
  lemma OtherDeserved(f: Fields, i: nat, r: Request, allocOk: bool)
    requires LaunchOf(r).None? && !f.started
    ensures var es := OnOther(f, i, r, allocOk).events;
            && |es| <= 3
            && (forall k :: 0 <= k < |es| && es[k].Resized? ==> es[k].i == i && SizeAsked(r) == Some(es[k].size))
            && (forall k :: 0 <= k < |es| && es[k].Replied? ==>
                  es[k].i == i && (if es[k].ok then MayGrant(r, i, None) else MayRefuse(r, i, None)))
            && !OnOther(f, i, r, allocOk).fields.started
  {
    hide ParsePtyReq, ParseWindowChange, ParseEnvReq;
  }

  lemma OtherPtyAnswer(f: Fields, i: nat, r: Request, allocOk: bool, k: nat)
    requires r.kind.PtyRequest? && !f.started
    requires var es := OnOther(f, i, r, allocOk).events; k < |es| && es[k].Replied?
    ensures var es := OnOther(f, i, r, allocOk).events;
            if es[k].ok then k == 2 && es[0].Allocated? && es[1].Resized? && es[1].i == i && f.pty.None?
            else !ParsePtyReq(r.payload).Value? || (k == 1 && es[0] == AllocFailed(i)) || (k == 0 && f.pty.Some?)
  {
    hide ParsePtyReq;
  }

  /** Before the commit point, a PTY has been opened exactly if the state has one. */
  lemma OpenedSoFar(s: State)
    requires ControlOk(s) && MainTakes(s)
    ensures s.world.pending.None? && Count(s.trace, IsAlloc) == (if s.fields.pty.Some? then 1 else 0)
  {
    hide ExitOk, ExitSettled, LaunchOk, TallyOf, Count;
    TallyCounts(s.trace);
  }

  lemma ReceivedDeserved(s: State, r: Request, allocOk: bool, k: nat)
    requires ControlOk(s) && MainTakes(s) && !s.fields.started && LaunchOf(r).None? && Truthful(s)
    requires var s' := ReceiveStep(s, r, allocOk); |s.trace| <= k < |s'.trace|
    ensures var s' := ReceiveStep(s, r, allocOk); Deserved(s'.reqs, s'.world.pending, s'.trace, k)
  {
    hide ControlOk, Truthful, SizeAsked, OnOther, Count, LaunchOf, MayGrant, MayRefuse, PtyGranted, PtyRefused;
    var s' := ReceiveStep(s, r, allocOk);
    var es := OnOther(s.fields, |s.reqs|, r, allocOk).events;
    OpenedSoFar(s);
    assert s'.trace[k] == es[k - |s.trace|];
    OtherDeserved(s.fields, |s.reqs|, r, allocOk);
    if r.kind.PtyRequest? && s'.trace[k].Replied? { PtyAnswerDeserved(s, r, allocOk, k - |s.trace|); }
  }

  lemma PtyAnswerDeserved(s: State, r: Request, allocOk: bool, j: nat)
    requires !s.fields.started && r.kind.PtyRequest? && s.world.pending.None? && Truthful(s)
    requires Count(s.trace, IsAlloc) == (if s.fields.pty.Some? then 1 else 0)
    requires var es := OnOther(s.fields, |s.reqs|, r, allocOk).events; j < |es| && es[j].Replied?
    ensures var es := OnOther(s.fields, |s.reqs|, r, allocOk).events;
            var i, trace, k := |s.reqs|, s.trace + es, |s.trace| + j;
            if es[j].ok then PtyGranted(i, trace, k) else PtyRefused(r, i, None, trace, k)
  {
    hide OnOther, Count, SizeAsked, MayGrant, MayRefuse;
    var es := OnOther(s.fields, |s.reqs|, r, allocOk).events;
    var trace, k := s.trace + es, |s.trace| + j;
    OtherPtyAnswer(s.fields, |s.reqs|, r, allocOk, j);
    if es[j].ok {
      assert trace[k - 2] == es[0] && trace[k - 1] == es[1] && trace[..k - 2] == s.trace;
    } else if j == 1 {
      assert trace[k - 1] == es[0];
    } else if j == 0 {
      assert trace[..k] == s.trace;
      if k >= 1 { assert Deserved(s.reqs, s.world.pending, s.trace, k - 1) && trace[k - 1] == s.trace[k - 1]; }
    }
  }

  lemma ReceiveStaysTrue(s: State, r: Request, allocOk: bool)
    requires Truthful(s) && MainTakes(s) && ControlOk(s) && !s.fields.started
    ensures Truthful(ReceiveStep(s, r, allocOk)) && !ReceiveStep(s, r, allocOk).fields.started
  {
    hide Deserved, OnOther, PtyOk, ExitOk, ExitSettled, LaunchOk, TallyOf;
    var s' := ReceiveStep(s, r, allocOk);
    if LaunchOf(r).None? {
      OtherDeserved(s.fields, |s.reqs|, r, allocOk);
      forall k | |s.trace| <= k < |s'.trace| ensures Deserved(s'.reqs, s'.world.pending, s'.trace, k) {
        ReceivedDeserved(s, r, allocOk, k);
      }
      StaysDeserved(s, s', OnOther(s.fields, |s.reqs|, r, allocOk).events);
    } else {
      assert s'.trace == s.trace + [];
      StaysDeserved(s, s', []);
    }
  }

  /** An event added by `Handle` or by the side goroutine. */
  lemma StepStaysTrue(s: State, a: Action)
    requires Truthful(s) && !a.Receive?
    requires var e, reqs, pending := NextMove(s, a).event, Step(s, a).reqs, s.world.pending;
             e.Some? ==>
               && (e.value.Resized? ==> e.value.i < |reqs| && SizeAsked(reqs[e.value.i]) == Some(e.value.size))
               && (e.value.Replied? ==>
                     var i := e.value.i;
                     && i < |reqs|
                     && (if e.value.ok then MayGrant(reqs[i], i, pending) else MayRefuse(reqs[i], i, pending))
                     && (reqs[i].kind.PtyRequest? ==> !e.value.ok && !Early(i, pending)))
    ensures Truthful(Step(s, a))
  {
    hide SizeAsked, NextMove, MayGrant, MayRefuse, PtyGranted, Early, Count;
    StaysDeserved(s, Step(s, a), AsSeq(NextMove(s, a).event));
  }

  /** `Handle` resizes nothing itself, and grants only the committing request. */
  lemma MainGrants(c: Ctl, w: World, ok: bool)
    requires Shape(c, w)
    ensures var e := MainMove(c, w, ok).event;
            e.Some? ==> !e.value.Resized? && (e.value.Replied? ==> w.pending.Some? && e.value.i == w.pending.value.i)
  {
  }

  lemma MainStaysTrue(s: State, ok: bool)
    requires Truthful(s) && Shape(s.ctl, s.world) && CommitOk(s)
    ensures Truthful(Step(s, MainStep(ok)))
  {
    hide Shape, Truthful, MainMove;
    MainGrants(s.ctl, s.world, ok);
    StepStaysTrue(s, MainStep(ok));
  }

  lemma SideStaysTrue(s: State)
    requires Truthful(s) && WcAsked(s) && Shape(s.ctl, s.world)
    ensures Truthful(Step(s, SideStep)) && WcAsked(Step(s, SideStep))
  {
    hide Truthful;
    SideAnswers(s.ctl, s.world);
    StepStaysTrue(s, SideStep);
  }

  lemma SideReceiveStaysTrue(s: State, r: Request)
    requires Truthful(s) && WcAsked(s) && Shape(s.ctl, s.world) && CommitOk(s)
    ensures Truthful(Step(s, SideReceive(r))) && WcAsked(Step(s, SideReceive(r)))
  {
    hide Truthful;
    if SideTakes(s) { SideReceiveAnswers(s.ctl, |s.reqs|, r); }
    StepStaysTrue(s, SideReceive(r));
  }

  lemma OutsideStaysTrue(s: State, a: Action)
    requires Truthful(s) && WcAsked(s) && !a.Receive? && !a.MainStep? && !a.SideStep? && !a.SideReceive?
    ensures Truthful(Step(s, a)) && WcAsked(Step(s, a))
  {
    hide Truthful;
    StepStaysTrue(s, a);
  }

  lemma MainKeepsAsked(s: State, ok: bool)
    requires Shape(s.ctl, s.world) && WcAsked(s)
    ensures WcAsked(Step(s, MainStep(ok)))
  {
    MainAnswersPending(s.ctl, s.world, ok);
  }

  // ----- the answer to the committing request -----

  /** A positive answer goes with a launch (for sftp the launch follows at once), a negative one
      with none. */
  ghost predicate AnswerFits(s: State) {
    s.world.pending.Some? ==>
      var p, m := s.world.pending.value, TallyOf(s.trace).launches;
      && (Replied(p.i, true) in s.trace ==> s.ctl.main.SftpStart? || m == [p])
      && (Replied(p.i, false) in s.trace ==>
            m == [] && (s.ctl.main.FailExit? || s.ctl.main.Returning? || s.ctl.main.Returned?))
  }

  lemma {:induction false} NoReplyNoEvent(trace: seq<Event>, i: nat, ok: bool)
    requires Replies(trace, i) == 0
    ensures Replied(i, ok) !in trace
    decreases |trace|
  {
    if trace != [] {
      NoReplyNoEvent(trace[..|trace| - 1], i, ok);
      assert trace == trace[..|trace| - 1] + [trace[|trace| - 1]];
    }
  }

  lemma {:induction false} ReplyIsEvent(trace: seq<Event>, i: nat)
    requires Replies(trace, i) > 0
    ensures Replied(i, true) in trace || Replied(i, false) in trace
    decreases |trace|
  {
    var last := trace[|trace| - 1];
    assert trace == trace[..|trace| - 1] + [last];
    if last.Replied? && last.i == i {
      assert last == Replied(i, true) || last == Replied(i, false);
    } else {
      ReplyIsEvent(trace[..|trace| - 1], i);
    }
  }

  /** What a step of `Handle` says and starts, by where it leaves it. */
  lemma MainAnswerMove(c: Ctl, w: World, ok: bool)
    requires Shape(c, w) && w.pending.Some?
    ensures var mv := MainMove(c, w, ok); var p := w.pending.value;
            if mv.event == Some(Replied(p.i, true)) then
              AwaitsAnswer(c.main) && (mv.to.main.SftpStart? || c.main.ReplyStarted?)
            else if mv.event == Some(Replied(p.i, false)) then c.main.FailReply? && mv.to.main.FailExit?
            else
              && !(mv.event.Some? && mv.event.value.Replied?)
              && (mv.event.Some? && mv.event.value.Launched? ==>
                    mv.event.value == Launched(p.launch, p.i) && (c.main.Committed? || c.main.SftpStart?))
              && (c.main.SftpStart? ==> mv.event == Some(Launched(p.launch, p.i)))
              && (c.main.FailExit? || c.main.Returning? ==> mv.to.main.Returning? || mv.to.main.Returned?)
              && (c.main.Returned? ==> mv.to.main.Returned?)
  {
  }

  lemma MainKeepsFit(s: State, ok: bool)
    requires ControlOk(s) && AnswerFits(s) && CommitOk(s) && ReplyOk(s, Key(s))
    ensures AnswerFits(Step(s, MainStep(ok)))
  {
    hide Shape, PtyOk, ExitOk, ExitSettled, MainMove, TallyOf;
    if s.world.pending.Some? {
      StepTally(s, MainStep(ok));
      MainAnswerMove(s.ctl, s.world, ok);
      if AwaitsAnswer(s.ctl.main) {
        NoReplyNoEvent(s.trace, Key(s), true);
        NoReplyNoEvent(s.trace, Key(s), false);
      }
    }
  }

  /** Steps of anything but `Handle` neither answer the committing request nor launch. */
  lemma OthersKeepFit(s: State, a: Action)
    requires Shape(s.ctl, s.world) && AnswerFits(s) && CommitOk(s) && WcAsked(s) && !a.Receive? && !a.MainStep?
    ensures AnswerFits(Step(s, a))
  {
    hide Shape, TallyOf, CommitOk;
    StepTally(s, a);
    if s.world.pending.Some? { OthersMove(s, a); }
  }

  lemma OthersMove(s: State, a: Action)
    requires CommitOk(s) && WcAsked(s) && s.world.pending.Some? && !a.Receive? && !a.MainStep?
    ensures var mv := NextMove(s, a); var p := s.world.pending.value;
            && (mv.to.main == s.ctl.main || (s.ctl.main.Running? && (mv.to.main.SendHup? || mv.to.main.Draining?)))
            && (mv.event.Some? ==> !mv.event.value.Launched? && (mv.event.value.Replied? ==> mv.event.value.i != p.i))
  {
    SideAnswers(s.ctl, s.world);
    SideIsModest(s.ctl, s.world, []);
    if a.SideReceive? && SideTakes(s) { SideReceiveAnswers(s.ctl, |s.reqs|, a.r); }
  }

  /** The committing request, or the one that would be it if it arrived now. */
  function Key(s: State): nat { if s.world.pending.Some? then s.world.pending.value.i else |s.reqs| }

  lemma {:induction false} EveryRunAnswers(acts: seq<Action>)
    ensures Truthful(Run(acts)) && WcAsked(Run(acts)) && AnswerFits(Run(acts)) && !Run(acts).fields.started
    decreases |acts|
  {
    if acts != [] {
      var before := acts[..|acts| - 1];
      EveryRunAnswers(before);
      EveryRunInControl(before);
      EveryRunReplies(before, Key(Run(before)));
      StepKeepsAnswers(Run(before), acts[|acts| - 1]);
    }
  }

  lemma StepKeepsAnswers(s: State, a: Action)
    requires Truthful(s) && WcAsked(s) && AnswerFits(s) && ControlOk(s) && CommitOk(s) && !s.fields.started
    requires ReplyOk(s, Key(s))
    ensures Truthful(Step(s, a)) && WcAsked(Step(s, a)) && AnswerFits(Step(s, a)) && !Step(s, a).fields.started
  {
    hide Truthful, ReplyOk, TallyOf, AnswerFits, PtyOk, ExitOk, ExitSettled, LaunchOk, MainMove, SideMove,
          SideReceiveMove, SelectMove;
    match a {
      case Receive(r, allocOk) => if MainTakes(s) { CommitKeepsFit(s, r, allocOk); ReceiveStaysTrue(s, r, allocOk); }
      case MainStep(ok) =>
        MainStaysTrue(s, ok);
        MainKeepsAsked(s, ok);
        MainKeepsFit(s, ok);
      case SideStep => SideStaysTrue(s); OthersKeepFit(s, a);
      case SideReceive(r) => SideReceiveStaysTrue(s, r); OthersKeepFit(s, a);
      case _ => OutsideStaysTrue(s, a); OthersKeepFit(s, a);
    }
  }

  /** The committing request has not been answered when it is taken. */
  lemma CommitKeepsFit(s: State, r: Request, allocOk: bool)
    requires ControlOk(s) && MainTakes(s) && ReplyOk(s, |s.reqs|)
    ensures AnswerFits(ReceiveStep(s, r, allocOk)) && WcAsked(ReceiveStep(s, r, allocOk))
  {
    NoReplyNoEvent(s.trace, |s.reqs|, true);
    NoReplyNoEvent(s.trace, |s.reqs|, false);
  }

  /** In every run: each resize sets exactly the size its request asked for, each answer is
      one its request may have, and a pty-req is granted only together with a PTY of its own. When `Handle`
      returns, a committing request that wants an answer has been told "yes" exactly when it was
      launched and "no" exactly when nothing was. */
  lemma AnswersAreTruthful(acts: seq<Action>)
    ensures var s := Run(acts);
            && Truthful(s)
            && (s.ctl.main.Returned? && s.world.pending.Some? ==>
                  var p, m := s.world.pending.value, TallyOf(s.trace).launches;
                  && p.i < |s.reqs|
                  && (s.reqs[p.i].wantReply ==>
                        && (Replied(p.i, true) in s.trace <==> m == [p])
                        && (Replied(p.i, false) in s.trace <==> m == [])))
  {
    hide Shape, PtyOk, ExitOk, ExitSettled, TallyOf, Run, Truthful;
    EveryRunAnswers(acts);
    EveryRunInControl(acts);
    var s := Run(acts);
    if s.ctl.main.Returned? && s.world.pending.Some? {
      var p := s.world.pending.value;
      EveryRunReplies(acts, p.i);
      if s.reqs[p.i].wantReply { ReplyIsEvent(s.trace, p.i); }
    }
  }

  // ----- what reaches the terminal -----

  const TWO16: int := 0x1_0000

  /** The kernel's record of a terminal size: four 16-bit numbers. */
  datatype Winsize = Winsize(cols: nat, rows: nat, x: nat, y: nat)

  /** `ptyFile.Setsize`: each number is cut to 16 bits. */
  function SetSize(w: WinChange): Winsize {
    Winsize(w.cols % TWO16, w.rows % TWO16, w.widthPx % TWO16, w.heightPx % TWO16)
  }

  predicate Shows(t: Winsize, w: WinChange) {
    t.cols == w.cols && t.rows == w.rows && t.x == w.widthPx && t.y == w.heightPx
  }

  predicate Fits16(w: WinChange) { w.cols < TWO16 && w.rows < TWO16 && w.widthPx < TWO16 && w.heightPx < TWO16 }

  /** The request whose size the terminal last took on. */
  function LastResize(trace: seq<Event>): Option<nat>
    decreases |trace|
  {
    if trace == [] then None
    else if trace[|trace| - 1].Resized? then Some(trace[|trace| - 1].i)
    else LastResize(trace[..|trace| - 1])
  }

  /** The size the terminal has after these events. */
  function TerminalSize(trace: seq<Event>): Option<Winsize>
    decreases |trace|
  {
    if trace == [] then None
    else if trace[|trace| - 1].Resized? then Some(SetSize(trace[|trace| - 1].size))
    else TerminalSize(trace[..|trace| - 1])
  }

  lemma {:induction false} LastResizeIsEvent(trace: seq<Event>)
    ensures TerminalSize(trace).Some? <==> LastResize(trace).Some?
    ensures LastResize(trace).Some? ==>
              exists k :: 0 <= k < |trace| && trace[k].Resized? && trace[k].i == LastResize(trace).value
                          && TerminalSize(trace) == Some(SetSize(trace[k].size))
    decreases |trace|
  {
    if trace != [] && !trace[|trace| - 1].Resized? {
      var before := trace[..|trace| - 1];
      LastResizeIsEvent(before);
      if LastResize(before).Some? {
        var k :| 0 <= k < |before| && before[k].Resized? && before[k].i == LastResize(before).value
                 && TerminalSize(before) == Some(SetSize(before[k].size));
        assert trace[k] == before[k];
      }
    }
  }

  /** In every run the terminal has the size its last resizing request asked for if and only if
      all four numbers of that request fit in 16 bits. */
  lemma TerminalShowsRequestIffFits(acts: seq<Action>)
    ensures var s := Run(acts); var i := LastResize(s.trace);
            && TerminalSize(s.trace).Some? == i.Some?
            && (i.Some? ==>
                  && i.value < |s.reqs| && SizeAsked(s.reqs[i.value]).Some?
                  && var asked := SizeAsked(s.reqs[i.value]).value;
                     Shows(TerminalSize(s.trace).value, asked) <==> Fits16(asked))
  {
    hide Run, SizeAsked;
    EveryRunAnswers(acts);
    var s := Run(acts);
    LastResizeIsEvent(s.trace);
    if LastResize(s.trace).Some? {
      var k :| 0 <= k < |s.trace| && s.trace[k].Resized? && s.trace[k].i == LastResize(s.trace).value
               && TerminalSize(s.trace) == Some(SetSize(s.trace[k].size));
      assert Deserved(s.reqs, s.world.pending, s.trace, k);
    }
  }

  /** A run in which it does not fit: the client asks for 65536 columns, is told that it has them,
      and the terminal has none. */
  lemma WideTerminalHasNoColumns() returns (acts: seq<Action>)
    ensures var s := Run(acts);
            && |s.reqs| == 1 && SizeAsked(s.reqs[0]) == Some(WinChange(TWO16, 24, 0, 0)) && Replied(0, true) in s.trace
            && TerminalSize(s.trace) == Some(Winsize(0, 24, 0, 0))
  {
    hide ParsePtyReq, EncodePtyReq;
    var p := PtyReq([], TWO16, 24, 0, 0, []);
    var payload := EncodePtyReq(p);
    assert |payload| == 24 by { PtyReqLength(p); }
    PtyReqExact(payload, p);
    var r := Request(PtyRequest, true, payload);
    acts := [Receive(r, true)];
    assert acts[..0] == [];
    var es := [Allocated, Resized(0, SizeOf(p)), Replied(0, true)];
    assert Run(acts).trace == [] + es == es;
    assert es[..2] == [Allocated, Resized(0, SizeOf(p))];
    assert TerminalSize(es) == TerminalSize(es[..2]) == Some(SetSize(SizeOf(p)));
  }

  lemma PtyReqLength(p: PtyReq)
    ensures |EncodePtyReq(p)| == 24 + |p.term| + |p.modes|
  {
  }
}
