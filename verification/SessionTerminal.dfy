/** Every window-change takes effect: the terminal follows the requests, in their order. */
module SessionTerminal {
  import opened Common
  import opened Wire
  import opened Session
  import opened SessionMachine
  import opened SessionTheorems
  import opened SessionAnswers

  /** A well-formed window-change. */
  predicate Resizes(r: Request) { r.kind.WindowChange? && ParseWindowChange(r.payload).Value? }

  /** The event deals with the terminal size asked for by some request. */
  predicate Sizing(e: Event) { e.Resized? || e.NoTerminal? }

  /** The side goroutine has the i-th request in hand and has not yet come to the terminal. */
  predicate InHand(side: SidePc, i: nat) { (side.WcLock? || side.WcHeld?) && side.i == i }

  /** The i-th request was carried out: the terminal took on its size, or there was none to do so. */
  ghost predicate CarriedOut(s: State, i: nat)
    requires i < |s.reqs| && Resizes(s.reqs[i])
  {
    Resized(i, ParseWindowChange(s.reqs[i].payload).value) in s.trace || NoTerminal(i) in s.trace
  }

  /** The i-th request should have been carried out by now. */
  predicate Due(s: State, i: nat) {
    i < |s.reqs| && Resizes(s.reqs[i]) && !UnderSftp(i, s.world.pending) && !InHand(s.ctl.side, i)
  }

  ghost predicate AllCarriedOut(s: State) {
    forall i: nat :: Due(s, i) ==> CarriedOut(s, i)
  }

  /** There was no terminal: none had been granted, or the child was gone and it had been withdrawn. */
  ghost predicate NoneThere(trace: seq<Event>, k: nat)
    requires k < |trace|
  {
    trace[k].NoTerminal? ==> Count(trace[..k], IsAlloc) == 0 || Withdrawn in trace[..k]
  }

  ghost predicate NoneThereEver(trace: seq<Event>) {
    forall k :: 0 <= k < |trace| ==> NoneThere(trace, k)
  }

  /** Requests are dealt with in the order in which they came. */
  ghost predicate SizedInOrder(trace: seq<Event>) {
    forall j, k :: 0 <= j < k < |trace| && Sizing(trace[j]) && Sizing(trace[k]) ==> trace[j].i < trace[k].i
  }

  /** ... and those dealt with came before the one in hand and before those to come. */
  ghost predicate SizedSoFar(s: State) {
    && (forall k :: 0 <= k < |s.trace| && Sizing(s.trace[k]) ==>
          && s.trace[k].i < |s.reqs|
          && (s.ctl.side.WcLock? || s.ctl.side.WcHeld? ==> s.trace[k].i < s.ctl.side.i))
    && (InWindowChange(s.ctl.side) ==> s.ctl.side.i + 1 == |s.reqs|)
    && (s.world.hasPty && !s.ctl.master ==> Withdrawn in s.trace)
  }

  ghost predicate TerminalInv(s: State) {
    AllCarriedOut(s) && NoneThereEver(s.trace) && SizedInOrder(s.trace) && SizedSoFar(s)
  }

  // ----- one more event -----

  lemma NoneThereAppend(trace: seq<Event>, e: Event)
    requires NoneThereEver(trace)
    requires e.NoTerminal? ==> Count(trace, IsAlloc) == 0 || Withdrawn in trace
    ensures NoneThereEver(trace + [e])
  {
    hide Count;
    var t := trace + [e];
    forall k | 0 <= k < |t| ensures NoneThere(t, k) {
      if k < |trace| { assert NoneThere(trace, k) && t[..k] == trace[..k]; } else { assert t[..k] == trace; }
    }
  }

  lemma SizedAppend(trace: seq<Event>, e: Event)
    requires SizedInOrder(trace)
    requires Sizing(e) ==> forall k :: 0 <= k < |trace| && Sizing(trace[k]) ==> trace[k].i < e.i
    ensures SizedInOrder(trace + [e])
  {
  }

  /** What was carried out stays carried out. */
  lemma CarriedOutStays(s: State, s': State, i: nat)
    requires i < |s.reqs| && s.reqs <= s'.reqs && s.trace <= s'.trace && Resizes(s.reqs[i]) && CarriedOut(s, i)
    ensures CarriedOut(s', i)
  {
    hide ParseWindowChange;
    assert forall e :: e in s.trace ==> e in s'.trace;
  }

  /** The side goroutine has the same request in hand, if any, and works on no other. */
  predicate SameHand(a: SidePc, b: SidePc) {
    && (a.WcLock? || a.WcHeld? <==> b.WcLock? || b.WcHeld?)
    && (InWindowChange(b) ==> InWindowChange(a) && a.i == b.i)
  }

  /** Neither the requests nor what they ask for the terminal are touched. */
  lemma UntouchedStays(s: State, s': State, e: Option<Event>)
    requires TerminalInv(s) && s'.trace == s.trace + AsSeq(e) && (e.Some? ==> !Sizing(e.value))
    requires s'.reqs == s.reqs && s'.world.pending == s.world.pending && s'.world.hasPty == s.world.hasPty
    requires SameHand(s.ctl.side, s'.ctl.side)
    requires s'.ctl.master == s.ctl.master || e == Some(Withdrawn)
    ensures TerminalInv(s')
  {
    hide ParseWindowChange, Count, UnderSftp;
    assert s.trace <= s'.trace && forall x :: x in s.trace ==> x in s'.trace;
    if e.Some? {
      assert e.value in s'.trace;
      NoneThereAppend(s.trace, e.value);
      SizedAppend(s.trace, e.value);
    } else {
      assert s'.trace == s.trace;
    }
    forall i: nat | Due(s', i) ensures CarriedOut(s', i) {
      CarriedOutStays(s, s', i);
    }
  }

  // ----- every step -----

  lemma MainLeavesTerminal(c: Ctl, w: World, ok: bool)
    requires Shape(c, w)
    ensures var mv := MainMove(c, w, ok);
            && (mv.event.Some? ==> !Sizing(mv.event.value)) && SameHand(c.side, mv.to.side)
            && (mv.to.master == c.master || mv.event == Some(Withdrawn))
  {
    hide Shape, MainMove;
    if Opening(c.main) {
      OpeningLeavesTerminal(c, w, ok);
    } else if Attending(c.main) {
      ServingLeavesTerminal(c, w, ok);
    } else {
      ClosingLeavesTerminal(c, w, ok);
    }
  }

  lemma OpeningLeavesTerminal(c: Ctl, w: World, ok: bool)
    requires Shape(c, w)
    requires Opening(c.main)
    ensures var mv := MainMove(c, w, ok);
            && (mv.event.Some? ==> !Sizing(mv.event.value)) && SameHand(c.side, mv.to.side)
            && (mv.to.master == c.master || mv.event == Some(Withdrawn))
  {
  }

  lemma ServingLeavesTerminal(c: Ctl, w: World, ok: bool)
    requires Shape(c, w)
    requires Attending(c.main)
    ensures var mv := MainMove(c, w, ok);
            && (mv.event.Some? ==> !Sizing(mv.event.value)) && SameHand(c.side, mv.to.side)
            && (mv.to.master == c.master || mv.event == Some(Withdrawn))
  {
  }

  lemma ClosingLeavesTerminal(c: Ctl, w: World, ok: bool)
    requires Shape(c, w)
    requires !Opening(c.main) && !Attending(c.main)
    ensures var mv := MainMove(c, w, ok);
            && (mv.event.Some? ==> !Sizing(mv.event.value)) && SameHand(c.side, mv.to.side)
            && (mv.to.master == c.master || mv.event == Some(Withdrawn))
  {
  }

  lemma MainKeepsTerminal(s: State, ok: bool)
    requires Shape(s.ctl, s.world) && TerminalInv(s)
    ensures TerminalInv(Step(s, MainStep(ok)))
  {
    hide Shape, MainMove, TerminalInv;
    MainLeavesTerminal(s.ctl, s.world, ok);
    UntouchedStays(s, Step(s, MainStep(ok)), MainMove(s.ctl, s.world, ok).event);
  }

  lemma SideLeavesTerminal(c: Ctl, w: World)
    requires !c.side.WcHeld?
    ensures var mv := SideMove(c, w);
            && (mv.event.Some? ==> !Sizing(mv.event.value)) && SameHand(c.side, mv.to.side) && mv.to.master == c.master
  {
  }

  lemma SideKeepsTerminal(s: State)
    requires ControlOk(s) && WcAsked(s) && TerminalInv(s)
    ensures TerminalInv(Step(s, SideStep))
  {
    hide ControlOk, SideMove, TerminalInv, WcAsked;
    if s.ctl.side.WcHeld? {
      HeldIsCarriedOut(s);
    } else {
      SideLeavesTerminal(s.ctl, s.world);
      UntouchedStays(s, Step(s, SideStep), SideMove(s.ctl, s.world).event);
    }
  }

  /** Without a PTY none was ever opened. */
  lemma NoPtyNoAlloc(s: State)
    requires ControlOk(s) && !s.world.hasPty
    ensures Count(s.trace, IsAlloc) == 0
  {
    hide Shape, ExitOk, ExitSettled, LaunchOk, Count, TallyOf, PtyFits;
    TallyCounts(s.trace);
  }

  /** The step that comes to the terminal carries its request out. */
  lemma HeldIsCarriedOut(s: State)
    requires ControlOk(s) && WcAsked(s) && TerminalInv(s) && s.ctl.side.WcHeld?
    ensures TerminalInv(Step(s, SideStep))
  {
    hide ControlOk, Count, UnderSftp, ParseWindowChange;
    var s' := Step(s, SideStep);
    var i := s.ctl.side.i;
    var e := if s.ctl.master then Resized(i, s.ctl.side.size) else NoTerminal(i);
    assert s'.trace == s.trace + [e] && s'.ctl.side == WcReply(i, s.ctl.side.want) && s'.reqs == s.reqs;
    if !s.world.hasPty { NoPtyNoAlloc(s); }
    NoneThereAppend(s.trace, e);
    SizedAppend(s.trace, e);
    assert e in s'.trace && s.trace <= s'.trace;
    forall j: nat | Due(s', j) ensures CarriedOut(s', j) {
      if j != i { CarriedOutStays(s, s', j); }
    }
  }

  /** A request the side goroutine takes: a well-formed window-change is in hand unless sftp refuses
      everything. */
  lemma SideReceiveKeepsTerminal(s: State, r: Request)
    requires Shape(s.ctl, s.world) && CommitOk(s) && TerminalInv(s)
    ensures TerminalInv(Step(s, SideReceive(r)))
  {
    hide Count, ParseWindowChange, SideReceiveMove, LaunchOf;
    var s' := Step(s, SideReceive(r));
    if SideTakes(s) {
      SideReceiveAnswers(s.ctl, |s.reqs|, r);
      TakenInHand(s.ctl, s.world, |s.reqs|, r);
      var e := SideReceiveMove(s.ctl, |s.reqs|, r).event;
      if e.Some? {
        NoneThereAppend(s.trace, e.value);
        SizedAppend(s.trace, e.value);
      } else {
        assert s'.trace == s.trace;
      }
      forall j: nat | Due(s', j) ensures CarriedOut(s', j) {
        if j < |s.reqs| { CarriedOutStays(s, s', j); }
      }
    } else {
      assert s'.trace == s.trace;
      UntouchedStays(s, s', None);
    }
  }

  lemma TakenInHand(c: Ctl, w: World, i: nat, r: Request)
    requires Shape(c, w) && (c.side.Rejecting? || c.side.Serving?)
    requires w.pending.Some? ==> w.pending.value.i < i
    ensures Resizes(r) && !UnderSftp(i, w.pending) ==> InHand(SideReceiveMove(c, i, r).to.side, i)
    ensures !InWindowChange(c.side)
  {
    hide ParseWindowChange;
  }

  /** What a request before the commit point does about the terminal. */
  lemma OtherSizing(f: Fields, i: nat, r: Request, allocOk: bool)
    requires LaunchOf(r).None? && f.master == f.pty.Some?
    ensures var o := OnOther(f, i, r, allocOk); var es := o.events;
            && (forall k :: 0 <= k < |es| && Sizing(es[k]) ==> es[k].i == i)
            && (forall j, k :: 0 <= j < k < |es| && Sizing(es[j]) ==> !Sizing(es[k]))
            && (forall k :: 0 <= k < |es| && es[k].NoTerminal? ==> k == 0 && !f.master)
            && (Resizes(r) ==>
                  var w := ParseWindowChange(r.payload).value;
                  |es| >= 1 && es[0] == if f.master then Resized(i, w) else NoTerminal(i))
            && o.fields.master == o.fields.pty.Some?
  {
    hide ParsePtyReq, ParseEnvReq, ParseWindowChange;
  }

  lemma ReceiveKeepsTerminal(s: State, r: Request, allocOk: bool)
    requires ControlOk(s) && TerminalInv(s) && MainTakes(s)
    ensures TerminalInv(ReceiveStep(s, r, allocOk))
  {
    hide ControlOk, OnOther, Count, LaunchOf, ParseWindowChange;
    var s' := ReceiveStep(s, r, allocOk);
    ReceivingFields(s);
    if LaunchOf(r).None? {
      OtherSizing(s.fields, |s.reqs|, r, allocOk);
      OpenedSoFar(s);
      AppendSizing(s.trace, OnOther(s.fields, |s.reqs|, r, allocOk).events, |s.reqs|);
    } else {
      LaunchersDoNotResize(r);
      assert s'.trace == s.trace;
    }
    forall j: nat | Due(s', j) ensures CarriedOut(s', j) {
      if j < |s.reqs| {
        CarriedOutStays(s, s', j);
      } else {
        assert s'.trace[|s.trace|] in s'.trace;
      }
    }
  }

  lemma LaunchersDoNotResize(r: Request)
    requires LaunchOf(r).Some?
    ensures !Resizes(r)
  {
    hide ParseWindowChange;
  }

  lemma ReceivingFields(s: State)
    requires ControlOk(s) && MainTakes(s)
    ensures s.ctl.side.Idle? && s.world.pending.None? && s.fields.master == s.fields.pty.Some? == s.world.hasPty
    ensures s.ctl.master == s.fields.master
  {
    hide ExitOk, ExitSettled, LaunchOk, TallyOf;
  }

  lemma AppendSizing(trace: seq<Event>, es: seq<Event>, i: nat)
    requires NoneThereEver(trace) && SizedInOrder(trace)
    requires forall k :: 0 <= k < |trace| && Sizing(trace[k]) ==> trace[k].i < i
    requires forall k :: 0 <= k < |es| && Sizing(es[k]) ==> es[k].i == i
    requires forall j, k :: 0 <= j < k < |es| && Sizing(es[j]) ==> !Sizing(es[k])
    requires forall k :: 0 <= k < |es| && es[k].NoTerminal? ==> k == 0 && Count(trace, IsAlloc) == 0
    ensures NoneThereEver(trace + es) && SizedInOrder(trace + es)
  {
    hide Count;
    var t := trace + es;
    forall k | 0 <= k < |t| ensures NoneThere(t, k) {
      if k < |trace| {
        assert NoneThere(trace, k) && t[..k] == trace[..k];
      } else if t[k].NoTerminal? {
        assert t[k] == es[k - |trace|] && t[..k] == trace;
      }
    }
    assert forall k :: |trace| <= k < |t| ==> t[k] == es[k - |trace|];
    forall j, k | 0 <= j < k < |t| && Sizing(t[j]) && Sizing(t[k]) ensures t[j].i < t[k].i {
    }
  }

  lemma {:induction false} EveryRunTerminal(acts: seq<Action>)
    ensures TerminalInv(Run(acts))
    decreases |acts|
  {
    hide TerminalInv, Step;
    if acts == [] {
      NoneSized();
    } else {
      var before, a := acts[..|acts| - 1], acts[|acts| - 1];
      EveryRunTerminal(before);
      EveryRunInControl(before);
      EveryRunReplies(before, 0);
      EveryRunAnswers(before);
      StepKeepsTerminal(Run(before), a);
    }
  }

  lemma NoneSized()
    ensures TerminalInv(INIT)
  {
  }

  lemma StepKeepsTerminal(s: State, a: Action)
    requires ControlOk(s) && CommitOk(s) && WcAsked(s) && TerminalInv(s)
    ensures TerminalInv(Step(s, a))
  {
    hide TerminalInv, WcAsked, CommitOk, MainMove, SideMove, SideReceiveMove, Shape, PtyOk, ExitOk, ExitSettled,
          LaunchOk;
    match a {
      case Receive(r, allocOk) => if MainTakes(s) { ReceiveKeepsTerminal(s, r, allocOk); }
      case MainStep(ok) => MainKeepsTerminal(s, ok);
      case SideStep => SideKeepsTerminal(s);
      case SideReceive(r) => SideReceiveKeepsTerminal(s, r);
      case _ => UntouchedStays(s, Step(s, a), NextMove(s, a).event);
    }
  }

  // ----- the theorem -----

  lemma {:induction false} LastResizeIsLast(trace: seq<Event>, k: nat)
    requires SizedInOrder(trace) && k < |trace| && trace[k].Resized?
    ensures LastResize(trace).Some? && trace[k].i <= LastResize(trace).value
    decreases |trace|
  {
    var n := |trace| - 1;
    if !trace[n].Resized? {
      assert SizedInOrder(trace[..n]);
      assert trace[..n][k] == trace[k];
      LastResizeIsLast(trace[..n], k);
    }
  }

  /** In every run, each well-formed window-change that was taken off the stream, not under sftp, and
      that the server is not just about to carry out, was carried out: the terminal took on the size
      it asks for, unless there was none because none had been granted yet or because the child was
      gone. Requests are carried out in order, so the terminal has the size of the last one that found
      it: every later one found none. */
  lemma WindowChangesTakeEffect(acts: seq<Action>)
    ensures var s := Run(acts);
            && AllCarriedOut(s) && NoneThereEver(s.trace) && SizedInOrder(s.trace)
            && (forall i: nat :: Due(s, i) && (LastResize(s.trace).Some? ==> i > LastResize(s.trace).value) ==>
                  NoTerminal(i) in s.trace)
  {
    hide Run, ParseWindowChange, UnderSftp, LastResize;
    EveryRunTerminal(acts);
    var s := Run(acts);
    forall i: nat | Due(s, i) && (LastResize(s.trace).Some? ==> i > LastResize(s.trace).value)
      ensures NoTerminal(i) in s.trace
    {
      assert CarriedOut(s, i);
      var e := Resized(i, ParseWindowChange(s.reqs[i].payload).value);
      if e in s.trace {
        var k :| 0 <= k < |s.trace| && s.trace[k] == e;
        LastResizeIsLast(s.trace, k);
      }
    }
  }
}
