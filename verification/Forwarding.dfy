/** Local port forwarding on one connection: a bounded slot counter shared by any number of
    concurrent `direct-tcpip` handlers. */
module Forwarding {
  import opened Common
  import opened Wire

  // ----- the channel-open payload, RFC 4254 section 7.2 -----

  datatype Direct = Direct(destAddr: Bytes, destPort: nat, originAddr: Bytes, originPort: nat)

  function EncodeDirect(p: Direct): Bytes {
    AppendString([], p.destAddr) + (PutUint32(p.destPort) + (AppendString([], p.originAddr) + PutUint32(p.originPort)))
  }

  /** Strict: nothing may follow the four fields, and the destination port is a TCP port. */
  function ParseDirect(data: Bytes): Option<Direct> {
    var host := ReadString(data);
    if !host.Ok? then None else
    var port := ReadUint32(host.rest);
    if !port.Ok? then None else
    var origin := ReadString(port.rest);
    if !origin.Ok? then None else
    var oport := ReadUint32(origin.rest);
    if !oport.Ok? || oport.rest != [] then None
    else if port.value == 0 || port.value > 65535 then None
    else Some(Direct(host.value, port.value, origin.value, oport.value))
  }

  lemma DirectSound(data: Bytes)
    requires |data| < TWO32 && ParseDirect(data).Some?
    ensures var p := ParseDirect(data).value;
            data == EncodeDirect(p) && 1 <= p.destPort <= 65535 && p.originPort < TWO32
  {
    var host := ReadString(data);
    var port := ReadUint32(host.rest);
    var origin := ReadString(port.rest);
    var oport := ReadUint32(origin.rest);
    ReadStringExact(data, host.value, host.rest);
    ReadUint32Exact(host.rest, port.value, port.rest);
    ReadStringExact(port.rest, origin.value, origin.rest);
    ReadUint32Exact(origin.rest, oport.value, oport.rest);
    assert PutUint32(oport.value) + [] == PutUint32(oport.value);
  }

  /** A payload is accepted exactly when it is, to the last byte, the encoding of an address pair
      with a destination port in 1..65535, and then the fields are those that were encoded. */
  lemma DirectExact(data: Bytes, p: Direct)
    requires |data| < TWO32
    ensures ParseDirect(data) == Some(p) <==>
            data == EncodeDirect(p) && 1 <= p.destPort <= 65535 && p.originPort < TWO32
  {
    if ParseDirect(data).Some? { DirectSound(data); }
    if data == EncodeDirect(p) && 1 <= p.destPort <= 65535 && p.originPort < TWO32 {
      var r3 := PutUint32(p.originPort);
      var r2 := AppendString([], p.originAddr) + r3;
      var r1 := PutUint32(p.destPort) + r2;
      ReadStringExact(data, p.destAddr, r1);
      ReadUint32Exact(r1, p.destPort, r2);
      ReadStringExact(r2, p.originAddr, r3);
      assert r3 + [] == r3;
      ReadUint32Exact(r3, p.originPort, []);
    }
  }

  /** The destination host and port, then the originator's. */
  lemma DirectFields(data: Bytes)
    requires |data| < TWO32 && ParseDirect(data).Some?
    ensures var p := ParseDirect(data).value;
            && |data| >= 16 && var n := At32(data, 0);
            && 16 + n <= |data| && p.destAddr == data[4..4 + n] && p.destPort == At32(data, 4 + n)
            && var m := At32(data, 8 + n);
               |data| == 16 + n + m && p.originAddr == data[12 + n..12 + n + m]
                     && p.originPort == At32(data, 12 + n + m)
  {
    hide At32, ReadString, GetUint32;
    ReadStringFields(data);
    var n := At32(data, 0);
    var b := data[4 + n..];
    At32Shifts(data, 4 + n, 0);
    NumberFirst(b);
    assert b[4..] == data[8 + n..];
    ReadStringFields(data[8 + n..]);
    At32Shifts(data, 8 + n, 0);
    var m := At32(data, 8 + n);
    assert data[8 + n..][4..4 + m] == data[12 + n..12 + n + m];
    assert data[8 + n..][4 + m..] == data[12 + n + m..];
    NumberFirst(data[12 + n + m..]);
    At32Shifts(data, 12 + n + m, 0);
  }

  lemma NumberFirst(b: Bytes)
    ensures ReadUint32(b).Ok? <==> |b| >= 4
    ensures |b| >= 4 ==> ReadUint32(b) == Ok(At32(b, 0), b[4..])
  {
    hide GetUint32;
    if |b| >= 4 { assert b[0..4] == b[..4]; }
  }

  // ----- the counter -----

  function Capacity(cap: int): nat { if cap > 0 then cap else 0 }

  class ForwardCounter {
    const cap: int
    var inflight: int

    predicate Valid()
      reads this
    {
      0 <= inflight <= Capacity(cap)
    }

    constructor (cap: int)
      ensures this.cap == cap && inflight == 0 && Valid()
    {
      this.cap := cap;
      inflight := 0;
    }

    /** A slot is granted exactly if one is free, and then it is taken. */
    method Acquire() returns (ok: bool)
      requires Valid()
      modifies this`inflight
      ensures Valid()
      ensures ok <==> old(inflight) < Capacity(cap)
      ensures inflight == old(inflight) + (if ok then 1 else 0)
    {
      if cap <= 0 || inflight >= cap {
        return false;
      }
      inflight := inflight + 1;
      return true;
    }

    /** A slot that is taken becomes free; with none taken nothing happens. */
    method Release()
      requires Valid()
      modifies this`inflight
      ensures Valid()
      ensures old(inflight) > 0 ==> inflight == old(inflight) - 1
      ensures old(inflight) == 0 ==> inflight == 0
    {
      if inflight > 0 {
        inflight := inflight - 1;
      }
    }
  }

  // ----- the handlers -----

  datatype Reason = MalformedPayload | OverCap | DialFailed

  datatype Log = Rejected(reason: Reason) | Opened | Closed

  datatype Pc =
    | Parsing
    | WantSlot
    | Dialing | DialRefused | LogDialRefused
    | Accepting | AcceptRefused | CloseDialed
    | LogOpen
    | Piping                          // until both copies have ended
    | ClosingBoth | Releasing | LogClose
    | Done

  /** A connection in the hands of a handler. */
  datatype Conn = NoConn | OpenConn | ClosedConn

  /** One handler, with its log records, how often it took and gave back a slot, what the dial and
      Accept answered, which of its two copies have ended, what it holds open, and whether it refused
      the channel. */
  datatype Handler = Handler(
    payload: Bytes, pc: Pc, log: seq<Log>, taken: nat, given: nat, dialed: Option<bool>, accepted: Option<bool>,
    outEnded: bool, inEnded: bool, tcp: Conn, channel: Conn, refused: bool)

  function Fresh(payload: Bytes): Handler {
    Handler(payload, Parsing, [], 0, 0, None, None, false, false, NoConn, NoConn, false)
  }

  /** `guardHit` records a Release that found nothing in flight. */
  datatype State = State(cap: int, inflight: int, guardHit: bool, handlers: seq<Handler>)

  function Init(cap: int): State { State(cap, 0, false, []) }

  datatype Action =
    | Arrive(payload: Bytes)
    | Advance(h: nat, ok: bool)   // `ok` resolves dial, accept, and which of the two copies ends

  function Refuse(x: Handler, reason: Reason): Handler {
    x.(pc := Done, log := x.log + [Rejected(reason)], refused := true)
  }

  /** The next step of a handler; `granted` is the counter's answer. */
  function Next(x: Handler, granted: bool, ok: bool): Handler {
    match x.pc
    case Parsing => if ParseDirect(x.payload).Some? then x.(pc := WantSlot) else Refuse(x, MalformedPayload)
    case WantSlot => if granted then x.(pc := Dialing, taken := x.taken + 1) else Refuse(x, OverCap)
    case Dialing =>
      x.(pc := if ok then Accepting else DialRefused, dialed := Some(ok), tcp := if ok then OpenConn else NoConn)
    case DialRefused => x.(pc := LogDialRefused, given := x.given + 1)
    case LogDialRefused => Refuse(x, DialFailed)
    case Accepting =>
      x.(pc := if ok then LogOpen else AcceptRefused, accepted := Some(ok), channel := if ok then OpenConn else NoConn)
    case AcceptRefused => x.(pc := CloseDialed, given := x.given + 1)
    case CloseDialed => x.(pc := Done, tcp := ClosedConn)
    case LogOpen => x.(pc := Piping, log := x.log + [Opened])
    case Piping =>
      if x.outEnded && x.inEnded then x.(pc := ClosingBoth)
      else if ok then x.(outEnded := true)
      else x.(inEnded := true)
    case ClosingBoth => x.(pc := Releasing, channel := ClosedConn, tcp := ClosedConn)
    case Releasing => x.(pc := LogClose, given := x.given + 1)
    case LogClose => x.(pc := Done, log := x.log + [Closed])
    case Done => x
  }

  predicate GivesBack(pc: Pc) { pc.DialRefused? || pc.AcceptRefused? || pc.Releasing? }

  function AdvanceStep(s: State, h: nat, ok: bool): State
    requires h < |s.handlers|
  {
    var x, granted := s.handlers[h], s.inflight < Capacity(s.cap);
    var hs := s.handlers[h := Next(x, granted, ok)];
    if x.pc.WantSlot? && granted then State(s.cap, s.inflight + 1, s.guardHit, hs)
    else if GivesBack(x.pc) then
      State(s.cap, if s.inflight > 0 then s.inflight - 1 else s.inflight, s.guardHit || s.inflight <= 0, hs)
    else State(s.cap, s.inflight, s.guardHit, hs)
  }

  function Step(s: State, a: Action): State {
    match a
    case Arrive(payload) => s.(handlers := s.handlers + [Fresh(payload)])
    case Advance(h, ok) => if h < |s.handlers| then AdvanceStep(s, h, ok) else s
  }

  function Run(cap: int, acts: seq<Action>): State
    decreases |acts|
  {
    if acts == [] then Init(cap) else Step(Run(cap, acts[..|acts| - 1]), acts[|acts| - 1])
  }

  // ----- what every interleaving keeps -----

  /** The handler is between a granted Acquire and its Release. */
  predicate HoldsSlot(x: Handler) { x.taken > x.given }

  /** The handler is dialling, or has a copy in progress. */
  predicate Busy(x: Handler) { x.pc.Dialing? || (Opened in x.log && !(x.outEnded && x.inEnded)) }

  function CountIf(hs: seq<Handler>, p: Handler -> bool): nat {
    if hs == [] then 0 else CountIf(hs[..|hs| - 1], p) + (if p(hs[|hs| - 1]) then 1 else 0)
  }

  function Slots(hs: seq<Handler>): nat { CountIf(hs, HoldsSlot) }

  lemma {:induction false} CountUpdate(hs: seq<Handler>, p: Handler -> bool, h: nat, x: Handler)
    requires h < |hs|
    ensures CountIf(hs[h := x], p) == CountIf(hs, p) - (if p(hs[h]) then 1 else 0) + (if p(x) then 1 else 0)
    ensures p(hs[h]) ==> CountIf(hs, p) > 0
    decreases |hs|
  {
    var n := |hs| - 1;
    if h == n {
      assert hs[h := x][..n] == hs[..n];
    } else {
      assert hs[h := x][..n] == hs[..n][h := x];
      CountUpdate(hs[..n], p, h, x);
    }
  }

  lemma {:induction false} CountMonotone(hs: seq<Handler>, p: Handler -> bool, q: Handler -> bool)
    requires forall h :: 0 <= h < |hs| && p(hs[h]) ==> q(hs[h])
    ensures CountIf(hs, p) <= CountIf(hs, q)
    decreases |hs|
  {
    if hs != [] { CountMonotone(hs[..|hs| - 1], p, q); }
  }

  lemma {:induction false} CountNone(hs: seq<Handler>, p: Handler -> bool)
    requires forall h :: 0 <= h < |hs| ==> !p(hs[h])
    ensures CountIf(hs, p) == 0
    decreases |hs|
  {
    if hs != [] { CountNone(hs[..|hs| - 1], p); }
  }

  /** Slots taken and given back, the log, and the answers so far ... */
  predicate At(x: Handler, taken: nat, given: nat, log: seq<Log>, dialed: Option<bool>, accepted: Option<bool>) {
    x.taken == taken && x.given == given && x.log == log && x.dialed == dialed && x.accepted == accepted
  }

  /** ... and what is open, whether both copies have ended, and whether the channel was refused. */
  predicate With(x: Handler, tcp: Conn, channel: Conn, ended: bool, refused: bool) {
    x.tcp == tcp && x.channel == channel && x.outEnded == x.inEnded == ended && x.refused == refused
  }

  /** At each point of a handler. */
  predicate HandlerOk(x: Handler) {
    match x.pc
    case Parsing => At(x, 0, 0, [], None, None) && With(x, NoConn, NoConn, false, false)
    case WantSlot =>
      At(x, 0, 0, [], None, None) && With(x, NoConn, NoConn, false, false) && ParseDirect(x.payload).Some?
    case Dialing => At(x, 1, 0, [], None, None) && With(x, NoConn, NoConn, false, false)
    case DialRefused => At(x, 1, 0, [], Some(false), None) && With(x, NoConn, NoConn, false, false)
    case LogDialRefused => At(x, 1, 1, [], Some(false), None) && With(x, NoConn, NoConn, false, false)
    case Accepting => At(x, 1, 0, [], Some(true), None) && With(x, OpenConn, NoConn, false, false)
    case AcceptRefused => At(x, 1, 0, [], Some(true), Some(false)) && With(x, OpenConn, NoConn, false, false)
    case CloseDialed => At(x, 1, 1, [], Some(true), Some(false)) && With(x, OpenConn, NoConn, false, false)
    case LogOpen => At(x, 1, 0, [], Some(true), Some(true)) && With(x, OpenConn, OpenConn, false, false)
    case Piping =>
      At(x, 1, 0, [Opened], Some(true), Some(true)) && x.tcp.OpenConn? && x.channel.OpenConn? && !x.refused
    case ClosingBoth => At(x, 1, 0, [Opened], Some(true), Some(true)) && With(x, OpenConn, OpenConn, true, false)
    case Releasing => At(x, 1, 0, [Opened], Some(true), Some(true)) && With(x, ClosedConn, ClosedConn, true, false)
    case LogClose => At(x, 1, 1, [Opened], Some(true), Some(true)) && With(x, ClosedConn, ClosedConn, true, false)
    case Done => FinishedOk(x)
  }

  /** How a handler can end: refused before taking a slot, refused by the dial, refused by
      Accept (the one case without a record), or opened, piped both ways to the end, and closed. */
  predicate FinishedOk(x: Handler) {
    || (&& At(x, 0, 0, [Rejected(MalformedPayload)], None, None) && ParseDirect(x.payload).None?
        && With(x, NoConn, NoConn, false, true))
    || (&& At(x, 0, 0, [Rejected(OverCap)], None, None) && ParseDirect(x.payload).Some?
        && With(x, NoConn, NoConn, false, true))
    || (At(x, 1, 1, [Rejected(DialFailed)], Some(false), None) && With(x, NoConn, NoConn, false, true))
    || (At(x, 1, 1, [], Some(true), Some(false)) && With(x, ClosedConn, NoConn, false, false))
    || (At(x, 1, 1, [Opened, Closed], Some(true), Some(true)) && With(x, ClosedConn, ClosedConn, true, false))
  }

  ghost predicate Inv(s: State) {
    && s.inflight == Slots(s.handlers) && !s.guardHit && s.inflight <= Capacity(s.cap)
    && forall h :: 0 <= h < |s.handlers| ==> HandlerOk(s.handlers[h])
  }

  /** Up to the point where a channel is accepted or refused. */
  predicate Early(pc: Pc) {
    pc.Parsing? || pc.WantSlot? || pc.Dialing? || pc.DialRefused? || pc.LogDialRefused? || pc.Accepting?
  }

  lemma NextKeepsHandler(x: Handler, granted: bool, ok: bool)
    requires HandlerOk(x)
    ensures HandlerOk(Next(x, granted, ok))
  {
    hide HandlerOk, Next;
    if Early(x.pc) { EarlyKeepsHandler(x, granted, ok); } else { LateKeepsHandler(x, granted, ok); }
  }

  lemma EarlyKeepsHandler(x: Handler, granted: bool, ok: bool)
    requires HandlerOk(x) && Early(x.pc)
    ensures HandlerOk(Next(x, granted, ok))
  {
    hide ParseDirect;
  }

  lemma LateKeepsHandler(x: Handler, granted: bool, ok: bool)
    requires HandlerOk(x) && !Early(x.pc)
    ensures HandlerOk(Next(x, granted, ok))
  {
    hide ParseDirect;
  }

  /** A step takes a slot, gives one back, or leaves the hold on a slot as it was. */
  lemma NextHold(x: Handler, granted: bool, ok: bool)
    requires HandlerOk(x)
    ensures var x' := Next(x, granted, ok);
            && (x.pc.WantSlot? && granted ==> !HoldsSlot(x) && HoldsSlot(x'))
            && (GivesBack(x.pc) ==> HoldsSlot(x) && !HoldsSlot(x'))
            && (!(x.pc.WantSlot? && granted) && !GivesBack(x.pc) ==> HoldsSlot(x') == HoldsSlot(x))
  {
    hide ParseDirect;
  }

  lemma StepKeepsInv(s: State, a: Action)
    requires Inv(s)
    ensures Inv(Step(s, a))
  {
    hide ParseDirect, HandlerOk, Next, HoldsSlot;
    match a {
      case Arrive(payload) =>
        var hs := s.handlers + [Fresh(payload)];
        assert hs[..|s.handlers|] == s.handlers;
        FreshIsOk(payload);
      case Advance(h, ok) =>
        if h < |s.handlers| {
          var x, granted := s.handlers[h], s.inflight < Capacity(s.cap);
          NextKeepsHandler(x, granted, ok);
          NextHold(x, granted, ok);
          CountUpdate(s.handlers, HoldsSlot, h, Next(x, granted, ok));
        }
    }
  }

  lemma FreshIsOk(payload: Bytes)
    ensures HandlerOk(Fresh(payload)) && !HoldsSlot(Fresh(payload))
  {
  }

  lemma {:induction false} EveryRun(cap: int, acts: seq<Action>)
    ensures Inv(Run(cap, acts)) && Run(cap, acts).cap == cap
    decreases |acts|
  {
    hide Inv;
    if acts == [] {
      assert Inv(Init(cap)) by { NoHandlers(cap); }
    } else {
      EveryRun(cap, acts[..|acts| - 1]);
      StepKeepsInv(Run(cap, acts[..|acts| - 1]), acts[|acts| - 1]);
    }
  }

  lemma NoHandlers(cap: int)
    ensures Inv(Init(cap))
  {
  }

  /** What a handler has done by the time it has given its slot back, and what it leaves behind. */
  lemma HandlerMeans(x: Handler)
    requires HandlerOk(x)
    ensures x.given <= x.taken <= 1
    ensures Opened in x.log && (x.given == 1 || Closed in x.log) ==> x.outEnded && x.inEnded
    ensures Busy(x) ==> HoldsSlot(x)
    ensures x.pc.Done? ==>
              && x.given == x.taken && FinishedOk(x) && (x.log == [] <==> x.accepted == Some(false))
              && !x.tcp.OpenConn? && !x.channel.OpenConn?
              && (x.refused <==> exists reason :: x.log == [Rejected(reason)])
  {
    hide ParseDirect;
  }

  /** For any number of concurrent handlers: the counter is the number of handlers holding a
      slot and never exceeds the cap, and so is the number with a dial or a copy in progress; a
      granted slot is given back exactly once, never to an empty counter, and for an opened forward
      only after both copies have ended; and a finished handler has refused the channel and logged
      one rejection, or logged an open and a close, or nothing at all exactly when Accept failed, and
      has left no connection open. */
  lemma SlotsAreConserved(cap: int, acts: seq<Action>)
    ensures var s := Run(cap, acts);
            && s.inflight == Slots(s.handlers) && 0 <= s.inflight <= Capacity(cap) && !s.guardHit
            && CountIf(s.handlers, Busy) <= Capacity(cap)
            && (forall h :: 0 <= h < |s.handlers| ==>
                  var x := s.handlers[h];
                  && x.given <= x.taken <= 1
                  && (Opened in x.log && (x.given == 1 || Closed in x.log) ==> x.outEnded && x.inEnded))
            && (forall h :: 0 <= h < |s.handlers| && s.handlers[h].pc.Done? ==>
                  var x := s.handlers[h];
                  && x.given == x.taken && FinishedOk(x) && (x.log == [] <==> x.accepted == Some(false))
                  && !x.tcp.OpenConn? && !x.channel.OpenConn?)
            && ((forall h :: 0 <= h < |s.handlers| ==> s.handlers[h].pc.Done?) ==> s.inflight == 0)
  {
    hide HandlerOk, FinishedOk, Busy, Run;
    EveryRun(cap, acts);
    var s := Run(cap, acts);
    forall h | 0 <= h < |s.handlers|
      ensures HandlerOk(s.handlers[h]) && (Busy(s.handlers[h]) ==> HoldsSlot(s.handlers[h]))
      ensures var x := s.handlers[h];
              && x.given <= x.taken <= 1
              && (Opened in x.log && (x.given == 1 || Closed in x.log) ==> x.outEnded && x.inEnded)
    {
      HandlerMeans(s.handlers[h]);
    }
    CountMonotone(s.handlers, Busy, HoldsSlot);
    forall h | 0 <= h < |s.handlers| && s.handlers[h].pc.Done?
      ensures var x := s.handlers[h];
              && x.given == x.taken && FinishedOk(x) && (x.log == [] <==> x.accepted == Some(false))
              && !x.tcp.OpenConn? && !x.channel.OpenConn?
    {
      HandlerMeans(s.handlers[h]);
    }
    if forall h :: 0 <= h < |s.handlers| ==> s.handlers[h].pc.Done? { CountNone(s.handlers, HoldsSlot); }
  }

  // ----- the handlers on the counter itself -----

  /** The call a handler makes on the counter when it advances, and nothing otherwise. */
  method Call(c: ForwardCounter, s: State, h: nat, ok: bool)
    requires c.Valid() && Inv(s) && c.cap == s.cap && c.inflight == s.inflight && h < |s.handlers|
    modifies c`inflight
    ensures c.Valid() && c.inflight == AdvanceStep(s, h, ok).inflight
  {
    hide ParseDirect, HandlerOk, Next;
    CountUpdate(s.handlers, HoldsSlot, h, s.handlers[h]);
    NextHold(s.handlers[h], false, ok);
    if s.handlers[h].pc.WantSlot? {
      var granted := c.Acquire();
    } else if GivesBack(s.handlers[h].pc) {
      assert c.inflight > 0;
      c.Release();
    }
  }

  /** Any interleaving of any number of handlers, on one shared counter: it always holds what the
      model says, stays within its capacity, and every Release finds a slot taken. */
  method Drive(cap: int, acts: seq<Action>) returns (c: ForwardCounter)
    ensures c.Valid() && c.cap == cap && c.inflight == Run(cap, acts).inflight
    ensures c.inflight == Slots(Run(cap, acts).handlers)
  {
    hide Step, Inv, Slots;
    c := new ForwardCounter(cap);
    var s := Init(cap);
    var i := 0;
    assert acts[..0] == [];
    while i < |acts|
      invariant 0 <= i <= |acts|
      invariant s == Run(cap, acts[..i]) && c.Valid() && c.cap == cap && c.inflight == s.inflight
    {
      EveryRun(cap, acts[..i]);
      assert acts[..i + 1][..i] == acts[..i];
      StepCounter(s, acts[i]);
      if acts[i].Advance? && acts[i].h < |s.handlers| {
        Call(c, s, acts[i].h, acts[i].ok);
      }
      s := Step(s, acts[i]);
      i := i + 1;
    }
    assert acts[..|acts|] == acts;
    SlotsAreConserved(cap, acts);
  }

  lemma StepCounter(s: State, a: Action)
    ensures Step(s, a).inflight ==
            if a.Advance? && a.h < |s.handlers| then AdvanceStep(s, a.h, a.ok).inflight else s.inflight
  {
  }
}
