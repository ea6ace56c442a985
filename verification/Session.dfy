/** One session channel: the requests it understands and the state they build up before a
    shell, command or sftp server is started. */
module Session {
  import opened Common
  import opened Wire
  import opened Environment

  const SFTP: Bytes := [0x73, 0x66, 0x74, 0x70]

  datatype RequestType =
    | PtyRequest | EnvRequest | WindowChange | Shell | Exec | Subsystem | Signal | X11 | Agent | Unknown

  /** The transport bounds a packet far below 4 GiB. */
  type Payload = b: Bytes | |b| < TWO32 witness []

  datatype Request = Request(kind: RequestType, wantReply: bool, payload: Payload)

  datatype Launch = LaunchShell | LaunchExec(command: Bytes) | LaunchSftp

  /** What ends the supervision of a child. */
  datatype Branch = FromContext | FromClosed | FromExit

  /** What one channel does to the outside, in order. The last four are not visible there: they
      record that something was found or done inside. */
  datatype Event =
    | Replied(i: nat, ok: bool)       // a call of Reply for the i-th request
    | Allocated                       // a PTY pair was opened
    | AllocFailed(i: nat)             // none was to be had for the i-th request
    | Resized(i: nat, size: WinChange) // Setsize on the PTY master, for the i-th request
    | MasterClosed
    | SlaveClosed
    | Launched(launch: Launch, i: nat)
    | ExitSent                        // exit-status or exit-signal
    | HupSent(at: int)
    | GraceStarted(at: int)           // the deadline of the grace period was set
    | Polled(at: int, alive: bool)    // signal 0 to the process group
    | KillSent(at: int)
    | ChannelClosed
    | NoTerminal(i: nat)              // the i-th request found no PTY master to resize
    | Withdrawn                       // the PTY master is no longer offered for resizing
    | Selected(why: Branch)           // Handle stopped waiting for the child, for this reason
    | ChildExited

  function SizeOf(p: PtyReq): WinChange { WinChange(p.cols, p.rows, p.widthPx, p.heightPx) }

  /** The fields of sessionState; `master` and `slave` say whether the pointer is set. */
  datatype Fields = Fields(pty: Option<PtyReq>, master: bool, slave: bool, env: map<Bytes, Bytes>, started: bool)

  const FRESH: Fields := Fields(None, false, false, map[], false)

  /** The launch a request asks for, if it is one of the three committing requests and is
      well-formed. */
  function LaunchOf(r: Request): Option<Launch> {
    match r.kind
    case Shell => Some(LaunchShell)
    case Exec =>
      var c := ParseSingleString(r.payload);
      if c.Value? then Some(LaunchExec(c.value)) else None
    case Subsystem =>
      var n := ParseSingleString(r.payload);
      if n.Value? && n.value == SFTP then Some(LaunchSftp) else None
    case _ => None
  }

  /** What a request asks to be started, read off its bytes: a shell by kind alone, a command or the
      sftp server by the string its payload begins with. */
  predicate Asks(r: Request, launch: Launch) {
    match launch
    case LaunchShell => r.kind.Shell?
    case LaunchExec(c) => r.kind.Exec? && AppendString([], c) <= r.payload
    case LaunchSftp => r.kind.Subsystem? && AppendString([], [0x73, 0x66, 0x74, 0x70]) <= r.payload
  }

  lemma LaunchIsAsked(r: Request, launch: Launch)
    ensures LaunchOf(r) == Some(launch) <==> Asks(r, launch)
  {
    hide ParseSingleString;
    var c := ParseSingleString(r.payload);
    SingleStringExact(r.payload, [0x73, 0x66, 0x74, 0x70]);
    if launch.LaunchExec? { SingleStringExact(r.payload, launch.command); }
  }

  function ReplyIf(want: bool, i: nat, ok: bool): seq<Event> { if want then [Replied(i, ok)] else [] }

  // ----- one request before the commit point -----

  datatype Outcome = Outcome(fields: Fields, events: seq<Event>)

  function OnPtyReq(f: Fields, i: nat, r: Request, allocOk: bool): Outcome {
    if f.started || f.pty.Some? then Outcome(f, [Replied(i, false)])
    else
      var p := ParsePtyReq(r.payload);
      if !p.Value? then Outcome(f, [Replied(i, false)])
      else if !allocOk then Outcome(f, [AllocFailed(i), Replied(i, false)])
      else Outcome(f.(pty := Some(p.value), master := true, slave := true),
            [Allocated, Resized(i, SizeOf(p.value)), Replied(i, true)])
  }

  function OnEnv(f: Fields, i: nat, r: Request): Outcome {
    if f.started then Outcome(f, [Replied(i, false)])
    else
      var e := ParseEnvReq(r.payload);
      if e.Value? && FilterEnv(e.value.name)
      then Outcome(f.(env := f.env[e.value.name := e.value.value]), [Replied(i, true)])
      else Outcome(f, [Replied(i, true)])
  }

  function OnWindowChange(f: Fields, i: nat, r: Request): Outcome {
    var w := ParseWindowChange(r.payload);
    if !w.Value? then Outcome(f, ReplyIf(r.wantReply, i, false))
    else Outcome(f, [if f.master then Resized(i, w.value) else NoTerminal(i)] + ReplyIf(r.wantReply, i, true))
  }

  /** A request that does not commit the channel. */
  function OnOther(f: Fields, i: nat, r: Request, allocOk: bool): Outcome {
    match r.kind
    case PtyRequest => OnPtyReq(f, i, r, allocOk)
    case EnvRequest => OnEnv(f, i, r)
    case WindowChange => OnWindowChange(f, i, r)
    case Shell => Outcome(f, [])
    case Exec => Outcome(f, [Replied(i, false)])
    case Subsystem => Outcome(f, [Replied(i, false)])
    case Signal => Outcome(f, [])
    case _ => Outcome(f, ReplyIf(r.wantReply, i, false))
  }

  // ----- reading the events -----

  /** How often request `i` was replied to. */
  function Replies(events: seq<Event>, i: nat): nat {
    if events == [] then 0
    else
      var last := events[|events| - 1];
      Replies(events[..|events| - 1], i) + (if last.Replied? && last.i == i then 1 else 0)
  }

  lemma {:induction false} RepliesAppend(a: seq<Event>, b: seq<Event>, i: nat)
    ensures Replies(a + b, i) == Replies(a, i) + Replies(b, i)
    decreases |b|
  {
    if b == [] {
      assert a + b == a;
    } else {
      assert (a + b)[..|a + b| - 1] == a + b[..|b| - 1];
      RepliesAppend(a, b[..|b| - 1], i);
    }
  }

  /** A request that must be answered. */
  predicate Mandatory(r: Request) { r.wantReply && r.kind != Signal }

  /** A request that does not commit is answered at once: at most once, and exactly once if it
      must be. No other request is answered. */
  lemma OtherRepliesOnce(f: Fields, i: nat, r: Request, allocOk: bool, j: nat)
    requires LaunchOf(r).None?
    ensures var n := Replies(OnOther(f, i, r, allocOk).events, j);
            n <= 1 && (j != i ==> n == 0) && (j == i && Mandatory(r) ==> n == 1)
  {
    OtherEventShape(f, i, r, allocOk);
    var es := OnOther(f, i, r, allocOk).events;
    if es == [] || !es[|es| - 1].Replied? {
      SilentHasNoReplies(es, j);
    } else {
      SilentHasNoReplies(es[..|es| - 1], j);
    }
  }

  /** Only the last event can be a reply, it answers this request, and it is there if required. */
  lemma OtherEventShape(f: Fields, i: nat, r: Request, allocOk: bool)
    requires LaunchOf(r).None?
    ensures var es := OnOther(f, i, r, allocOk).events;
            && (forall k :: 0 <= k < |es| - 1 ==> !es[k].Replied?)
            && (|es| > 0 && es[|es| - 1].Replied? ==> es[|es| - 1].i == i)
            && (Mandatory(r) ==> |es| > 0 && es[|es| - 1].Replied?)
  {
  }

  lemma NoRepliesYet()
    ensures forall j: nat :: Replies([], j) == 0
  {
  }

  lemma {:induction false} SilentHasNoReplies(es: seq<Event>, j: nat)
    requires forall k :: 0 <= k < |es| ==> !es[k].Replied?
    ensures Replies(es, j) == 0
    decreases |es|
  {
    if es != [] { SilentHasNoReplies(es[..|es| - 1], j); }
  }

  /** Request `j` did not commit the channel and has had the reply it is due. */
  predicate Settled(r: Request, events: seq<Event>, j: nat) {
    LaunchOf(r).None? && Replies(events, j) <= 1 && (Mandatory(r) ==> Replies(events, j) == 1)
  }

  // ----- what the fields mean -----

  /** The value the last well-formed `env` request for `name` carried. */
  function LastEnv(reqs: seq<Request>, name: Bytes): Option<Bytes> {
    if reqs == [] then None
    else
      var r := reqs[|reqs| - 1];
      var e := ParseEnvReq(r.payload);
      if r.kind.EnvRequest? && e.Value? && e.value.name == name then Some(e.value.value)
      else LastEnv(reqs[..|reqs| - 1], name)
  }

  /** The first well-formed pty-req for which the system had a PTY to give. */
  function FirstPty(reqs: seq<Request>, allocOk: seq<bool>): Option<PtyReq>
    requires |allocOk| == |reqs|
  {
    if reqs == [] then None
    else
      var n := |reqs| - 1;
      var before := FirstPty(reqs[..n], allocOk[..n]);
      var p := ParsePtyReq(reqs[n].payload);
      if before.Some? then before
      else if reqs[n].kind.PtyRequest? && p.Value? && allocOk[n] then Some(p.value)
      else None
  }

  predicate SendsEnv(r: Request, name: Bytes, v: Bytes) {
    r.kind.EnvRequest? && ParseEnvReq(r.payload) == Value(EnvReq(name, v))
  }

  /** The value is that of the last request that sends the name. */
  lemma {:induction false} LastEnvMeans(reqs: seq<Request>, name: Bytes, v: Bytes)
    ensures LastEnv(reqs, name) == Some(v) <==>
            exists i :: 0 <= i < |reqs| && SendsEnv(reqs[i], name, v)
                        && forall j, w :: i < j < |reqs| ==> !SendsEnv(reqs[j], name, w)
  {
    hide ParseEnvReq;
    if reqs != [] {
      var n := |reqs| - 1;
      LastEnvMeans(reqs[..n], name, v);
      assert forall j :: 0 <= j < n ==> reqs[..n][j] == reqs[j];
      var e := ParseEnvReq(reqs[n].payload);
      if reqs[n].kind.EnvRequest? && e.Value? && e.value.name == name {
        assert SendsEnv(reqs[n], name, e.value.value);
      }
    }
  }

  /** The i-th request is a well-formed pty-req and there is a PTY to be had for it. */
  predicate CanHavePty(reqs: seq<Request>, allocOk: seq<bool>, i: nat)
    requires |allocOk| == |reqs|
  {
    i < |reqs| && reqs[i].kind.PtyRequest? && ParsePtyReq(reqs[i].payload).Value? && allocOk[i]
  }

  ghost predicate FirstToHavePty(reqs: seq<Request>, allocOk: seq<bool>, i: nat)
    requires |allocOk| == |reqs|
  {
    CanHavePty(reqs, allocOk, i) && forall j: nat :: j < i ==> !CanHavePty(reqs, allocOk, j)
  }

  /** The PTY is that of the first request that can have one. */
  lemma {:induction false} FirstPtyMeans(reqs: seq<Request>, allocOk: seq<bool>)
    requires |allocOk| == |reqs|
    ensures match FirstPty(reqs, allocOk)
            case None => forall i: nat :: !CanHavePty(reqs, allocOk, i)
            case Some(p) =>
              exists i: nat :: FirstToHavePty(reqs, allocOk, i) && ParsePtyReq(reqs[i].payload) == Value(p)
    decreases |reqs|
  {
    hide ParsePtyReq;
    if reqs != [] {
      var n := |reqs| - 1;
      var before, ok := reqs[..n], allocOk[..n];
      FirstPtyMeans(before, ok);
      assert forall j: nat :: j < n ==> (CanHavePty(before, ok, j) <==> CanHavePty(reqs, allocOk, j));
      if FirstPty(before, ok).Some? {
        var p := FirstPty(before, ok).value;
        var i: nat :| FirstToHavePty(before, ok, i) && ParsePtyReq(before[i].payload) == Value(p);
        assert FirstToHavePty(reqs, allocOk, i) && reqs[i] == before[i];
      } else if CanHavePty(reqs, allocOk, n) {
        assert FirstToHavePty(reqs, allocOk, n);
      }
    }
  }

  /** The state a channel is in after the given requests: the first PTY that could be granted,
      and for each permitted name the last value sent. */
  ghost predicate Tracks(f: Fields, reqs: seq<Request>, allocOk: seq<bool>)
    requires |allocOk| == |reqs|
  {
    && !f.started && f.pty == FirstPty(reqs, allocOk) && f.master == f.slave == f.pty.Some?
    && forall name :: Agrees(f.env, name, if FilterEnv(name) then LastEnv(reqs, name) else None)
  }

  lemma TracksFresh()
    ensures Tracks(FRESH, [], [])
  {
  }

  lemma TracksNext(f: Fields, reqs: seq<Request>, allocOk: seq<bool>, i: nat)
    requires i < |reqs| == |allocOk| && Tracks(f, reqs[..i], allocOk[..i])
    ensures LaunchOf(reqs[i]).None? ==>
              Tracks(OnOther(f, i, reqs[i], allocOk[i]).fields, reqs[..i + 1], allocOk[..i + 1])
    ensures LaunchOf(reqs[i]).Some? ==> Tracks(f, reqs[..i + 1], allocOk[..i + 1])
  {
    hide ParsePtyReq, ParseEnvReq, ParseWindowChange, FilterEnv;
    assert reqs[..i + 1][..i] == reqs[..i] && allocOk[..i + 1][..i] == allocOk[..i];
  }

  /** "LC_A", and "LC_A=x": both pass the filter. */
  const LC_A: Bytes := [0x4c, 0x43, 0x5f, 0x41]
  const LC_A_X: Bytes := [0x4c, 0x43, 0x5f, 0x41, 0x3d, 0x78]

  /** Two requests after which the child sees a name twice: the second variable is called "LC_A=x",
      and its string re-splits to another value of the first. */
  lemma ClientCanRepeatAName(host: seq<Bytes>) returns (first: Request, second: Request)
    ensures var env := OnOther(OnOther(FRESH, 0, first, true).fields, 1, second, true).fields.env;
            && env == map[LC_A := [], LC_A_X := []]
            && NameIn(Entry(LC_A, [])) == NameIn(Entry(LC_A_X, [])) == LC_A
            && !NoClash(host, env, [])
  {
    hide ParseEnvReq, FilterEnv, FirstEqual;
    first := EnvRequestFor(LC_A);
    second := EnvRequestFor(LC_A_X);
    SameNameTwice(host);
    var f := OnOther(FRESH, 0, first, true).fields;
    assert f.env == map[LC_A := []];
    assert OnOther(f, 1, second, true).fields.env == f.env[LC_A_X := []];
  }

  lemma SameNameTwice(host: seq<Bytes>)
    ensures FilterEnv(LC_A) && FilterEnv(LC_A_X) && NameIn(Entry(LC_A, [])) == NameIn(Entry(LC_A_X, [])) == LC_A
    ensures !NoClash(host, map[LC_A := [], LC_A_X := []], [])
  {
    hide FirstEqual;
    SplitUnique(LC_A, -1);
    SplitUnique(LC_A_X, 4);
    assert LC_A_X[..4] == LC_A;
    ResplitEntry(LC_A, []);
    ResplitEntry(LC_A_X, []);
    var env: map<Bytes, Bytes> := map[LC_A := [], LC_A_X := []];
    assert LC_A_X in env && HasEqual(LC_A_X) && Expected(host, env, [], LC_A).Some?;
  }

  lemma EnvRequestFor(name: Bytes) returns (r: Request)
    requires |name| < 100
    ensures r.kind.EnvRequest? && ParseEnvReq(r.payload) == Value(EnvReq(name, []))
  {
    hide ParseEnvReq;
    var payload := EncodeEnvReq(EnvReq(name, []));
    EnvReqExact(payload, EnvReq(name, []));
    r := Request(EnvRequest, true, payload);
  }

  // ----- the handlers, on a mutable state -----

  class SessionState {
    var pty: Option<PtyReq>
    var ptyMaster: bool
    var ptySlave: bool
    var envFromCh: map<Bytes, Bytes>
    var started: bool
    /** Everything done to the outside so far. */
    var events: seq<Event>

    function View(): Fields
      reads this
    {
      Fields(pty, ptyMaster, ptySlave, envFromCh, started)
    }

    /** Only filtered names are stored, and the pointers are set exactly when a PTY was granted. */
    predicate Valid()
      reads this
    {
      (forall k :: k in envFromCh ==> FilterEnv(k)) && ptyMaster == ptySlave == pty.Some?
    }

    constructor ()
      ensures Valid() && View() == FRESH && events == []
    {
      pty, ptyMaster, ptySlave, envFromCh, started, events := None, false, false, map[], false, [];
    }

    method Reply(i: nat, ok: bool)
      modifies this`events
      ensures events == old(events) + [Replied(i, ok)]
    {
      events := events + [Replied(i, ok)];
    }

    method HandlePtyReq(i: nat, req: Request, allocOk: bool)
      requires Valid()
      modifies this
      ensures Valid()
      ensures var o := OnPtyReq(old(View()), i, req, allocOk); View() == o.fields && events == old(events) + o.events
    {
      hide ParsePtyReq;
      if started { Reply(i, false); return; }
      if pty.Some? { Reply(i, false); return; }
      var p := ParsePtyReq(req.payload);
      if !p.Value? { Reply(i, false); return; }
      if !allocOk {
        events := events + [AllocFailed(i)];
        Reply(i, false);
        return;
      }
      events := events + [Allocated];
      events := events + [Resized(i, SizeOf(p.value))];
      pty, ptyMaster, ptySlave := Some(p.value), true, true;
      Reply(i, true);
    }

    method HandleEnv(i: nat, req: Request)
      requires Valid()
      modifies this
      ensures Valid()
      ensures var o := OnEnv(old(View()), i, req); View() == o.fields && events == old(events) + o.events
    {
      hide ParseEnvReq;
      if started { Reply(i, false); return; }
      var e := ParseEnvReq(req.payload);
      if !e.Value? { Reply(i, true); return; }
      if FilterEnv(e.value.name) {
        envFromCh := envFromCh[e.value.name := e.value.value];
      }
      Reply(i, true);
    }

    method HandleWindowChange(i: nat, req: Request)
      requires Valid()
      modifies this`events
      ensures var o := OnWindowChange(old(View()), i, req); View() == o.fields && events == old(events) + o.events
    {
      var w := ParseWindowChange(req.payload);
      if !w.Value? {
        if req.wantReply { Reply(i, false); }
        return;
      }
      if ptyMaster { events := events + [Resized(i, w.value)]; } else { events := events + [NoTerminal(i)]; }
      if req.wantReply { Reply(i, true); }
    }

    /** `preSpawnDispatch`: either the request commits the channel and nothing is answered yet,
        or it is handled on the spot. */
    method PreSpawnDispatch(i: nat, req: Request, allocOk: bool) returns (launch: Option<Launch>)
      requires Valid()
      modifies this
      ensures Valid() && launch == LaunchOf(req) && forall l :: launch == Some(l) <==> Asks(req, l)
      ensures launch.Some? ==> View() == old(View()) && events == old(events)
      ensures launch.None? ==>
                var o := OnOther(old(View()), i, req, allocOk); View() == o.fields && events == old(events) + o.events
    {
      forall l ensures LaunchOf(req) == Some(l) <==> Asks(req, l) { LaunchIsAsked(req, l); }
      launch := None;
      match req.kind {
        case PtyRequest => HandlePtyReq(i, req, allocOk);
        case EnvRequest => HandleEnv(i, req);
        case WindowChange => HandleWindowChange(i, req);
        case Shell => launch := Some(LaunchShell);
        case Exec =>
          var c := ParseSingleString(req.payload);
          if c.Value? { launch := Some(LaunchExec(c.value)); } else { Reply(i, false); }
        case Subsystem =>
          var n := ParseSingleString(req.payload);
          if n.Value? && n.value == SFTP { launch := Some(LaunchSftp); } else { Reply(i, false); }
        case Signal =>
        case X11 => if req.wantReply { Reply(i, false); }
        case Agent => if req.wantReply { Reply(i, false); }
        case Unknown => if req.wantReply { Reply(i, false); }
      }
    }

    /** The request loop of `Handle`, over the requests that arrive before the stream closes.
        The channel is committed by the first well-formed shell, exec or sftp request and by no
        other; all earlier requests have had their reply, and the state is what they add up to. */
    method RequestLoop(reqs: seq<Request>, allocOk: seq<bool>) returns (pending: Option<Launch>, consumed: nat)
      requires Valid() && View() == FRESH && events == [] && |allocOk| == |reqs|
      modifies this
      ensures Valid() && consumed <= |reqs| && Tracks(View(), reqs[..consumed], allocOk[..consumed])
      ensures pending.Some? ==>
                consumed >= 1 && LaunchOf(reqs[consumed - 1]) == pending && Asks(reqs[consumed - 1], pending.value)
      ensures pending.None? ==> consumed == |reqs|
      ensures forall j :: 0 <= j < (if pending.Some? then consumed - 1 else consumed) ==>
                Settled(reqs[j], events, j)
    {
      hide Tracks, OnOther, LaunchOf, Replies, FilterEnv;
      consumed, pending := 0, None;
      TracksFresh();
      assert reqs[..0] == [] && allocOk[..0] == [];
      NoRepliesYet();
      while consumed < |reqs|
        invariant Valid() && consumed <= |reqs| && pending.None?
        invariant Tracks(View(), reqs[..consumed], allocOk[..consumed])
        invariant forall j :: 0 <= j < consumed ==> Settled(reqs[j], events, j)
        invariant forall j :: consumed <= j ==> Replies(events, j) == 0
      {
        ghost var before, i := events, consumed;
        ghost var done := OnOther(View(), i, reqs[i], allocOk[i]).events;
        ghost var fields := View();
        TracksNext(fields, reqs, allocOk, i);
        pending := PreSpawnDispatch(consumed, reqs[consumed], allocOk[consumed]);
        consumed := consumed + 1;
        if pending.Some? { return; }
        forall j: nat
          ensures Replies(events, j) == if j == i then Replies(done, i) else Replies(before, j)
          ensures Replies(done, i) <= 1 && (Mandatory(reqs[i]) ==> Replies(done, i) == 1)
        {
          RepliesAppend(before, done, j);
          OtherRepliesOnce(fields, i, reqs[i], allocOk[i], j);
          OtherRepliesOnce(fields, i, reqs[i], allocOk[i], i);
        }
      }
    }

    /** The terminal type of the granted PTY, if any. */
    function Term(): Bytes
      reads this
    {
      if pty.Some? then pty.value.term else []
    }

    /** Whatever the host environment and whatever `env` requests came before, the child receives
        exactly the expected variables, every string carries a permitted name, and TERM is among
        them exactly when a PTY with a non-empty terminal type was granted. */
    method ChildEnv(host: seq<Bytes>) returns (out: seq<Bytes>)
      requires Valid()
      ensures forall i :: 0 <= i < |out| ==> IsExpected(host, envFromCh, Term(), out[i])
      ensures forall k :: Expected(host, envFromCh, Term(), k).Some? ==>
                Entry(k, Expected(host, envFromCh, Term(), k).value) in out
      ensures forall i :: 0 <= i < |out| ==> Allowed(NameIn(out[i]))
      ensures (forall i, j :: 0 <= i < j < |out| ==> NameIn(out[i]) != NameIn(out[j])) <==>
            NoClash(host, envFromCh, Term())
      ensures (exists i :: 0 <= i < |out| && NameIn(out[i]) == TERM) <==> pty.Some? && pty.value.term != []
    {
      hide Expected, IsExpected, FirstEqual, NoClash, Allowed, FilterEnv;
      var picked;
      ghost var order;
      picked, out, order := BuildEnv(host, envFromCh, Term());
      SeenOnceIffNoClash(host, envFromCh, Term(), picked, order, out);
      ListedExactly(host, envFromCh, Term(), picked, order, out);
      NamesListed(host, envFromCh, Term(), picked, order, out);
    }
  }
}
