/** The environment handed to a child process. */
module Environment {
  import opened Common

  const EQ: byte := 0x3d

  const HOME: Bytes := [0x48, 0x4f, 0x4d, 0x45]
  const USER: Bytes := [0x55, 0x53, 0x45, 0x52]
  const LOGNAME: Bytes := [0x4c, 0x4f, 0x47, 0x4e, 0x41, 0x4d, 0x45]
  const SHELL: Bytes := [0x53, 0x48, 0x45, 0x4c, 0x4c]
  const PATH: Bytes := [0x50, 0x41, 0x54, 0x48]
  const TERM: Bytes := [0x54, 0x45, 0x52, 0x4d]
  const LANG: Bytes := [0x4c, 0x41, 0x4e, 0x47]
  const LC_: Bytes := [0x4c, 0x43, 0x5f]

  predicate FilterEnv(name: Bytes) { name == LANG || (LC_ <= name && |name| > 3) }

  /** The variables taken from the host by exact name, in the order they are picked. */
  const INHERITED: seq<Bytes> := [HOME, USER, LOGNAME, SHELL, PATH]

  predicate Inherited(name: Bytes) { name in INHERITED }

  /** The three sources of names do not overlap. */
  lemma NamesApart(name: Bytes)
    ensures Inherited(name) ==> !FilterEnv(name) && name != TERM
    ensures !FilterEnv(TERM) && !Inherited(TERM)
  {
    assert TERM[0] == 0x54 && HOME[0] == 0x48 && USER[0] == 0x55 && SHELL[0] == 0x53 && PATH[0] == 0x50;
    assert |LOGNAME| == 7 && LOGNAME[1] == 0x4f && LC_[0] == 0x4c && LC_[1] == 0x43 && LANG[0] == 0x4c && |LANG| == 4;
    if Inherited(name) {
      assert name == HOME || name == USER || name == LOGNAME || name == SHELL || name == PATH;
    }
  }

  /** `i` is where `s` is first split: at its first '=', or -1 when it has none. */
  ghost predicate SplitsAt(s: Bytes, i: int) {
    && -1 <= i < |s|
    && (i >= 0 ==> s[i] == EQ)
    && (forall j :: 0 <= j < (if i < 0 then |s| else i) ==> s[j] != EQ)
  }

  function FirstEqual(s: Bytes): (i: int)
    ensures SplitsAt(s, i)
  {
    if s == [] then -1
    else if s[0] == EQ then 0
    else
      var i := FirstEqual(s[1..]);
      assert forall j :: 0 < j < |s| ==> s[j] == s[1..][j - 1];
      if i < 0 then -1 else i + 1
  }

  lemma SplitUnique(s: Bytes, i: int)
    requires SplitsAt(s, i)
    ensures FirstEqual(s) == i
  {
    assert SplitsAt(s, FirstEqual(s));
  }

  method IndexEqual(s: Bytes) returns (i: int)
    ensures i == FirstEqual(s)
  {
    i := 0;
    while i < |s|
      invariant 0 <= i <= |s|
      invariant forall j :: 0 <= j < i ==> s[j] != EQ
    {
      if s[i] == EQ {
        SplitUnique(s, i);
        return;
      }
      i := i + 1;
    }
    i := -1;
    SplitUnique(s, -1);
  }

  /** Host variable `kv` defines `name`. An entry that begins with '=' defines nothing. */
  predicate Defines(kv: Bytes, name: Bytes) { FirstEqual(kv) > 0 && kv[..FirstEqual(kv)] == name }

  /** The value of the last host variable that defines `name`. */
  function LastHost(src: seq<Bytes>, name: Bytes): Option<Bytes> {
    if src == [] then None
    else
      var kv := src[|src| - 1];
      if Defines(kv, name) then Some(kv[FirstEqual(kv) + 1..]) else LastHost(src[..|src| - 1], name)
  }

  lemma LastHostStep(src: seq<Bytes>, i: nat, name: Bytes)
    requires i < |src|
    ensures LastHost(src[..i + 1], name) ==
            if Defines(src[i], name) then Some(src[i][FirstEqual(src[i]) + 1..]) else LastHost(src[..i], name)
  {
    assert src[..i + 1][..i] == src[..i];
  }

  /** What the child must see for `name`. */
  function Expected(src: seq<Bytes>, channel: map<Bytes, Bytes>, term: Bytes, name: Bytes): Option<Bytes> {
    if name == TERM && term != [] then Some(term)
    else if name in channel then Some(channel[name])
    else if Inherited(name) || FilterEnv(name) then LastHost(src, name)
    else None
  }

  function WithHost(before: map<Bytes, Bytes>, src: seq<Bytes>, name: Bytes): map<Bytes, Bytes> {
    match LastHost(src, name)
    case Some(v) => before[name := v]
    case None => before
  }

  method Pick(src: seq<Bytes>, name: Bytes, before: map<Bytes, Bytes>) returns (picked: map<Bytes, Bytes>)
    ensures picked == WithHost(before, src, name)
  {
    picked := before;
    var i := 0;
    while i < |src|
      invariant 0 <= i <= |src|
      invariant picked == WithHost(before, src[..i], name)
    {
      LastHostStep(src, i, name);
      var eq := IndexEqual(src[i]);
      if eq > 0 && src[i][..eq] == name {
        picked := picked[name := src[i][eq + 1..]];
      }
      i := i + 1;
    }
    assert src[..|src|] == src;
  }

  ghost predicate Agrees(picked: map<Bytes, Bytes>, name: Bytes, v: Option<Bytes>) {
    if v.Some? then name in picked && picked[name] == v.value else name !in picked
  }

  method PickLocale(src: seq<Bytes>, before: map<Bytes, Bytes>) returns (picked: map<Bytes, Bytes>)
    requires forall k :: FilterEnv(k) ==> k !in before
    ensures forall k :: FilterEnv(k) ==> Agrees(picked, k, LastHost(src, k))
    ensures forall k :: !FilterEnv(k) ==> (k in picked <==> k in before) && (k in before ==> picked[k] == before[k])
  {
    picked := before;
    var i := 0;
    while i < |src|
      invariant 0 <= i <= |src|
      invariant forall k :: FilterEnv(k) ==> Agrees(picked, k, LastHost(src[..i], k))
      invariant forall k :: !FilterEnv(k) ==> (k in picked <==> k in before) && (k in before ==> picked[k] == before[k])
    {
      forall k
        ensures LastHost(src[..i + 1], k) ==
                if Defines(src[i], k) then Some(src[i][FirstEqual(src[i]) + 1..]) else LastHost(src[..i], k)
      {
        LastHostStep(src, i, k);
      }
      var eq := IndexEqual(src[i]);
      if eq > 0 {
        var k := src[i][..eq];
        if FilterEnv(k) {
          picked := picked[k := src[i][eq + 1..]];
        }
      }
      i := i + 1;
    }
    assert src[..|src|] == src;
  }

  method PickInherited(src: seq<Bytes>) returns (picked: map<Bytes, Bytes>)
    ensures forall k :: Inherited(k) ==> Agrees(picked, k, LastHost(src, k))
    ensures forall k :: !Inherited(k) ==> k !in picked
  {
    picked := map[];
    var i := 0;
    while i < |INHERITED|
      invariant 0 <= i <= |INHERITED|
      invariant forall k :: k in INHERITED[..i] ==> Agrees(picked, k, LastHost(src, k))
      invariant forall k :: k !in INHERITED[..i] ==> k !in picked
    {
      assert INHERITED[..i + 1] == INHERITED[..i] + [INHERITED[i]];
      picked := Pick(src, INHERITED[i], picked);
      i := i + 1;
    }
    assert INHERITED[..|INHERITED|] == INHERITED;
  }

  function Entry(name: Bytes, value: Bytes): Bytes { name + [EQ] + value }

  /** The strings are one "name=value" per variable, in the given order of the names. */
  ghost predicate Lists(picked: map<Bytes, Bytes>, order: seq<Bytes>, out: seq<Bytes>) {
    && |out| == |order| && (forall k :: k in picked <==> k in order)
    && (forall i, j :: 0 <= i < j < |order| ==> order[i] != order[j])
    && (forall i :: 0 <= i < |out| ==> order[i] in picked && out[i] == Entry(order[i], picked[order[i]]))
  }

  /** Map iteration order is unspecified: some order of the names. */
  method Render(picked: map<Bytes, Bytes>) returns (out: seq<Bytes>, ghost order: seq<Bytes>)
    ensures Lists(picked, order, out)
  {
    out, order := [], [];
    var todo := picked.Keys;
    while todo != {}
      invariant todo <= picked.Keys && |out| == |order|
      invariant forall k :: k in picked <==> k in order || k in todo
      invariant forall k :: k in order ==> k !in todo
      invariant forall i, j :: 0 <= i < j < |order| ==> order[i] != order[j]
      invariant forall i :: 0 <= i < |out| ==> order[i] in picked && out[i] == Entry(order[i], picked[order[i]])
      decreases |todo|
    {
      var k :| k in todo;
      out, order := out + [Entry(k, picked[k])], order + [k];
      todo := todo - {k};
    }
  }

  /** Every variable of the child is exactly what `Expected` says, and nothing else is passed. */
  method BuildEnv(src: seq<Bytes>, channel: map<Bytes, Bytes>, term: Bytes)
    returns (picked: map<Bytes, Bytes>, out: seq<Bytes>, ghost order: seq<Bytes>)
    ensures forall k :: Agrees(picked, k, Expected(src, channel, term, k))
    ensures Lists(picked, order, out)
  {
    var inherited := PickInherited(src);
    forall k | FilterEnv(k) ensures k !in inherited { NamesApart(k); }
    var host := PickLocale(src, inherited);
    picked := host + channel;
    if term != [] {
      picked := picked[TERM := term];
    }
    forall k ensures Agrees(picked, k, Expected(src, channel, term, k)) {
      NamesApart(k);
      assert Agrees(host, k, if Inherited(k) || FilterEnv(k) then LastHost(src, k) else None);
    }
    out, order := Render(picked);
  }

  // ----- what a child makes of the strings -----

  /** The name a child sees in an entry: everything before its first '='. */
  function NameIn(kv: Bytes): Bytes { if FirstEqual(kv) < 0 then kv else kv[..FirstEqual(kv)] }

  /** Re-splitting an entry cuts the name at its own first '=', if it has one. */
  lemma ResplitEntry(name: Bytes, value: Bytes)
    ensures NameIn(Entry(name, value)) == NameIn(name)
  {
    var i := FirstEqual(name);
    var j := if i < 0 then |name| else i;
    assert SplitsAt(Entry(name, value), j);
    SplitUnique(Entry(name, value), j);
    assert Entry(name, value)[..j] == name[..j];
  }

  predicate Allowed(name: Bytes) { Inherited(name) || name == TERM || name == LANG || LC_ <= name }

  lemma PlainName(name: Bytes)
    requires Inherited(name) || name == TERM || name == LANG
    ensures NameIn(name) == name
  {
    SplitUnique(name, -1);
  }

  lemma LocaleName(name: Bytes)
    requires LC_ <= name
    ensures LC_ <= NameIn(name)
  {
    assert name[0] == 0x4c && name[1] == 0x43 && name[2] == 0x5f;
    assert SplitsAt(name, FirstEqual(name));
  }

  /** However a client spells its variable names, each string the child receives carries one of
      the permitted names, and TERM appears exactly when a terminal type was requested. */
  lemma OnlyPermittedNames(src: seq<Bytes>, channel: map<Bytes, Bytes>, term: Bytes, picked: map<Bytes, Bytes>,
                           name: Bytes)
    requires forall k :: k in channel ==> FilterEnv(k)
    requires forall k :: Agrees(picked, k, Expected(src, channel, term, k))
    requires name in picked
    ensures var seen := NameIn(Entry(name, picked[name]));
            Allowed(seen) && (seen == TERM ==> name == TERM && term != [] && picked[name] == term)
  {
    assert Agrees(picked, name, Expected(src, channel, term, name));
    ResplitEntry(name, picked[name]);
    if LC_ <= name {
      LocaleName(name);
    } else {
      PlainName(name);
    }
  }

  lemma TermIffTerminal(src: seq<Bytes>, channel: map<Bytes, Bytes>, term: Bytes, picked: map<Bytes, Bytes>)
    requires forall k :: k in channel ==> FilterEnv(k)
    requires forall k :: Agrees(picked, k, Expected(src, channel, term, k))
    ensures TERM in picked <==> term != []
  {
    NamesApart(TERM);
    assert Agrees(picked, TERM, Expected(src, channel, term, TERM));
  }

  // ----- names a child sees twice -----

  predicate HasEqual(name: Bytes) { FirstEqual(name) >= 0 }

  lemma {:induction false} HostNamesArePlain(src: seq<Bytes>, name: Bytes)
    requires LastHost(src, name).Some?
    ensures !HasEqual(name)
  {
    var kv := src[|src| - 1];
    if Defines(kv, name) { SplitUnique(name, -1); } else { HostNamesArePlain(src[..|src| - 1], name); }
  }

  /** Only a client can bring a '=' into a name. */
  lemma OddNamesAreSent(src: seq<Bytes>, channel: map<Bytes, Bytes>, term: Bytes, name: Bytes)
    requires Expected(src, channel, term, name).Some? && HasEqual(name)
    ensures name in channel
  {
    if name == TERM { PlainName(TERM); }
    if name !in channel && LastHost(src, name).Some? { HostNamesArePlain(src, name); }
  }

  lemma PlainNameIn(name: Bytes)
    ensures NameIn(name) == name <==> !HasEqual(name)
    ensures !HasEqual(NameIn(name))
  {
    SplitUnique(NameIn(name), -1);
  }

  /** No name with a '=' in it stands, up to that '=', for a variable the child gets anyway, or for
      the same as another name the client sent. */
  ghost predicate NoClash(src: seq<Bytes>, channel: map<Bytes, Bytes>, term: Bytes) {
    forall c :: c in channel && HasEqual(c) ==>
      && Expected(src, channel, term, NameIn(c)).None?
      && forall d :: d in channel && d != c ==> NameIn(d) != NameIn(c)
  }

  ghost predicate NamesDistinct(picked: map<Bytes, Bytes>) {
    forall j, k :: j in picked && k in picked && NameIn(j) == NameIn(k) ==> j == k
  }

  /** The child sees every name at most once if and only if no sent name clashes; in particular if
      none contains a '='. */
  lemma NamesDistinctIffNoClash(src: seq<Bytes>, channel: map<Bytes, Bytes>, term: Bytes, picked: map<Bytes, Bytes>)
    requires forall k :: Agrees(picked, k, Expected(src, channel, term, k))
    requires forall k :: k in channel ==> FilterEnv(k)
    ensures NamesDistinct(picked) <==> NoClash(src, channel, term)
    ensures (forall c :: c in channel ==> !HasEqual(c)) ==> NamesDistinct(picked)
  {
    hide Expected, HasEqual, NameIn, FilterEnv;
    assert forall k :: k in picked <==> Expected(src, channel, term, k).Some? by {
      assert forall k :: Agrees(picked, k, Expected(src, channel, term, k));
    }
    forall c | c in channel ensures c in picked { SentIsExpected(src, channel, term, c); }
    if NamesDistinct(picked) {
      forall c | c in channel && HasEqual(c)
        ensures Expected(src, channel, term, NameIn(c)).None?
        ensures forall d :: d in channel && d != c ==> NameIn(d) != NameIn(c)
      {
        PlainNameIn(c);
        PlainNameIn(NameIn(c));
        assert c in picked;
      }
    }
    if NoClash(src, channel, term) {
      forall j, k | j in picked && k in picked && NameIn(j) == NameIn(k) ensures j == k {
        PlainNameIn(j);
        PlainNameIn(k);
        if HasEqual(j) { OddNamesAreSent(src, channel, term, j); }
        if HasEqual(k) { OddNamesAreSent(src, channel, term, k); }
      }
    }
  }

  lemma SentIsExpected(src: seq<Bytes>, channel: map<Bytes, Bytes>, term: Bytes, name: Bytes)
    requires name in channel
    ensures Expected(src, channel, term, name).Some?
  {
  }

  /** The same for the strings the child receives. */
  lemma SeenOnceIffNoClash(src: seq<Bytes>, channel: map<Bytes, Bytes>, term: Bytes, picked: map<Bytes, Bytes>,
                           order: seq<Bytes>, out: seq<Bytes>)
    requires forall k :: Agrees(picked, k, Expected(src, channel, term, k))
    requires (forall k :: k in channel ==> FilterEnv(k)) && Lists(picked, order, out)
    ensures (forall i, j :: 0 <= i < j < |out| ==> NameIn(out[i]) != NameIn(out[j])) <==> NoClash(src, channel, term)
  {
    hide Expected, NameIn, FilterEnv, NoClash, Agrees;
    NamesDistinctIffNoClash(src, channel, term, picked);
    forall i | 0 <= i < |out| ensures NameIn(out[i]) == NameIn(order[i]) { ResplitEntry(order[i], picked[order[i]]); }
    if forall i, j :: 0 <= i < j < |out| ==> NameIn(out[i]) != NameIn(out[j]) {
      forall j, k | j in picked && k in picked && NameIn(j) == NameIn(k) ensures j == k {
        var x :| 0 <= x < |order| && order[x] == j;
        var y :| 0 <= y < |order| && order[y] == k;
        assert x == y;
      }
    }
    if NamesDistinct(picked) {
      forall i, j | 0 <= i < j < |out| ensures NameIn(out[i]) != NameIn(out[j]) {
        assert order[i] != order[j];
      }
    }
  }

  /** The string is an expected variable with its expected value. */
  ghost predicate IsExpected(src: seq<Bytes>, channel: map<Bytes, Bytes>, term: Bytes, kv: Bytes) {
    exists k :: var v := Expected(src, channel, term, k); v.Some? && kv == Entry(k, v.value)
  }

  /** The strings are exactly the expected variables. */
  lemma ListedExactly(src: seq<Bytes>, channel: map<Bytes, Bytes>, term: Bytes, picked: map<Bytes, Bytes>,
                      order: seq<Bytes>, out: seq<Bytes>)
    requires (forall k :: Agrees(picked, k, Expected(src, channel, term, k))) && Lists(picked, order, out)
    ensures forall i :: 0 <= i < |out| ==> IsExpected(src, channel, term, out[i])
    ensures forall k :: Expected(src, channel, term, k).Some? ==> Entry(k, Expected(src, channel, term, k).value) in out
  {
    hide Expected, Entry;
    forall i | 0 <= i < |out| ensures IsExpected(src, channel, term, out[i]) {
      assert Agrees(picked, order[i], Expected(src, channel, term, order[i]));
      assert Expected(src, channel, term, order[i]) == Some(picked[order[i]]);
    }
    forall k | Expected(src, channel, term, k).Some? ensures Entry(k, Expected(src, channel, term, k).value) in out {
      assert Agrees(picked, k, Expected(src, channel, term, k));
      var x :| 0 <= x < |order| && order[x] == k;
      assert out[x] == Entry(k, picked[k]);
    }
  }

  /** Their names are permitted ones, and TERM is among them exactly for a terminal. */
  lemma NamesListed(src: seq<Bytes>, channel: map<Bytes, Bytes>, term: Bytes, picked: map<Bytes, Bytes>,
                    order: seq<Bytes>, out: seq<Bytes>)
    requires (forall k :: Agrees(picked, k, Expected(src, channel, term, k))) && Lists(picked, order, out)
    requires forall k :: k in channel ==> FilterEnv(k)
    ensures forall i :: 0 <= i < |out| ==> Allowed(NameIn(out[i]))
    ensures (exists i :: 0 <= i < |out| && NameIn(out[i]) == TERM) <==> term != []
  {
    hide Expected, FirstEqual, FilterEnv, Allowed, Agrees;
    forall i | 0 <= i < |out| ensures Allowed(NameIn(out[i])) && (NameIn(out[i]) == TERM ==> term != []) {
      OnlyPermittedNames(src, channel, term, picked, order[i]);
    }
    if term != [] {
      TermIffTerminal(src, channel, term, picked);
      ResplitEntry(TERM, picked[TERM]);
      PlainName(TERM);
      var x :| 0 <= x < |order| && order[x] == TERM;
      assert NameIn(out[x]) == TERM;
    }
  }

  // ----- which variables, by name -----

  /** A host string defines a name exactly if it is that name, '=', and a value, where the name is not
      empty and has no '=' in it. */
  lemma DefinesMeans(kv: Bytes, name: Bytes)
    ensures Defines(kv, name) <==> name != [] && !HasEqual(name) && exists v :: kv == Entry(name, v)
  {
    if Defines(kv, name) {
      SplitUnique(name, -1);
      assert kv == Entry(name, kv[FirstEqual(kv) + 1..]);
    }
    if v :| name != [] && !HasEqual(name) && kv == Entry(name, v) {
      SplitUnique(kv, |name|);
    }
  }

  /** The host's value is that of the last string that defines the name. */
  lemma {:induction false} LastHostMeans(src: seq<Bytes>, name: Bytes, v: Bytes)
    ensures LastHost(src, name) == Some(v) <==>
            exists i :: 0 <= i < |src| && Defines(src[i], name) && src[i] == Entry(name, v)
                        && forall j :: i < j < |src| ==> !Defines(src[j], name)
  {
    if src != [] {
      var n := |src| - 1;
      LastHostMeans(src[..n], name, v);
      assert forall j :: 0 <= j < n ==> src[..n][j] == src[j];
      if Defines(src[n], name) {
        assert src[n] == Entry(name, src[n][FirstEqual(src[n]) + 1..]);
        EntryValue(name, src[n][FirstEqual(src[n]) + 1..], v);
      }
    }
  }

  lemma EntryValue(name: Bytes, v: Bytes, w: Bytes)
    ensures Entry(name, v) == Entry(name, w) <==> v == w
  {
    if Entry(name, v) == Entry(name, w) {
      assert Entry(name, v)[|name| + 1..] == v && Entry(name, w)[|name| + 1..] == w;
    }
  }

  /** HOME, USER, LOGNAME, SHELL, PATH, LANG, or LC_ and something more. */
  predicate PassedOn(name: Bytes) {
    || name == [0x48, 0x4f, 0x4d, 0x45] || name == [0x55, 0x53, 0x45, 0x52]
    || name == [0x4c, 0x4f, 0x47, 0x4e, 0x41, 0x4d, 0x45] || name == [0x53, 0x48, 0x45, 0x4c, 0x4c]
    || name == [0x50, 0x41, 0x54, 0x48] || name == [0x4c, 0x41, 0x4e, 0x47]
    || ([0x4c, 0x43, 0x5f] <= name && |name| > 3)
  }

  /** A terminal type becomes TERM; any other value sent by the client wins over the host's; of the
      host's own variables exactly the named ones are passed on, and nothing else is. */
  lemma ExpectedMeans(src: seq<Bytes>, channel: map<Bytes, Bytes>, term: Bytes, name: Bytes)
    ensures Expected(src, channel, term, name) ==
            if name == [0x54, 0x45, 0x52, 0x4d] && term != [] then Some(term)
            else if name in channel then Some(channel[name])
            else if PassedOn(name) then LastHost(src, name)
            else None
  {
    hide LastHost;
    assert PassedOn(name) <==> Inherited(name) || FilterEnv(name);
  }

  /** What a client may set: LANG, or LC_ and something more. */
  lemma SettableNames(name: Bytes)
    ensures FilterEnv(name) <==> name == [0x4c, 0x41, 0x4e, 0x47] || ([0x4c, 0x43, 0x5f] <= name && |name| > 3)
  {
  }
}
