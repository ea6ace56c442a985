/** The text `encoding/json` puts between the quotes of a string, byte by byte. */
module JsonEscape {
  import opened Common
  import opened Scrub

  const BSLASH: byte := 0x5c
  const QUOTE: byte := 0x22

  function Hex(n: int): (c: byte)
    requires 0 <= n < 16
    ensures EscapeAlphabet(c) && c != BSLASH
  {
    if n < 10 then (0x30 + n) as byte else (0x57 + n) as byte
  }

  /** ASCII that is copied: printable, and neither a quote, a backslash, nor one of "<>&". */
  predicate Plain(c: byte) { 0x20 <= c < 0x80 && c != QUOTE && c != BSLASH && c != 0x3c && c != 0x3e && c != 0x26 }

  function EscapeAscii(c: byte): Bytes
    requires c < 0x80
  {
    if Plain(c) then [c]
    else if c == QUOTE || c == BSLASH then [BSLASH, c]
    else if c == 0x08 then [BSLASH, 0x62]
    else if c == 0x0c then [BSLASH, 0x66]
    else if c == 0x0a then [BSLASH, 0x6e]
    else if c == 0x0d then [BSLASH, 0x72]
    else if c == 0x09 then [BSLASH, 0x74]
    else [BSLASH, 0x75, 0x30, 0x30, Hex(c as int / 16), Hex(c as int % 16)]
  }

  predicate Within(b: Bytes, i: nat, lo: byte, hi: byte) { i < |b| && lo <= b[i] <= hi }

  /** The length of the well-formed multi-byte UTF-8 sequence that `b` begins with, or 0. */
  function RuneSize(b: Bytes): nat
    requires b != [] && b[0] >= 0x80
  {
    var c := b[0];
    if 0xc2 <= c <= 0xdf then (if Within(b, 1, 0x80, 0xbf) then 2 else 0)
    else if 0xe0 <= c <= 0xef then
      var lo := if c == 0xe0 then 0xa0 else 0x80;
      var hi := if c == 0xed then 0x9f else 0xbf;
      if Within(b, 1, lo, hi) && Within(b, 2, 0x80, 0xbf) then 3 else 0
    else if 0xf0 <= c <= 0xf4 then
      var lo := if c == 0xf0 then 0x90 else 0x80;
      var hi := if c == 0xf4 then 0x8f else 0xbf;
      if Within(b, 1, lo, hi) && Within(b, 2, 0x80, 0xbf) && Within(b, 3, 0x80, 0xbf) then 4 else 0
    else 0
  }

  /** The UTF-8 encoding of a code point outside ASCII. */
  function Utf8(cp: int): Bytes
    requires 0x80 <= cp <= 0x10ffff
  {
    if cp < 0x800 then [(0xc0 + cp / 64) as byte, (0x80 + cp % 64) as byte]
    else if cp < 0x1_0000 then
      [(0xe0 + cp / 4096) as byte, (0x80 + cp / 64 % 64) as byte, (0x80 + cp % 64) as byte]
    else
      [(0xf0 + cp / 262144) as byte, (0x80 + cp / 4096 % 64) as byte, (0x80 + cp / 64 % 64) as byte,
       (0x80 + cp % 64) as byte]
  }

  /** A Unicode scalar value outside ASCII: no surrogate. */
  predicate Scalar(cp: int) { 0x80 <= cp <= 0x10ffff && !(0xd800 <= cp <= 0xdfff) }

  lemma RuneIsScalar(cp: int, rest: Bytes)
    requires Scalar(cp)
    ensures var b := Utf8(cp) + rest; b != [] && b[0] >= 0x80 && RuneSize(b) == |Utf8(cp)|
  {
    hide RuneSize, Utf8;
    if cp < 0x800 {
      TwoByteRune(cp, rest);
    } else if cp < 0x1_0000 {
      ThreeByteRune(cp, rest);
    } else {
      FourByteRune(cp, rest);
    }
  }

  lemma TwoByteRune(cp: int, rest: Bytes)
    requires 0x80 <= cp < 0x800
    ensures var b := Utf8(cp) + rest; b != [] && b[0] >= 0x80 && RuneSize(b) == |Utf8(cp)|
  {
    assert 2 <= cp / 64 < 32;
  }

  lemma ThreeByteRune(cp: int, rest: Bytes)
    requires 0x800 <= cp < 0x1_0000 && Scalar(cp)
    ensures var b := Utf8(cp) + rest; b != [] && b[0] >= 0x80 && RuneSize(b) == |Utf8(cp)|
  {
    var x, y := cp / 4096, cp / 64 % 64;
    assert cp / 64 == x * 64 + y;
    assert 0 <= x < 16 && (x == 0 ==> y >= 0x20) && (x == 0xd ==> y < 0x20);
  }

  lemma FourByteRune(cp: int, rest: Bytes)
    requires 0x1_0000 <= cp <= 0x10ffff
    ensures var b := Utf8(cp) + rest; b != [] && b[0] >= 0x80 && RuneSize(b) == |Utf8(cp)|
  {
    var x, y := cp / 262144, cp / 4096 % 64;
    assert cp / 4096 == x * 64 + y;
    assert 0 <= x <= 4 && (x == 0 ==> y >= 0x10) && (x == 4 ==> y < 0x10);
  }

  lemma Digit64(a: int, b: int)
    requires 0 <= b < 64
    ensures (a * 64 + b) / 64 == a && (a * 64 + b) % 64 == b
  {
  }

  lemma ScalarOfTwo(b: Bytes) returns (cp: int)
    requires b != [] && b[0] >= 0x80 && RuneSize(b) == 2
    ensures Scalar(cp) && Utf8(cp) == b[..2]
  {
    var x, y := b[0] as int - 0xc0, b[1] as int - 0x80;
    cp := x * 64 + y;
    Digit64(x, y);
  }

  lemma ScalarOfThree(b: Bytes) returns (cp: int)
    requires b != [] && b[0] >= 0x80 && RuneSize(b) == 3
    ensures Scalar(cp) && Utf8(cp) == b[..3]
  {
    var x, y, z := b[0] as int - 0xe0, b[1] as int - 0x80, b[2] as int - 0x80;
    cp := (x * 64 + y) * 64 + z;
    Digit64(x * 64 + y, z);
    Digit64(x, y);
    assert cp / 4096 == cp / 64 / 64;
  }

  lemma ScalarOfFour(b: Bytes) returns (cp: int)
    requires b != [] && b[0] >= 0x80 && RuneSize(b) == 4
    ensures Scalar(cp) && Utf8(cp) == b[..4]
  {
    var x, y, z, w := b[0] as int - 0xf0, b[1] as int - 0x80, b[2] as int - 0x80, b[3] as int - 0x80;
    cp := ((x * 64 + y) * 64 + z) * 64 + w;
    Digit64((x * 64 + y) * 64 + z, w);
    Digit64(x * 64 + y, z);
    Digit64(x, y);
    assert cp / 4096 == cp / 64 / 64 && cp / 262144 == cp / 64 / 64 / 64;
  }

  lemma ScalarOfRune(b: Bytes) returns (cp: int)
    requires b != [] && b[0] >= 0x80 && RuneSize(b) > 0
    ensures Scalar(cp) && Utf8(cp) <= b
  {
    hide Utf8, Scalar;
    if RuneSize(b) == 2 {
      cp := ScalarOfTwo(b);
    } else if RuneSize(b) == 3 {
      cp := ScalarOfThree(b);
    } else {
      cp := ScalarOfFour(b);
    }
  }

  /** Exactly the UTF-8 encodings of scalar values outside ASCII are taken for runes. */
  lemma RuneSizeExact(b: Bytes)
    requires b != [] && b[0] >= 0x80
    ensures RuneSize(b) > 0 <==> exists cp :: Scalar(cp) && Utf8(cp) <= b
  {
    hide RuneSize, Utf8;
    if RuneSize(b) > 0 { var cp := ScalarOfRune(b); }
    if cp :| Scalar(cp) && Utf8(cp) <= b {
      assert b == Utf8(cp) + b[|Utf8(cp)|..];
      RuneIsScalar(cp, b[|Utf8(cp)|..]);
      Utf8NotEmpty(cp);
    }
  }

  lemma Utf8NotEmpty(cp: int)
    requires Scalar(cp)
    ensures |Utf8(cp)| >= 2
  {
  }

  /** How much of `b` is encoded first: one byte, or one multi-byte rune ... */
  function HeadLen(b: Bytes): (k: nat)
    requires b != []
    ensures 1 <= k <= |b|
  {
    if b[0] < 0x80 || RuneSize(b) == 0 then 1 else RuneSize(b)
  }

  /** ... and as what: ASCII by its own rules, a byte that is not UTF-8 as the replacement
      character, the two line separators escaped, any other rune as it is. */
  function HeadCode(b: Bytes): Bytes
    requires b != []
  {
    if b[0] < 0x80 then EscapeAscii(b[0])
    else if RuneSize(b) == 0 then [BSLASH, 0x75, 0x66, 0x66, 0x66, 0x64]
    else if b[..RuneSize(b)] == [0xe2, 0x80, 0xa8] then [BSLASH, 0x75, 0x32, 0x30, 0x32, 0x38]
    else if b[..RuneSize(b)] == [0xe2, 0x80, 0xa9] then [BSLASH, 0x75, 0x32, 0x30, 0x32, 0x39]
    else b[..RuneSize(b)]
  }

  function Escape(b: Bytes): Bytes
    decreases |b|
  {
    if b == [] then [] else HeadCode(b) + Escape(b[HeadLen(b)..])
  }

  /** A quote, a line feed, a control character, "<", and a byte that is not UTF-8. */
  lemma SampleEscapes()
    ensures Escape([0x22]) == [0x5c, 0x22] && Escape([0x0a]) == [0x5c, 0x6e]
    ensures Escape([0x1f]) == [0x5c, 0x75, 0x30, 0x30, 0x31, 0x66]
    ensures Escape([0x3c]) == [0x5c, 0x75, 0x30, 0x30, 0x33, 0x63]
    ensures Escape([0xff]) == [0x5c, 0x75, 0x66, 0x66, 0x66, 0x64]
  {
    hide Escape;
    SingleByte(0x22);
    SingleByte(0x0a);
    SingleByte(0x1f);
    SingleByte(0x3c);
    SingleByte(0xff);
  }

  /** A rune is copied, except for the two line separators. */
  lemma RuneEscaped(b: Bytes)
    requires b != [] && b[0] >= 0x80 && RuneSize(b) == |b|
    ensures Escape(b) == if b == [0xe2, 0x80, 0xa8] then [0x5c, 0x75, 0x32, 0x30, 0x32, 0x38]
                         else if b == [0xe2, 0x80, 0xa9] then [0x5c, 0x75, 0x32, 0x30, 0x32, 0x39]
                         else b
  {
    hide RuneSize;
    assert b[..|b|] == b && b[|b|..] == [];
  }

  lemma SingleByte(c: byte)
    ensures Escape([c]) == HeadCode([c])
  {
    assert HeadLen([c]) == 1 && [c][1..] == [];
  }

  /** Nothing in the escaped text is a control character or one of "<>&". */
  lemma {:induction false} EscapedIsPlain(b: Bytes)
    ensures forall i :: 0 <= i < |Escape(b)| ==>
              Escape(b)[i] >= 0x20 && Escape(b)[i] != 0x3c && Escape(b)[i] != 0x3e && Escape(b)[i] != 0x26
    decreases |b|
  {
    hide HeadCode, RuneSize;
    if b != [] {
      HeadShape(b);
      EscapedIsPlain(b[HeadLen(b)..]);
    }
  }

  // ----- what one step does -----

  function Count(b: Bytes, c: byte): nat {
    if b == [] then 0 else (if b[0] == c then 1 else 0) + Count(b[1..], c)
  }

  lemma {:induction false} CountAppend(a: Bytes, b: Bytes, c: byte)
    ensures Count(a + b, c) == Count(a, c) + Count(b, c)
  {
    if a == [] {
      assert a + b == b;
    } else {
      assert (a + b)[1..] == a[1..] + b;
      CountAppend(a[1..], b, c);
    }
  }

  lemma {:induction false} CountAbsent(b: Bytes, c: byte)
    requires forall i :: 0 <= i < |b| ==> b[i] != c
    ensures Count(b, c) == 0
  {
    if b != [] { CountAbsent(b[1..], c); }
  }

  /** A byte of the marker is copied as it is. */
  lemma MarkerByte(c: byte)
    requires c in REDACTED
    ensures Plain(c) && !EscapeAlphabet(c)
  {
  }

  /** The head is copied, as one plain byte or as a rune without ASCII; or it becomes a backslash
      followed by bytes of the escape alphabet. */
  lemma HeadShape(b: Bytes)
    requires b != []
    ensures var k, code := HeadLen(b), HeadCode(b);
            || (code == b[..k]
                && (if b[0] < 0x80 then k == 1 && Plain(b[0]) else forall i :: 0 <= i < k ==> b[i] >= 0x80))
            || (|code| >= 2 && |code| >= k && code[0] == BSLASH
                && (forall i :: 0 <= i < |code| ==> EscapeAlphabet(code[i])))
  {
    if b[0] < 0x80 { assert b[..1] == [b[0]]; }
  }

  lemma HeadNotShorter(b: Bytes)
    requires b != []
    ensures |HeadCode(b)| >= HeadLen(b)
  {
    HeadShape(b);
  }

  /** An escape has more backslashes than what it stands for. */
  lemma HeadBackslashes(b: Bytes)
    requires b != []
    ensures var k, code := HeadLen(b), HeadCode(b);
            code == b[..k] || Count(code, BSLASH) > Count(b[..k], BSLASH)
  {
    hide Hex, RuneSize;
    var k, code := HeadLen(b), HeadCode(b);
    HeadShape(b);
    if code != b[..k] {
      assert code[..1] + code[1..] == code;
      CountAppend(code[..1], code[1..], BSLASH);
      assert Count(code[..1], BSLASH) == 1;
      if b[0] == BSLASH {
        assert code[1..] == [BSLASH] && b[..k] == [BSLASH];
      } else {
        NoBackslash(b);
        CountAbsent(b[..k], BSLASH);
      }
    }
  }

  lemma NoBackslash(b: Bytes)
    requires b != [] && b[0] != BSLASH
    ensures forall i :: 0 <= i < HeadLen(b) ==> b[i] != BSLASH
  {
  }

  /** The head of a text is decided before its next ASCII byte. */
  lemma HeadLocal(x: Bytes, y: Bytes)
    requires x != [] && y != [] && y[0] < 0x80
    ensures HeadLen(x + y) == HeadLen(x) && HeadCode(x + y) == HeadCode(x)
  {
    assert (x + y)[0] == x[0] && (x + y)[|x|] == y[0];
    if x[0] >= 0x80 {
      SameRune(x, y);
      if RuneSize(x) > 0 { assert (x + y)[..RuneSize(x)] == x[..RuneSize(x)]; }
    }
  }

  lemma SameRune(x: Bytes, y: Bytes)
    requires x != [] && x[0] >= 0x80 && y != [] && y[0] < 0x80
    ensures RuneSize(x + y) == RuneSize(x) && RuneSize(x) <= |x|
  {
    var b := x + y;
    assert b[0] == x[0] && b[|x|] == y[0];
    assert forall i :: 0 <= i < |x| ==> b[i] == x[i];
    if |x| == 1 { assert b[1] == y[0]; }
    if |x| == 2 { assert b[2] == y[0]; }
    if |x| == 3 { assert b[3] == y[0]; }
  }

  // ----- what the whole escape does -----

  lemma {:induction false} NotShorter(b: Bytes)
    ensures |Escape(b)| >= |b|
    decreases |b|
  {
    if b != [] {
      HeadNotShorter(b);
      NotShorter(b[HeadLen(b)..]);
    }
  }

  lemma {:induction false} MoreBackslashes(b: Bytes)
    ensures Escape(b) == b || Count(Escape(b), BSLASH) > Count(b, BSLASH)
    ensures Count(Escape(b), BSLASH) >= Count(b, BSLASH)
    decreases |b|
  {
    hide HeadCode, Escape;
    EscapeNothing();
    if b != [] {
      var k := HeadLen(b);
      Unfold(b);
      HeadBackslashes(b);
      MoreBackslashes(b[k..]);
      assert b == b[..k] + b[k..];
      CountAppend(b[..k], b[k..], BSLASH);
      CountAppend(HeadCode(b), Escape(b[k..]), BSLASH);
    }
  }

  lemma Unfold(b: Bytes)
    requires b != []
    ensures Escape(b) == HeadCode(b) + Escape(b[HeadLen(b)..])
  {
    hide HeadCode, HeadLen;
  }

  lemma EscapeNothing()
    ensures Escape([]) == []
  {
  }

  /** Escaping works on each side of an ASCII byte by itself. */
  lemma {:induction false} EscapeSplits(x: Bytes, y: Bytes)
    requires y != [] && y[0] < 0x80
    ensures Escape(x + y) == Escape(x) + Escape(y)
    decreases |x|
  {
    hide HeadCode, HeadLen, Escape;
    if x == [] {
      assert x + y == y;
      EscapeNothing();
    } else {
      var k := HeadLen(x);
      HeadLocal(x, y);
      Unfold(x);
      Unfold(x + y);
      assert (x + y)[k..] == x[k..] + y;
      EscapeSplits(x[k..], y);
      assert HeadCode(x) + (Escape(x[k..]) + Escape(y)) == (HeadCode(x) + Escape(x[k..])) + Escape(y);
    }
  }

  lemma EscapeSplitsAfter(x: Bytes, y: Bytes)
    requires x != [] && x[|x| - 1] < 0x80
    ensures Escape(x + y) == Escape(x) + Escape(y)
  {
    hide Escape, EscapeAscii;
    var n := |x| - 1;
    var c := [x[n]];
    assert x == x[..n] + c && x + y == x[..n] + (c + y);
    EscapeSplits(x[..n], c + y);
    EscapeSplits(x[..n], c);
    FirstAlone(x[n], y);
    FirstAlone(x[n], []);
    assert c + [] == c;
    EscapeNothing();
    assert Escape(x[..n]) + (EscapeAscii(x[n]) + Escape(y)) == (Escape(x[..n]) + EscapeAscii(x[n])) + Escape(y);
    assert EscapeAscii(x[n]) + [] == EscapeAscii(x[n]);
  }

  lemma FirstAlone(c: byte, y: Bytes)
    requires c < 0x80
    ensures Escape([c] + y) == EscapeAscii(c) + Escape(y)
  {
    hide EscapeAscii;
    assert ([c] + y)[1..] == y;
  }

  lemma PlainFirst(p: Bytes)
    requires p != [] && p[0] in REDACTED
    ensures Escape(p) == [p[0]] + Escape(p[1..])
  {
    hide Escape;
    MarkerByte(p[0]);
    FirstAlone(p[0], p[1..]);
    assert p == [p[0]] + p[1..];
  }

  lemma EscapedStart(p: Bytes)
    requires Escape(p) != [] && Escape(p)[0] in REDACTED
    ensures p != [] && p[0] in REDACTED
  {
    hide HeadCode;
    HeadNotShorter(p);
    HeadInMarker(p, 0);
  }

  /** A leading stretch of marker bytes is copied ... */
  lemma {:induction false} MarkerPrefixKept(p: Bytes, m: nat)
    requires m <= |p| && forall x :: 0 <= x < m ==> p[x] in REDACTED
    ensures m <= |Escape(p)| && Escape(p)[..m] == p[..m]
    decreases m
  {
    hide Escape;
    if m > 0 {
      PlainFirst(p);
      MarkerPrefixKept(p[1..], m - 1);
    }
  }

  lemma TailInMarker(q: Bytes, rest: Bytes, c: byte, m: nat)
    requires q == [c] + rest && 0 < m <= |q| && forall x :: 0 <= x < m ==> q[x] in REDACTED
    ensures forall x :: 0 <= x < m - 1 ==> rest[x] in REDACTED
  {
    assert forall x :: 0 <= x < m - 1 ==> rest[x] == q[x + 1];
  }

  /** ... and is only ever a copy. */
  lemma {:induction false} MarkerPrefixCopied(p: Bytes, m: nat)
    requires m <= |Escape(p)| && forall x :: 0 <= x < m ==> Escape(p)[x] in REDACTED
    ensures m <= |p| && p[..m] == Escape(p)[..m]
    decreases |p|
  {
    hide Escape;
    if m > 0 {
      EscapedStart(p);
      PlainFirst(p);
      TailInMarker(Escape(p), Escape(p[1..]), p[0], m);
      MarkerPrefixCopied(p[1..], m - 1);
      assert p[..m] == [p[0]] + p[1..][..m - 1];
      assert Escape(p)[..m] == [p[0]] + Escape(p[1..])[..m - 1];
    }
  }

  /** A marker byte in the code of the head is the head. */
  lemma HeadInMarker(p: Bytes, i: nat)
    requires p != [] && i < |HeadCode(p)| && HeadCode(p)[i] in REDACTED
    ensures i == 0 && HeadLen(p) == 1 && HeadCode(p) == [p[0]] && p[0] in REDACTED && p[0] < 0x80
  {
    HeadShape(p);
    MarkerByte(HeadCode(p)[i]);
  }

  /** A marker byte anywhere in the escaped text comes from the same byte, and the text splits
      there. */
  lemma {:induction false} Locate(p: Bytes, i: nat) returns (n: nat)
    requires i < |Escape(p)| && Escape(p)[i] in REDACTED
    ensures n < |p| && p[n] == Escape(p)[i] && p[n] < 0x80
    ensures Escape(p[n..]) == Escape(p)[i..] && Escape(p[..n]) == Escape(p)[..i]
    decreases |p|
  {
    hide HeadLen, HeadCode, EscapeAlphabet, Escape;
    if p == [] { EscapeNothing(); assert false; }
    Unfold(p);
    var code := HeadCode(p);
    var rest := p[HeadLen(p)..];
    if i < |code| {
      HeadInMarker(p, i);
      n := 0;
    } else {
      var j := Locate(rest, i - |code|);
      n := HeadLen(p) + j;
      assert p[n..] == rest[j..];
      assert Escape(p)[i..] == Escape(rest)[i - |code|..];
    }
    assert p == p[..n] + p[n..];
    EscapeSplits(p[..n], p[n..]);
    assert Escape(p) == Escape(p)[..i] + Escape(p)[i..];
  }
}
