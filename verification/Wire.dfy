/** The SSH wire encoding of request payloads, with the 32-bit arithmetic the reader uses. */
module Wire {
  import opened Common

  const TWO32: int := 0x1_0000_0000

  /** `PutUint32`: the low 32 bits of `n`, big-endian. */
  function PutUint32(n: nat): (b: Bytes)
    ensures |b| == 4
  {
    [(n / 0x100_0000 % 0x100) as byte, (n / 0x1_0000 % 0x100) as byte, (n / 0x100 % 0x100) as byte, (n % 0x100) as byte]
  }

  function GetUint32(b: Bytes): (n: nat)
    requires |b| == 4
    ensures n < TWO32
  {
    ((b[0] as nat * 0x100 + b[1] as nat) * 0x100 + b[2] as nat) * 0x100 + b[3] as nat
  }

  lemma PutGet(n: nat)
    requires n < TWO32
    ensures GetUint32(PutUint32(n)) == n
  {
    var a, b := n / 0x100, n / 0x1_0000;
    assert n == a * 0x100 + n % 0x100 && a == b * 0x100 + a % 0x100;
    assert b == n / 0x100_0000 * 0x100 + b % 0x100;
  }

  lemma LastDigit(n: nat, d: nat)
    requires d < 0x100
    ensures (n * 0x100 + d) / 0x100 == n && (n * 0x100 + d) % 0x100 == d
  {
  }

  /** The base-256 digits of a four-digit number. */
  lemma Digits(d0: nat, d1: nat, d2: nat, d3: nat)
    requires d0 < 0x100 && d1 < 0x100 && d2 < 0x100 && d3 < 0x100
    ensures var n := ((d0 * 0x100 + d1) * 0x100 + d2) * 0x100 + d3;
            n / 0x100_0000 % 0x100 == d0 && n / 0x1_0000 % 0x100 == d1 && n / 0x100 % 0x100 == d2 && n % 0x100 == d3
  {
    var n2 := d0 * 0x100 + d1;
    var n1 := n2 * 0x100 + d2;
    var n := n1 * 0x100 + d3;
    LastDigit(n1, d3);
    LastDigit(n2, d2);
    LastDigit(d0, d1);
    assert n / 0x1_0000 == (n / 0x100) / 0x100;
    assert n / 0x100_0000 == ((n / 0x100) / 0x100) / 0x100;
  }

  lemma GetPut(b: Bytes)
    requires |b| == 4
    ensures PutUint32(GetUint32(b)) == b
  {
    Digits(b[0] as nat, b[1] as nat, b[2] as nat, b[3] as nat);
  }

  /** Big-endian: numbers are ordered as the first byte in which they differ. */
  lemma BigEndian(b: Bytes, c: Bytes, i: nat)
    requires |b| == |c| == 4 && i < 4 && b[..i] == c[..i] && b[i] != c[i]
    ensures GetUint32(b) < GetUint32(c) <==> b[i] < c[i]
  {
    assert forall j :: 0 <= j < i ==> b[j] == b[..i][j] == c[..i][j] == c[j];
  }

  /** `Panic` is Go's slice-bounds failure. */
  datatype Read<+T> = Ok(value: T, rest: Bytes) | Malformed | Panic

  /** `appendSSHString`: the length is truncated to 32 bits. */
  function AppendString(dst: Bytes, s: Bytes): Bytes { dst + PutUint32(|s| % TWO32) + s }

  function ReadString(b: Bytes): Read<Bytes> {
    if |b| < 4 then Malformed
    else
      var n := GetUint32(b[..4]);
      if (|b| - 4) % TWO32 < n then Malformed
      else
        var end := (4 + n) % TWO32;
        if 4 <= end <= |b| then Ok(b[4..end], b[end..]) else Panic
  }

  function ReadUint32(b: Bytes): Read<nat> {
    if |b| < 4 then Malformed else Ok(GetUint32(b[..4]), b[4..])
  }

  /** The 32-bit end position falls outside the buffer exactly when adding 4 wraps around. */
  lemma WrapsPastEnd(len: nat, n: nat)
    requires len >= 4 && n < TWO32 && (len - 4) % TWO32 >= n
    ensures 4 <= (4 + n) % TWO32 <= len <==> n < TWO32 - 4
    ensures n >= TWO32 - 4 ==> len >= TWO32
  {
    if n < TWO32 - 4 {
      assert (4 + n) % TWO32 == 4 + n;
      assert (len - 4) % TWO32 <= len - 4;
    } else {
      assert (4 + n) % TWO32 == 4 + n - TWO32;
    }
  }

  /** The reader can slice out of range only on a buffer of 4 GiB or more. */
  lemma ReadStringPanicsExactly(b: Bytes)
    ensures ReadString(b).Panic? <==>
            |b| >= 4 && GetUint32(b[..4]) >= TWO32 - 4 && (|b| - 4) % TWO32 >= GetUint32(b[..4])
    ensures |b| < TWO32 ==> !ReadString(b).Panic?
  {
    hide GetUint32;
    if |b| >= 4 && (|b| - 4) % TWO32 >= GetUint32(b[..4]) { WrapsPastEnd(|b|, GetUint32(b[..4])); }
  }

  lemma ReadStringSound(b: Bytes)
    requires |b| < TWO32 && ReadString(b).Ok?
    ensures var r := ReadString(b); b == AppendString([], r.value) + r.rest
  {
    hide GetUint32, PutUint32;
    var n := GetUint32(b[..4]);
    assert (|b| - 4) % TWO32 == |b| - 4 && (4 + n) % TWO32 == 4 + n;
    GetPut(b[..4]);
    assert b == b[..4] + b[4..4 + n] + b[4 + n..];
  }

  lemma ReadStringComplete(s: Bytes, rest: Bytes)
    requires 4 + |s| + |rest| < TWO32
    ensures ReadString(AppendString([], s) + rest) == Ok(s, rest)
  {
    hide GetUint32, PutUint32;
    var b := AppendString([], s) + rest;
    assert b[..4] == PutUint32(|s|);
    PutGet(|s|);
    assert b[4..4 + |s|] == s && b[4 + |s|..] == rest;
    assert (|b| - 4) % TWO32 == |b| - 4 && (4 + |s|) % TWO32 == 4 + |s|;
  }

  /** On every shorter buffer, reading yields `(s, rest)` exactly when the buffer is the encoding
      of `s` followed by `rest`. */
  lemma ReadStringExact(b: Bytes, s: Bytes, rest: Bytes)
    requires |b| < TWO32
    ensures ReadString(b) == Ok(s, rest) <==> b == AppendString([], s) + rest
  {
    if ReadString(b).Ok? { ReadStringSound(b); }
    if b == AppendString([], s) + rest { ReadStringComplete(s, rest); }
  }

  lemma ReadUint32Exact(b: Bytes, v: nat, rest: Bytes)
    ensures ReadUint32(b) == Ok(v, rest) <==> v < TWO32 && b == PutUint32(v) + rest
  {
    if |b| >= 4 {
      GetPut(b[..4]);
      assert b == b[..4] + b[4..];
    }
    if v < TWO32 && b == PutUint32(v) + rest {
      assert b[..4] == PutUint32(v) && b[4..] == rest;
      PutGet(v);
    }
  }

  // ----- request payloads -----

  datatype Parsed<+T> = Value(value: T) | Error(what: string) | Crash

  function Fault<T, U>(r: Read<T>, what: string): Parsed<U> {
    if r.Panic? then Crash else Error(what)
  }

  /** RFC 4254 section 6.2. */
  datatype PtyReq = PtyReq(term: Bytes, cols: nat, rows: nat, widthPx: nat, heightPx: nat, modes: Bytes)

  /** RFC 4254 section 6.7. */
  datatype WinChange = WinChange(cols: nat, rows: nat, widthPx: nat, heightPx: nat)

  /** RFC 4254 section 6.4. */
  datatype EnvReq = EnvReq(name: Bytes, value: Bytes)

  function ParseWindowChange(payload: Bytes): Parsed<WinChange> {
    var cols := ReadUint32(payload);
    if !cols.Ok? then Fault(cols, "cols") else
    var rows := ReadUint32(cols.rest);
    if !rows.Ok? then Fault(rows, "rows") else
    var width := ReadUint32(rows.rest);
    if !width.Ok? then Fault(width, "width px") else
    var height := ReadUint32(width.rest);
    if !height.Ok? then Fault(height, "height px") else
    Value(WinChange(cols.value, rows.value, width.value, height.value))
  }

  function ParsePtyReq(payload: Bytes): Parsed<PtyReq> {
    var term := ReadString(payload);
    if !term.Ok? then Fault(term, "TERM") else
    var cols := ReadUint32(term.rest);
    if !cols.Ok? then Fault(cols, "cols") else
    var rows := ReadUint32(cols.rest);
    if !rows.Ok? then Fault(rows, "rows") else
    var width := ReadUint32(rows.rest);
    if !width.Ok? then Fault(width, "width px") else
    var height := ReadUint32(width.rest);
    if !height.Ok? then Fault(height, "height px") else
    var modes := ReadString(height.rest);
    if !modes.Ok? then Fault(modes, "modes") else
    Value(PtyReq(term.value, cols.value, rows.value, width.value, height.value, modes.value))
  }

  function ParseEnvReq(payload: Bytes): Parsed<EnvReq> {
    var name := ReadString(payload);
    if !name.Ok? then Fault(name, "name") else
    var value := ReadString(name.rest);
    if !value.Ok? then Fault(value, "value") else
    Value(EnvReq(name.value, value.value))
  }

  /** The single-string payloads of `exec` and `subsystem`, RFC 4254 section 6.5. */
  function ParseSingleString(payload: Bytes): Parsed<Bytes> {
    var s := ReadString(payload);
    if !s.Ok? then Fault(s, "malformed") else Value(s.value)
  }

  predicate SizesOk(w: WinChange) { w.cols < TWO32 && w.rows < TWO32 && w.widthPx < TWO32 && w.heightPx < TWO32 }

  function EncodeSizes(w: WinChange): Bytes {
    PutUint32(w.cols) + (PutUint32(w.rows) + (PutUint32(w.widthPx) + PutUint32(w.heightPx)))
  }

  function EncodePtyReq(p: PtyReq): Bytes {
    AppendString([], p.term) + (EncodeSizes(WinChange(p.cols, p.rows, p.widthPx, p.heightPx))
          + AppendString([], p.modes))
  }

  function EncodeEnvReq(e: EnvReq): Bytes { AppendString([], e.name) + AppendString([], e.value) }

  /** Four integers are read exactly when their encoding is a prefix; this also names the rest. */
  lemma SizesExact(payload: Bytes, w: WinChange)
    ensures ParseWindowChange(payload) == Value(w) <==> SizesOk(w) && EncodeSizes(w) <= payload
    ensures !ParseWindowChange(payload).Crash?
  {
    if SizesOk(w) && EncodeSizes(w) <= payload {
      var r0 := payload[16..];
      assert payload == EncodeSizes(w) + r0;
      assert payload == PutUint32(w.cols) + (PutUint32(w.rows) + (PutUint32(w.widthPx) + (PutUint32(w.heightPx) + r0)));
      ReadUint32Exact(payload, w.cols, PutUint32(w.rows) + (PutUint32(w.widthPx) + (PutUint32(w.heightPx) + r0)));
      ReadUint32Exact(PutUint32(w.rows) + (PutUint32(w.widthPx) + (PutUint32(w.heightPx) + r0)), w.rows,
            PutUint32(w.widthPx) + (PutUint32(w.heightPx) + r0));
      ReadUint32Exact(PutUint32(w.widthPx) + (PutUint32(w.heightPx) + r0), w.widthPx, PutUint32(w.heightPx) + r0);
      ReadUint32Exact(PutUint32(w.heightPx) + r0, w.heightPx, r0);
    }
    if ParseWindowChange(payload) == Value(w) { SizesSound(payload, w); }
  }

  lemma SizesSound(payload: Bytes, w: WinChange)
    requires ParseWindowChange(payload) == Value(w)
    ensures SizesOk(w) && |payload| >= 16 && payload == EncodeSizes(w) + payload[16..]
  {
    var cols := ReadUint32(payload);
    var rows := ReadUint32(cols.rest);
    var width := ReadUint32(rows.rest);
    var height := ReadUint32(width.rest);
    ReadUint32Exact(payload, cols.value, cols.rest);
    ReadUint32Exact(cols.rest, rows.value, rows.rest);
    ReadUint32Exact(rows.rest, width.value, width.rest);
    ReadUint32Exact(width.rest, height.value, height.rest);
    assert payload == EncodeSizes(w) + height.rest;
    assert payload[16..] == height.rest;
  }

  /** How `parsePtyReq` reads: a string, the four sizes, a string. */
  lemma PtyReqByParts(payload: Bytes)
    ensures var term := ReadString(payload);
            if !term.Ok? then ParsePtyReq(payload) == Fault(term, "TERM")
            else
              var sizes := ParseWindowChange(term.rest);
              if !sizes.Value? then ParsePtyReq(payload).Error? && sizes.Error?
              else
                && |term.rest| >= 16
                && var modes := ReadString(term.rest[16..]);
                   ParsePtyReq(payload) ==
                   if modes.Ok?
                   then Value(PtyReq(term.value, sizes.value.cols, sizes.value.rows, sizes.value.widthPx,
                         sizes.value.heightPx, modes.value))
                   else Fault(modes, "modes")
  {
    var term := ReadString(payload);
    if term.Ok? {
      var b := term.rest;
      if ParseWindowChange(b).Value? {
        assert b[4..][4..][4..][4..] == b[16..];
      }
    }
  }

  /** `parsePtyReq` succeeds exactly on payloads that begin with a valid encoding, and returns
      the fields of that encoding; it never slices out of range. */
  lemma PtyReqExact(payload: Bytes, p: PtyReq)
    requires |payload| < TWO32
    ensures var w := WinChange(p.cols, p.rows, p.widthPx, p.heightPx);
            ParsePtyReq(payload) == Value(p) <==> SizesOk(w) && EncodePtyReq(p) <= payload
    ensures !ParsePtyReq(payload).Crash?
  {
    var w := WinChange(p.cols, p.rows, p.widthPx, p.heightPx);
    PtyReqByParts(payload);
    ReadStringPanicsExactly(payload);
    var term := ReadString(payload);
    if term.Ok? {
      SizesExact(term.rest, w);
      ReadStringExact(payload, term.value, term.rest);
      if |term.rest| >= 16 { ReadStringPanicsExactly(term.rest[16..]); }
    }
    if SizesOk(w) && EncodePtyReq(p) <= payload {
      PtyReqComplete(payload, p);
    }
    if ParsePtyReq(payload) == Value(p) { PtyReqSound(payload, p); }
  }

  lemma PtyReqComplete(payload: Bytes, p: PtyReq)
    requires |payload| < TWO32 && EncodePtyReq(p) <= payload
    requires SizesOk(WinChange(p.cols, p.rows, p.widthPx, p.heightPx))
    ensures ParsePtyReq(payload) == Value(p)
  {
    hide GetUint32, PutUint32, ReadString, ParseWindowChange, ParsePtyReq;
    var w := WinChange(p.cols, p.rows, p.widthPx, p.heightPx);
    var tail := payload[|EncodePtyReq(p)|..];
    var r2 := AppendString([], p.modes) + tail;
    var r1 := EncodeSizes(w) + r2;
    assert payload == AppendString([], p.term) + r1;
    ReadStringExact(payload, p.term, r1);
    SizesExact(r1, w);
    assert r1[16..] == r2;
    ReadStringExact(r2, p.modes, tail);
    PtyReqByParts(payload);
  }

  lemma PtyReqSound(payload: Bytes, p: PtyReq)
    requires |payload| < TWO32 && ParsePtyReq(payload) == Value(p)
    ensures SizesOk(WinChange(p.cols, p.rows, p.widthPx, p.heightPx)) && EncodePtyReq(p) <= payload
  {
    hide GetUint32, PutUint32, ReadString, ParseWindowChange, ParsePtyReq;
    var w := WinChange(p.cols, p.rows, p.widthPx, p.heightPx);
    PtyReqByParts(payload);
    var term := ReadString(payload);
    ReadStringExact(payload, term.value, term.rest);
    SizesSound(term.rest, w);
    var modes := ReadString(term.rest[16..]);
    ReadStringExact(term.rest[16..], modes.value, modes.rest);
    assert payload == EncodePtyReq(p) + modes.rest;
  }

  lemma EnvReqExact(payload: Bytes, e: EnvReq)
    requires |payload| < TWO32
    ensures ParseEnvReq(payload) == Value(e) <==> EncodeEnvReq(e) <= payload
    ensures !ParseEnvReq(payload).Crash?
  {
    hide GetUint32, PutUint32, ReadString, AppendString;
    ReadStringPanicsExactly(payload);
    var name := ReadString(payload);
    if name.Ok? {
      ReadStringExact(payload, name.value, name.rest);
      ReadStringPanicsExactly(name.rest);
      var value := ReadString(name.rest);
      if value.Ok? {
        ReadStringExact(name.rest, value.value, value.rest);
        assert payload == EncodeEnvReq(EnvReq(name.value, value.value)) + value.rest;
      }
    }
    if EncodeEnvReq(e) <= payload {
      var tail := payload[|EncodeEnvReq(e)|..];
      assert payload == AppendString([], e.name) + (AppendString([], e.value) + tail);
      ReadStringExact(payload, e.name, AppendString([], e.value) + tail);
      ReadStringExact(AppendString([], e.value) + tail, e.value, tail);
    }
  }

  lemma SingleStringExact(payload: Bytes, s: Bytes)
    requires |payload| < TWO32
    ensures ParseSingleString(payload) == Value(s) <==> AppendString([], s) <= payload
    ensures !ParseSingleString(payload).Crash?
  {
    ReadStringPanicsExactly(payload);
    var r := ReadString(payload);
    if r.Ok? { ReadStringExact(payload, r.value, r.rest); }
    if AppendString([], s) <= payload {
      ReadStringExact(payload, s, payload[|AppendString([], s)|..]);
      assert payload == AppendString([], s) + payload[|AppendString([], s)|..];
    }
  }

  // ----- where the fields are -----

  /** The number at offset `i`. */
  function At32(b: Bytes, i: nat): nat
    requires i + 4 <= |b|
  {
    GetUint32(b[i..i + 4])
  }

  /** The four numbers of a window-change: columns, rows, width, height. */
  lemma WindowChangeFields(payload: Bytes)
    ensures ParseWindowChange(payload).Value? <==> |payload| >= 16
    ensures |payload| >= 16 ==>
              ParseWindowChange(payload) ==
              Value(WinChange(At32(payload, 0), At32(payload, 4), At32(payload, 8), At32(payload, 12)))
  {
    hide GetUint32;
    if |payload| >= 16 {
      var b1, b2, b3 := payload[4..], payload[8..], payload[12..];
      assert payload[0..4] == payload[..4] && payload[4..8] == b1[..4];
      assert payload[8..12] == b2[..4] && payload[12..16] == b3[..4];
      assert b1[4..] == b2 && b2[4..] == b3;
    }
  }

  /** A string is its length followed by that many bytes. */
  lemma ReadStringFields(b: Bytes)
    requires |b| < TWO32
    ensures ReadString(b).Ok? <==> |b| >= 4 && 4 + At32(b, 0) <= |b|
    ensures ReadString(b).Ok? ==> var n := At32(b, 0); ReadString(b) == Ok(b[4..4 + n], b[4 + n..])
  {
    hide GetUint32;
    if |b| >= 4 {
      assert b[0..4] == b[..4];
      assert (|b| - 4) % TWO32 == |b| - 4;
      if 4 + At32(b, 0) <= |b| { assert (4 + At32(b, 0)) % TWO32 == 4 + At32(b, 0); }
    }
  }

  lemma At32Shifts(b: Bytes, k: nat, i: nat)
    requires k + i + 4 <= |b|
    ensures At32(b[k..], i) == At32(b, k + i)
  {
    hide GetUint32;
    assert b[k..][i..i + 4] == b[k + i..k + i + 4];
  }

  /** A pty-req: the terminal type, then columns, rows, width and height ... */
  lemma PtyReqFields(payload: Bytes)
    requires |payload| < TWO32 && ParsePtyReq(payload).Value?
    ensures var p := ParsePtyReq(payload).value;
            && |payload| >= 20 && var n := At32(payload, 0);
            && 20 + n <= |payload| && p.term == payload[4..4 + n]
            && p.cols == At32(payload, 4 + n) && p.rows == At32(payload, 8 + n)
            && p.widthPx == At32(payload, 12 + n) && p.heightPx == At32(payload, 16 + n)
            && var modes := ReadString(payload[4 + n..][16..]); modes.Ok? && p.modes == modes.value
  {
    hide At32, ReadString, ParseWindowChange, ParsePtyReq;
    PtyReqByParts(payload);
    ReadStringFields(payload);
    var n := At32(payload, 0);
    assert |payload[4 + n..]| >= 16;
    SizesFields(payload, 4 + n);
  }

  lemma SizesFields(payload: Bytes, k: nat)
    requires k + 16 <= |payload|
    ensures ParseWindowChange(payload[k..]) ==
            Value(WinChange(At32(payload, k), At32(payload, k + 4), At32(payload, k + 8), At32(payload, k + 12)))
  {
    hide At32, ParseWindowChange;
    WindowChangeFields(payload[k..]);
    At32Shifts(payload, k, 0);
    At32Shifts(payload, k, 4);
    At32Shifts(payload, k, 8);
    At32Shifts(payload, k, 12);
  }

  /** ... and the modes. */
  lemma PtyReqModes(payload: Bytes)
    requires |payload| < TWO32 && ParsePtyReq(payload).Value?
    ensures |payload| >= 24 && 24 + At32(payload, 0) <= |payload|
    ensures var n := At32(payload, 0); var m := At32(payload, 20 + n);
            24 + n + m <= |payload| && ParsePtyReq(payload).value.modes == payload[24 + n..24 + n + m]
  {
    hide At32, ReadString, ParsePtyReq, GetUint32;
    PtyReqFields(payload);
    var n := At32(payload, 0);
    ModesFields(payload, n);
  }

  lemma ModesFields(payload: Bytes, n: nat)
    requires |payload| < TWO32 && 20 + n <= |payload| && ReadString(payload[4 + n..][16..]).Ok?
    ensures 24 + n <= |payload|
    ensures var m := At32(payload, 20 + n);
            && 24 + n + m <= |payload|
            && ReadString(payload[4 + n..][16..]).value == payload[24 + n..24 + n + m]
  {
    hide GetUint32, At32, ReadString;
    var b := payload[20 + n..];
    assert payload[4 + n..][16..] == b;
    ReadStringFields(b);
    At32Shifts(payload, 20 + n, 0);
    var m := At32(payload, 20 + n);
    assert b[4..4 + m] == payload[24 + n..24 + n + m];
  }

  /** An env request: the name, then the value. */
  lemma EnvReqFields(payload: Bytes)
    requires |payload| < TWO32 && ParseEnvReq(payload).Value?
    ensures var e := ParseEnvReq(payload).value;
            && |payload| >= 8 && var n := At32(payload, 0);
            && 8 + n <= |payload| && e.name == payload[4..4 + n]
            && var m := At32(payload, 4 + n); 8 + n + m <= |payload| && e.value == payload[8 + n..8 + n + m]
  {
    hide GetUint32, At32, ReadString;
    ReadStringFields(payload);
    var n := At32(payload, 0);
    var b := payload[4 + n..];
    ReadStringFields(b);
    At32Shifts(payload, 4 + n, 0);
    var m := At32(payload, 4 + n);
    assert b[4..4 + m] == payload[8 + n..8 + n + m];
  }

  // ----- exit messages, RFC 4254 section 6.10 -----

  function ExitSignalPayload(name: Bytes, coreDumped: bool, message: Bytes): Bytes {
    var out := AppendString([], name);
    var out := out + [if coreDumped then 1 else 0];
    var out := AppendString(out, message);
    AppendString(out, [])
  }

  /** A client reading the message back gets the name, the core flag, the text and an empty
      language tag, with nothing left over. */
  lemma ExitSignalReadsBack(name: Bytes, coreDumped: bool, message: Bytes)
    requires |name| + |message| < TWO32 - 13
    ensures var r1 := ReadString(ExitSignalPayload(name, coreDumped, message));
            && r1.Ok? && r1.value == name && |r1.rest| > 0 && (r1.rest[0] != 0 <==> coreDumped)
            && var r2 := ReadString(r1.rest[1..]);
               r2.Ok? && r2.value == message && ReadString(r2.rest) == Ok([], [])
  {
    var b := ExitSignalPayload(name, coreDumped, message);
    var flag: Bytes := [if coreDumped then 1 else 0];
    var lang := AppendString([], []);
    var t2 := AppendString([], message) + lang;
    assert b == AppendString([], name) + (flag + t2);
    ReadStringExact(b, name, flag + t2);
    assert (flag + t2)[1..] == t2;
    ReadStringExact(t2, message, lang);
    assert lang == AppendString([], []) + [];
    ReadStringExact(lang, [], []);
  }
}
