/** The logfmt encoder, a decoder for it, and the round trip. */
module Logfmt {
  import opened Common

  const SPACE: byte := 0x20
  const TAB: byte := 0x09
  const NL: byte := 0x0a
  const CR: byte := 0x0d
  const EQ: byte := 0x3d
  const QUOTE: byte := 0x22
  const BSLASH: byte := 0x5c

  datatype Field = Field(key: Bytes, value: Bytes)

  /** One event: timestamp, level and event name, then the fields in order. */
  datatype Record = Record(ts: Bytes, level: Bytes, event: Bytes, fields: seq<Field>)

  // ----- the encoding -----

  predicate Special(c: byte) { c == SPACE || c == TAB || c == NL || c == CR || c == EQ || c == QUOTE }

  predicate NeedsQuoting(value: Bytes) { value == [] || exists i :: 0 <= i < |value| && Special(value[i]) }

  function EscapeByte(c: byte): Bytes { if c == QUOTE || c == BSLASH then [BSLASH, c] else [c] }

  function Escape(value: Bytes): Bytes {
    if value == [] then [] else EscapeByte(value[0]) + Escape(value[1..])
  }

  function EncodeValue(value: Bytes): Bytes {
    if NeedsQuoting(value) then [QUOTE] + Escape(value) + [QUOTE] else value
  }

  function EncodeField(f: Field): Bytes { [SPACE] + (f.key + ([EQ] + EncodeValue(f.value))) }

  function EncodeFields(fields: seq<Field>): Bytes {
    if fields == [] then [] else EncodeField(fields[0]) + EncodeFields(fields[1..])
  }

  function EncodeHead(r: Record): Bytes { r.ts + ([SPACE] + (r.level + ([SPACE] + r.event))) }

  function EncodeLine(r: Record): Bytes { EncodeHead(r) + (EncodeFields(r.fields) + [NL]) }

  function EncodeAll(rs: seq<Record>): Bytes {
    if rs == [] then [] else EncodeLine(rs[0]) + EncodeAll(rs[1..])
  }

  // ----- the encoder, on a buffer -----

  class Buffer {
    var data: Bytes

    constructor ()
      ensures data == []
    {
      data := [];
    }

    method Write(b: Bytes)
      modifies this
      ensures data == old(data) + b
    {
      data := data + b;
    }
  }

  method QuotingNeeded(value: Bytes) returns (needed: bool)
    ensures needed == NeedsQuoting(value)
    ensures needed <==> value == [] || exists i :: 0 <= i < |value| && value[i] in [0x20, 0x09, 0x0a, 0x0d, 0x3d, 0x22]
  {
    if value == [] { return true; }
    var i := 0;
    while i < |value|
      invariant 0 <= i <= |value|
      invariant forall j :: 0 <= j < i ==> !Special(value[j])
    {
      if Special(value[i]) { return true; }
      i := i + 1;
    }
    return false;
  }

  lemma {:induction false} EscapeAppend(a: Bytes, c: byte)
    ensures Escape(a + [c]) == Escape(a) + EscapeByte(c)
  {
    if a == [] {
      assert a + [c] == [c] && [c][1..] == [];
      assert EscapeByte(c) + [] == EscapeByte(c);
    } else {
      assert (a + [c])[1..] == a[1..] + [c];
      EscapeAppend(a[1..], c);
    }
  }

  lemma Regroup(a: Bytes, b: Bytes, c: Bytes, d: Bytes)
    ensures a + b + c + d == a + (b + c + d)
  {
  }

  method WriteValue(buf: Buffer, value: Bytes)
    modifies buf
    ensures buf.data == old(buf.data) + EncodeValue(value)
  {
    hide Escape, NeedsQuoting;
    var needed := QuotingNeeded(value);
    if needed {
      buf.Write([QUOTE]);
      WriteEscaped(buf, value);
      buf.Write([QUOTE]);
      Regroup(old(buf.data), [QUOTE], Escape(value), [QUOTE]);
    } else {
      buf.Write(value);
    }
  }

  /** The loop of `writeValue`. */
  method WriteEscaped(buf: Buffer, value: Bytes)
    modifies buf
    ensures buf.data == old(buf.data) + Escape(value)
  {
    hide Escape;
    assert Escape(value[..0]) == [] by { EscapeNothing(); }
    var i := 0;
    while i < |value|
      invariant 0 <= i <= |value|
      invariant buf.data == old(buf.data) + Escape(value[..i])
    {
      ghost var before := buf.data;
      if value[i] == QUOTE || value[i] == BSLASH {
        buf.Write([BSLASH]);
      }
      buf.Write([value[i]]);
      assert buf.data == before + EscapeByte(value[i]);
      assert value[..i + 1] == value[..i] + [value[i]];
      EscapeAppend(value[..i], value[i]);
      i := i + 1;
    }
    assert value[..|value|] == value;
  }

  lemma EscapeNothing()
    ensures Escape([]) == []
  {
  }

  lemma {:induction false} FieldsAppend(a: seq<Field>, f: Field)
    ensures EncodeFields(a + [f]) == EncodeFields(a) + EncodeField(f)
  {
    if a == [] {
      assert a + [f] == [f] && [f][1..] == [];
    } else {
      assert (a + [f])[1..] == a[1..] + [f];
      FieldsAppend(a[1..], f);
    }
  }

  lemma EncodeNoFields()
    ensures EncodeFields([]) == []
  {
  }

  method WriteField(buf: Buffer, f: Field)
    modifies buf
    ensures buf.data == old(buf.data) + EncodeField(f)
  {
    buf.Write([SPACE]);
    buf.Write(f.key);
    buf.Write([EQ]);
    WriteValue(buf, f.value);
  }

  method WriteHead(buf: Buffer, r: Record)
    modifies buf
    ensures buf.data == old(buf.data) + EncodeHead(r)
  {
    buf.Write(r.ts);
    buf.Write([SPACE]);
    buf.Write(r.level);
    buf.Write([SPACE]);
    buf.Write(r.event);
  }

  method EncodeLogfmt(buf: Buffer, r: Record)
    modifies buf
    ensures buf.data == old(buf.data) + EncodeLine(r)
  {
    hide EncodeFields, EncodeHead, EncodeField;
    WriteHead(buf, r);
    ghost var start := buf.data;
    assert EncodeFields(r.fields[..0]) == [] by { EncodeNoFields(); }
    var i := 0;
    while i < |r.fields|
      invariant 0 <= i <= |r.fields|
      invariant buf.data == start + EncodeFields(r.fields[..i])
    {
      assert r.fields[..i + 1] == r.fields[..i] + [r.fields[i]];
      FieldsAppend(r.fields[..i], r.fields[i]);
      WriteField(buf, r.fields[i]);
      i := i + 1;
    }
    assert r.fields[..|r.fields|] == r.fields;
    buf.Write([NL]);
  }

  /** Two fields as the logger writes them: `k=v`, and a value with all there is to escape. */
  lemma SampleFields()
    ensures EncodeField(Field([0x6b], [0x76])) == [0x20, 0x6b, 0x3d, 0x76]
    ensures EncodeField(Field([0x6b], [0x22, 0x20, 0x5c])) ==
            [0x20, 0x6b, 0x3d, 0x22, 0x5c, 0x22, 0x20, 0x5c, 0x5c, 0x22]
  {
    assert !Special(0x76) && !NeedsQuoting([0x76]);
    var v: Bytes := [0x22, 0x20, 0x5c];
    assert v[1] == SPACE && NeedsQuoting(v);
    EscapeSample(v);
  }

  lemma EscapeSample(v: Bytes)
    requires v == [0x22, 0x20, 0x5c]
    ensures Escape(v) == [0x5c, 0x22, 0x20, 0x5c, 0x5c]
  {
    assert v[1..] == [0x20, 0x5c] && v[1..][1..] == [0x5c] && v[1..][1..][1..] == [];
    assert Escape(v[1..][1..]) == [0x5c, 0x5c];
    assert Escape(v[1..]) == [0x20, 0x5c, 0x5c];
  }

  /** The fields are written in their order. */
  lemma {:induction false} FieldsInOrder(a: seq<Field>, b: seq<Field>)
    ensures EncodeFields(a + b) == EncodeFields(a) + EncodeFields(b)
  {
    if a == [] {
      assert a + b == b;
    } else {
      assert (a + b)[1..] == a[1..] + b;
      FieldsInOrder(a[1..], b);
    }
  }

  /** Time, level and event with a space between them, the fields, and the end of the line. */
  lemma LineLayout(r: Record)
    ensures EncodeLine(r) == r.ts + [0x20] + r.level + [0x20] + r.event + EncodeFields(r.fields) + [0x0a]
  {
    hide EncodeFields;
  }

  // ----- a decoder -----

  datatype Decoded<+T> = Good(value: T, rest: Bytes) | Bad

  /** The length of the longest prefix without `x` or `y`. */
  function Span(b: Bytes, x: byte, y: byte): (n: nat)
    ensures n <= |b|
  {
    if b == [] || b[0] == x || b[0] == y then 0 else 1 + Span(b[1..], x, y)
  }

  function DecodeQuoted(b: Bytes): (r: Decoded<Bytes>)
    ensures r.Good? ==> |r.rest| < |b|
    decreases |b|
  {
    if b == [] then Bad
    else if b[0] == QUOTE then Good([], b[1..])
    else if b[0] == BSLASH then
      if |b| < 2 then Bad
      else
        var r := DecodeQuoted(b[2..]);
        if r.Good? then Good([b[1]] + r.value, r.rest) else Bad
    else
      var r := DecodeQuoted(b[1..]);
      if r.Good? then Good([b[0]] + r.value, r.rest) else Bad
  }

  function DecodeValue(b: Bytes): (r: Decoded<Bytes>)
    ensures r.Good? ==> |r.rest| <= |b|
  {
    if b != [] && b[0] == QUOTE then DecodeQuoted(b[1..])
    else
      var n := Span(b, SPACE, NL);
      if NeedsQuoting(b[..n]) then Bad else Good(b[..n], b[n..])
  }

  function DecodeField(b: Bytes): (r: Decoded<Field>)
    ensures r.Good? ==> |r.rest| < |b|
  {
    if b == [] || b[0] != SPACE then Bad
    else
      var c := b[1..];
      var n := Span(c, EQ, EQ);
      if n == |c| then Bad
      else
        var v := DecodeValue(c[n + 1..]);
        if v.Bad? then Bad else Good(Field(c[..n], v.value), v.rest)
  }

  function DecodeFields(b: Bytes): (r: Decoded<seq<Field>>)
    ensures r.Good? ==> |r.rest| < |b|
    decreases |b|
  {
    if b == [] then Bad
    else if b[0] == NL then Good([], b[1..])
    else
      var f := DecodeField(b);
      if f.Bad? then Bad
      else
        var r := DecodeFields(f.rest);
        if r.Good? then Good([f.value] + r.value, r.rest) else Bad
  }

  function DecodeLine(b: Bytes): (r: Decoded<Record>)
    ensures r.Good? ==> |r.rest| < |b|
  {
    var n := Span(b, SPACE, SPACE);
    if n == |b| then Bad
    else
      var b1 := b[n + 1..];
      var m := Span(b1, SPACE, SPACE);
      if m == |b1| then Bad
      else
        var b2 := b1[m + 1..];
        var k := Span(b2, SPACE, NL);
        var r := DecodeFields(b2[k..]);
        if r.Good? then Good(Record(b[..n], b1[..m], b2[..k], r.value), r.rest) else Bad
  }

  function DecodeAll(b: Bytes): Option<seq<Record>>
    decreases |b|
  {
    if b == [] then Some([])
    else
      var line := DecodeLine(b);
      if line.Bad? then None
      else
        var rest := DecodeAll(line.rest);
        if rest.Some? then Some([line.value] + rest.value) else None
  }

  // ----- the round trip -----

  predicate Token(b: Bytes) { forall i :: 0 <= i < |b| ==> b[i] != SPACE && b[i] != NL && b[i] != EQ }

  /** Only the fixed vocabulary is restricted; values are arbitrary bytes. */
  predicate TokenSafe(r: Record) {
    Token(r.ts) && Token(r.level) && Token(r.event) && forall i :: 0 <= i < |r.fields| ==> Token(r.fields[i].key)
  }

  lemma {:induction false} SpanStops(a: Bytes, tail: Bytes, x: byte, y: byte)
    requires forall i :: 0 <= i < |a| ==> a[i] != x && a[i] != y
    requires tail != [] && (tail[0] == x || tail[0] == y)
    ensures Span(a + tail, x, y) == |a| && (a + tail)[..|a|] == a && (a + tail)[|a|..] == tail
  {
    if a == [] {
      assert a + tail == tail;
    } else {
      assert (a + tail)[1..] == a[1..] + tail;
      SpanStops(a[1..], tail, x, y);
    }
  }

  lemma {:induction false} QuotedRoundTrip(value: Bytes, tail: Bytes)
    ensures DecodeQuoted(Escape(value) + [QUOTE] + tail) == Good(value, tail)
  {
    var b := Escape(value) + [QUOTE] + tail;
    if value == [] {
      assert b == [QUOTE] + tail && b[1..] == tail;
    } else {
      var more := Escape(value[1..]) + [QUOTE] + tail;
      QuotedRoundTrip(value[1..], tail);
      assert b == EscapeByte(value[0]) + more;
      assert value == [value[0]] + value[1..];
      if value[0] == QUOTE || value[0] == BSLASH {
        assert b[0] == BSLASH && b[1] == value[0] && b[2..] == more;
      } else {
        assert b[0] == value[0] && b[1..] == more;
      }
    }
  }

  /** A value ends where the next field or the end of the line begins. */
  lemma ValueRoundTrip(value: Bytes, tail: Bytes)
    requires tail != [] && (tail[0] == SPACE || tail[0] == NL)
    ensures DecodeValue(EncodeValue(value) + tail) == Good(value, tail)
  {
    hide Escape, Span, DecodeQuoted;
    var b := EncodeValue(value) + tail;
    if NeedsQuoting(value) {
      assert b[0] == QUOTE && b[1..] == Escape(value) + [QUOTE] + tail;
      QuotedRoundTrip(value, tail);
    } else {
      assert b[0] == value[0] && !Special(value[0]);
      SpanStops(value, tail, SPACE, NL);
    }
  }

  lemma FieldRoundTrip(f: Field, next: Bytes)
    requires Token(f.key) && next != [] && (next[0] == SPACE || next[0] == NL)
    ensures DecodeField(EncodeField(f) + next) == Good(f, next)
  {
    hide Span, DecodeValue, EncodeValue;
    var b, v := EncodeField(f) + next, EncodeValue(f.value) + next;
    var c := f.key + ([EQ] + v);
    assert b[0] == SPACE && b[1..] == c;
    SpanStops(f.key, [EQ] + v, EQ, EQ);
    assert c[|f.key| + 1..] == v;
    ValueRoundTrip(f.value, next);
  }

  /** One field in front of a text that decodes. */
  lemma FieldStep(f: Field, next: Bytes, fields: seq<Field>, tail: Bytes)
    requires Token(f.key) && next != [] && (next[0] == SPACE || next[0] == NL)
    requires DecodeFields(next) == Good(fields, tail)
    ensures DecodeFields(EncodeField(f) + next) == Good([f] + fields, tail)
  {
    hide DecodeFields, DecodeField;
    FieldRoundTrip(f, next);
    assert (EncodeField(f) + next)[0] == SPACE;
    FieldUnfold(EncodeField(f) + next, f, next, fields, tail);
  }

  lemma FieldUnfold(b: Bytes, f: Field, next: Bytes, fields: seq<Field>, tail: Bytes)
    requires b != [] && b[0] == SPACE && DecodeField(b) == Good(f, next) && DecodeFields(next) == Good(fields, tail)
    ensures DecodeFields(b) == Good([f] + fields, tail)
  {
    hide DecodeField;
  }

  lemma NoFields(tail: Bytes)
    ensures DecodeFields([NL] + tail) == Good([], tail)
  {
    assert ([NL] + tail)[1..] == tail;
  }

  lemma {:induction false} FieldsRoundTrip(fields: seq<Field>, tail: Bytes)
    requires forall i :: 0 <= i < |fields| ==> Token(fields[i].key)
    ensures DecodeFields(EncodeFields(fields) + ([NL] + tail)) == Good(fields, tail)
    decreases |fields|
  {
    hide DecodeFields, EncodeField, DecodeValue;
    if fields == [] {
      assert [] + ([NL] + tail) == [NL] + tail;
      NoFields(tail);
    } else {
      var next := EncodeFields(fields[1..]) + ([NL] + tail);
      FieldsRoundTrip(fields[1..], tail);
      FieldsStart(fields[1..], tail);
      FieldStep(fields[0], next, fields[1..], tail);
      assert EncodeFields(fields) + ([NL] + tail) == EncodeField(fields[0]) + next;
      assert fields == [fields[0]] + fields[1..];
    }
  }

  lemma FieldsStart(fields: seq<Field>, tail: Bytes)
    ensures var b := EncodeFields(fields) + ([NL] + tail); b != [] && (b[0] == SPACE || b[0] == NL)
  {
  }

  lemma LineRegroups(r: Record, tail: Bytes)
    ensures EncodeLine(r) + tail ==
            r.ts + ([SPACE] + (r.level + ([SPACE] + (r.event + (EncodeFields(r.fields) + ([NL] + tail))))))
  {
    hide EncodeFields;
    var f := EncodeFields(r.fields);
    assert (f + [NL]) + tail == f + ([NL] + tail);
    assert EncodeHead(r) + (f + ([NL] + tail)) == (EncodeHead(r) + (f + [NL])) + tail;
  }

  lemma LineRoundTrip(r: Record, tail: Bytes)
    requires TokenSafe(r)
    ensures DecodeLine(EncodeLine(r) + tail) == Good(r, tail)
  {
    hide DecodeLine, DecodeFields, EncodeFields, EncodeLine, Span;
    var t3 := EncodeFields(r.fields) + ([NL] + tail);
    var t2 := r.event + t3;
    var t1 := r.level + ([SPACE] + t2);
    var b := r.ts + ([SPACE] + t1);
    LineRegroups(r, tail);
    SkipToken(r.ts, t1);
    SkipToken(r.level, t2);
    FieldsStart(r.fields, tail);
    SpanStops(r.event, t3, SPACE, NL);
    FieldsRoundTrip(r.fields, tail);
    LineUnfold(b, |r.ts|, t1, |r.level|, t2, |r.event|, r.fields, tail);
  }

  lemma LineUnfold(b: Bytes, n: nat, b1: Bytes, m: nat, b2: Bytes, k: nat, fields: seq<Field>, tail: Bytes)
    requires Span(b, SPACE, SPACE) == n < |b| && b[n + 1..] == b1
    requires Span(b1, SPACE, SPACE) == m < |b1| && b1[m + 1..] == b2
    requires Span(b2, SPACE, NL) == k && DecodeFields(b2[k..]) == Good(fields, tail)
    ensures DecodeLine(b) == Good(Record(b[..n], b1[..m], b2[..k], fields), tail)
  {
    hide Span, DecodeFields;
  }

  lemma SkipToken(a: Bytes, next: Bytes)
    requires Token(a)
    ensures var b := a + ([SPACE] + next);
            Span(b, SPACE, SPACE) == |a| < |b| && b[..|a|] == a && b[|a| + 1..] == next
  {
    SpanStops(a, [SPACE] + next, SPACE, SPACE);
  }

  /** Any sequence of unscrubbed lines decodes to exactly the events that were logged, whatever
      quotes, backslashes, newlines or empty values they carry. */
  lemma {:induction false} LogRoundTrip(rs: seq<Record>)
    requires forall i :: 0 <= i < |rs| ==> TokenSafe(rs[i])
    ensures DecodeAll(EncodeAll(rs)) == Some(rs)
    decreases |rs|
  {
    if rs != [] {
      LogRoundTrip(rs[1..]);
      LineStep(rs[0], EncodeAll(rs[1..]), rs[1..]);
      assert rs == [rs[0]] + rs[1..];
    }
  }

  lemma LineStep(r: Record, next: Bytes, rs: seq<Record>)
    requires TokenSafe(r) && DecodeAll(next) == Some(rs)
    ensures DecodeAll(EncodeLine(r) + next) == Some([r] + rs)
  {
    hide DecodeLine, DecodeAll, EncodeLine;
    LineRoundTrip(r, next);
    AllUnfold(EncodeLine(r) + next, r, next, rs);
  }

  lemma AllUnfold(b: Bytes, r: Record, next: Bytes, rs: seq<Record>)
    requires DecodeLine(b) == Good(r, next) && DecodeAll(next) == Some(rs)
    ensures DecodeAll(b) == Some([r] + rs)
  {
    hide DecodeLine;
  }
}
