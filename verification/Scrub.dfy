/** The password scrub: leftmost, non-overlapping replacement, and exactly what it removes. */
module Scrub {
  import opened Common

  /** "[REDACTED]" */
  const REDACTED: Bytes := [0x5b, 0x52, 0x45, 0x44, 0x41, 0x43, 0x54, 0x45, 0x44, 0x5d]

  predicate OccursAt(p: Bytes, b: Bytes, i: int) { 0 <= i && i + |p| <= |b| && b[i..i + |p|] == p }

  ghost predicate Occurs(p: Bytes, b: Bytes) { exists i :: OccursAt(p, b, i) }

  /** `bytes.ReplaceAll`. */
  function Replace(b: Bytes, p: Bytes, r: Bytes): Bytes
    requires p != []
    decreases |b|
  {
    if |b| < |p| then b
    else if p <= b then r + Replace(b[|p|..], p, r)
    else [b[0]] + Replace(b[1..], p, r)
  }

  /** A line that is the password becomes "[REDACTED]". */
  lemma PasswordBecomesMarker(p: Bytes)
    requires p != []
    ensures Replace(p, p, REDACTED) == [0x5b, 0x52, 0x45, 0x44, 0x41, 0x43, 0x54, 0x45, 0x44, 0x5d]
  {
    assert p[|p|..] == [];
  }

  // ----- what survives -----

  /** The text between the replaced occurrences. */
  function Pieces(b: Bytes, p: Bytes): (ps: seq<Bytes>)
    requires p != []
    ensures |ps| >= 1
    decreases |b|
  {
    if |b| < |p| then [b]
    else if p <= b then [[]] + Pieces(b[|p|..], p)
    else
      var ps := Pieces(b[1..], p);
      [[b[0]] + ps[0]] + ps[1..]
  }

  function Join(ps: seq<Bytes>, sep: Bytes): Bytes
    requires |ps| >= 1
  {
    if |ps| == 1 then ps[0] else ps[0] + (sep + Join(ps[1..], sep))
  }

  lemma JoinPrepend(c: byte, ps: seq<Bytes>, sep: Bytes)
    requires |ps| >= 1
    ensures Join([[c] + ps[0]] + ps[1..], sep) == [c] + Join(ps, sep)
  {
    var qs := [[c] + ps[0]] + ps[1..];
    if |ps| > 1 { assert qs[1..] == ps[1..]; }
  }

  /** The line and its scrubbed form are the same pieces in the same order, joined by the
      password in one and by the marker in the other. */
  lemma {:induction false} OnlyOccurrencesChange(b: Bytes, p: Bytes, r: Bytes)
    requires p != []
    ensures Join(Pieces(b, p), p) == b && Join(Pieces(b, p), r) == Replace(b, p, r)
    decreases |b|
  {
    if |b| >= |p| {
      if p <= b {
        var ps := Pieces(b[|p|..], p);
        OnlyOccurrencesChange(b[|p|..], p, r);
        assert ([[]] + ps)[1..] == ps;
        assert b == p + b[|p|..];
        assert [] + (p + Join(ps, p)) == p + Join(ps, p) && [] + (r + Join(ps, r)) == r + Join(ps, r);
      } else {
        OnlyOccurrencesChange(b[1..], p, r);
        JoinPrepend(b[0], Pieces(b[1..], p), p);
        JoinPrepend(b[0], Pieces(b[1..], p), r);
        assert b == [b[0]] + b[1..];
      }
    }
  }

  // ----- replacement around the first occurrence -----

  ghost predicate FirstAt(p: Bytes, b: Bytes, k: nat) {
    OccursAt(p, b, k) && forall i :: 0 <= i < k ==> !OccursAt(p, b, i)
  }

  lemma PrefixIsOccurrence(p: Bytes, b: Bytes)
    ensures p <= b <==> OccursAt(p, b, 0)
  {
  }

  lemma OccursInTail(p: Bytes, b: Bytes, k: nat, i: int)
    requires k <= |b| && 0 <= i
    ensures OccursAt(p, b[k..], i) <==> OccursAt(p, b, i + k)
  {
    if i + |p| + k <= |b| { assert b[k..][i..i + |p|] == b[i + k..i + k + |p|]; }
  }

  lemma ReplaceHere(b: Bytes, p: Bytes, r: Bytes)
    requires p != [] && OccursAt(p, b, 0)
    ensures Replace(b, p, r) == r + Replace(b[|p|..], p, r)
  {
  }

  lemma ReplaceLater(b: Bytes, p: Bytes, r: Bytes)
    requires p != [] && |b| >= |p| && !OccursAt(p, b, 0)
    ensures Replace(b, p, r) == [b[0]] + Replace(b[1..], p, r)
  {
    PrefixIsOccurrence(p, b);
  }

  lemma {:induction false} ReplaceAtFirst(b: Bytes, p: Bytes, r: Bytes, k: nat)
    requires p != [] && FirstAt(p, b, k)
    ensures Replace(b, p, r) == b[..k] + (r + Replace(b[k + |p|..], p, r))
    decreases k
  {
    hide Replace;
    if k == 0 {
      ReplaceHere(b, p, r);
      assert b[..0] + (r + Replace(b[|p|..], p, r)) == r + Replace(b[|p|..], p, r);
    } else {
      ReplaceLater(b, p, r);
      FirstInTail(p, b, k);
      ReplaceAtFirst(b[1..], p, r, k - 1);
      assert b[1..][k - 1 + |p|..] == b[k + |p|..];
      Cons(b, k, r + Replace(b[k + |p|..], p, r));
    }
  }

  lemma Cons(b: Bytes, k: nat, rest: Bytes)
    requires 0 < k <= |b|
    ensures [b[0]] + (b[1..][..k - 1] + rest) == b[..k] + rest
  {
  }

  lemma FirstInTail(p: Bytes, b: Bytes, k: nat)
    requires k > 0 && FirstAt(p, b, k)
    ensures FirstAt(p, b[1..], k - 1)
  {
    forall i | 0 <= i < k ensures OccursAt(p, b[1..], i) <==> OccursAt(p, b, i + 1) {
      OccursInTail(p, b, 1, i);
    }
  }

  lemma {:induction false} ReplaceNothing(b: Bytes, p: Bytes, r: Bytes)
    requires p != [] && !Occurs(p, b)
    ensures Replace(b, p, r) == b
    decreases |b|
  {
    if |b| >= |p| {
      PrefixIsOccurrence(p, b);
      forall i | OccursAt(p, b[1..], i) ensures false { OccursInTail(p, b, 1, i); }
      ReplaceNothing(b[1..], p, r);
    }
  }

  lemma {:induction false} FindFirst(p: Bytes, b: Bytes, i: nat) returns (k: nat)
    requires OccursAt(p, b, i)
    ensures k <= i && FirstAt(p, b, k)
    decreases i
  {
    if j :| 0 <= j < i && OccursAt(p, b, j) { k := FindFirst(p, b, j); } else { k := i; }
  }

  // ----- when one pass removes the password -----

  /** `p`, laid over `r` so that it starts `d` bytes into it (before it, if negative), agrees with
      `r` wherever the two overlap. */
  ghost predicate Overlays(p: Bytes, r: Bytes, d: int) {
    forall x :: 0 <= x < |p| && 0 <= d + x < |r| ==> p[x] == r[d + x]
  }

  /** The marker can put the password back: `p` can be laid over it, and, when it then begins in
      the text before the marker, that text could really have been left standing there. */
  ghost predicate Resurrects(p: Bytes, r: Bytes, d: int) {
    -|p| < d < |r| && Overlays(p, r, d) && (d < 0 ==> FirstAt(p, p[..-d] + p, -d))
  }

  /** Text `u` left standing before the first marker, with the password beginning in it. */
  lemma LeadingOverlay(b: Bytes, p: Bytes, r: Bytes, k: int, rest: Bytes)
    requires 0 < k < |p| && FirstAt(p, b, k) && p <= b[..k] + (r + rest)
    ensures Resurrects(p, r, -k)
  {
    var out := b[..k] + (r + rest);
    assert forall x :: 0 <= x < |p| ==> p[x] == out[x];
    assert Overlays(p, r, -k);
    assert p[..k] == b[..k];
    assert p[..k] + p == b[..k + |p|] by { assert b[..k + |p|] == b[..k] + b[k..k + |p|]; }
    forall j | 0 <= j <= k ensures OccursAt(p, p[..k] + p, j) <==> OccursAt(p, b, j) {
      OccursInPrefix(p, b, k + |p|, j);
    }
  }

  lemma OccursInPrefix(p: Bytes, b: Bytes, n: nat, j: int)
    requires 0 <= j && j + |p| <= n <= |b|
    ensures OccursAt(p, b[..n], j) <==> OccursAt(p, b, j)
  {
    assert b[..n][j..j + |p|] == b[j..j + |p|];
  }

  /** If the output begins with the password but the input does not, the first marker in the
      output helped to form it. */
  lemma LeadingOccurrence(b: Bytes, p: Bytes, r: Bytes) returns (d: int)
    requires p != [] && !(p <= b) && p <= Replace(b, p, r)
    ensures d < 0 && Resurrects(p, r, d)
  {
    hide Replace, Resurrects;
    PrefixIsOccurrence(p, b);
    if i :| OccursAt(p, b, i) {
      var k: int := FindFirst(p, b, i);
      ReplaceAtFirst(b, p, r, k);
      if k >= |p| {
        LongPrefix(b, p, k, r + Replace(b[k + |p|..], p, r));
        assert false;
      }
      LeadingOverlay(b, p, r, k, Replace(b[k + |p|..], p, r));
      d := -k;
    } else {
      ReplaceNothing(b, p, r);
      assert false;
    }
  }

  lemma LongPrefix(b: Bytes, p: Bytes, k: nat, rest: Bytes)
    requires |p| <= k <= |b| && p <= b[..k] + rest
    ensures p <= b
  {
    assert (b[..k] + rest)[..|p|] == b[..|p|];
  }

  /** An occurrence that begins inside a leading marker is laid over it. */
  lemma StartsInMarker(p: Bytes, r: Bytes, out: Bytes, i: int)
    requires r <= out && 0 <= i < |r| && OccursAt(p, out, i)
    ensures Overlays(p, r, i)
  {
    assert forall x :: 0 <= x < |p| ==> p[x] == out[i..i + |p|][x] == out[i + x];
  }

  lemma {:induction false} SurvivorWasResurrected(b: Bytes, p: Bytes, r: Bytes, i: int) returns (d: int)
    requires p != [] && OccursAt(p, Replace(b, p, r), i)
    ensures Resurrects(p, r, d)
    decreases |b|
  {
    hide Replace, Overlays;
    var out := Replace(b, p, r);
    PrefixIsOccurrence(p, out);
    PrefixIsOccurrence(p, b);
    if |b| < |p| {
      ReplaceShort(b, p, r);
      assert false;
    } else if p <= b {
      ReplaceHere(b, p, r);
      if i < |r| {
        d := i;
        StartsInMarker(p, r, out, i);
      } else {
        OccursInTail(p, out, |r|, i - |r|);
        assert out[|r|..] == Replace(b[|p|..], p, r);
        d := SurvivorWasResurrected(b[|p|..], p, r, i - |r|);
      }
    } else if i == 0 {
      d := LeadingOccurrence(b, p, r);
    } else {
      ReplaceLater(b, p, r);
      OccursInTail(p, out, 1, i - 1);
      assert out[1..] == Replace(b[1..], p, r);
      d := SurvivorWasResurrected(b[1..], p, r, i - 1);
    }
  }

  /** The part of `p` before the marker, and the part after it, when `p` lies `d` bytes into it. */
  function Before(p: Bytes, d: int): Bytes
    requires -|p| < d
  {
    if d < 0 then p[..-d] else []
  }

  function After(p: Bytes, r: Bytes, d: int): Bytes
    requires d < |r|
  {
    if |r| - d < |p| then p[|r| - d..] else []
  }

  /** A line that the scrub does not clean, for a password the marker can put back. */
  lemma ResurrectingLine(p: Bytes, r: Bytes, d: int) returns (line: Bytes)
    requires p != [] && Resurrects(p, r, d)
    ensures Replace(line, p, r) == Before(p, d) + (r + After(p, r, d))
    ensures Occurs(p, Replace(line, p, r))
  {
    hide Overlays;
    var u, v := Before(p, d), After(p, r, d);
    line := u + p + v;
    FirstAfter(p, u, v, d);
    ReplaceAtFirst(line, p, r, |u|);
    assert line[..|u|] == u && line[|u| + |p|..] == v;
    ReplaceShort(v, p, r);
    OverlayOccurs(p, r, d);
  }

  lemma ReplaceShort(v: Bytes, p: Bytes, r: Bytes)
    requires |v| < |p|
    ensures Replace(v, p, r) == v
  {
  }

  lemma FirstAfter(p: Bytes, u: Bytes, v: Bytes, d: int)
    requires -|p| < d && u == Before(p, d) && (d < 0 ==> FirstAt(p, p[..-d] + p, -d))
    ensures FirstAt(p, u + p + v, |u|)
  {
    var line := u + p + v;
    assert line[|u|..|u| + |p|] == p;
    forall j | 0 <= j < |u| ensures !OccursAt(p, line, j) {
      assert (u + p)[j..j + |p|] == line[j..j + |p|];
      assert !OccursAt(p, u + p, j);
    }
  }

  lemma OverlayOccurs(p: Bytes, r: Bytes, d: int)
    requires -|p| < d < |r| && Overlays(p, r, d)
    ensures Occurs(p, Before(p, d) + (r + After(p, r, d)))
  {
    var out := Before(p, d) + (r + After(p, r, d));
    var at := if d < 0 then 0 else d;
    forall x | 0 <= x < |p| ensures at + x < |out| && out[at + x] == p[x] {
    }
    assert out[at..at + |p|] == p;
    assert OccursAt(p, out, at);
  }

  /** The scrubbed line still contains what was to be scrubbed. */
  ghost predicate Leaks(line: Bytes, p: Bytes, r: Bytes)
    requires p != []
  {
    Occurs(p, Replace(line, p, r))
  }

  /** One pass removes the password from every line exactly when the marker cannot put it back. */
  lemma ScrubbedExactly(p: Bytes, r: Bytes)
    requires p != []
    ensures (forall line :: !Leaks(line, p, r)) <==> !(exists d :: Resurrects(p, r, d))
  {
    if d :| Resurrects(p, r, d) {
      var line := ResurrectingLine(p, r, d);
      assert Leaks(line, p, r);
    } else {
      forall line ensures !Leaks(line, p, r) {
        if i :| OccursAt(p, Replace(line, p, r), i) {
          var d := SurvivorWasResurrected(line, p, r, i);
          assert false;
        }
      }
    }
  }

  // ----- both passes -----

  /** `p` cannot be laid over `r` at all. */
  ghost predicate Apart(p: Bytes, r: Bytes) { forall d :: -|p| < d < |r| ==> !Overlays(p, r, d) }

  lemma OverlayFromPrefix(q: Bytes, r: Bytes, j: int, rest: Bytes)
    requires 0 <= j < |q| && q[j..] <= r + rest
    ensures Overlays(q, r, -j)
  {
    assert forall x :: j <= x < |q| ==> q[x] == q[j..][x - j] == (r + rest)[x - j];
  }

  lemma {:induction false} PrefixComesFromInput(b: Bytes, s: Bytes, r: Bytes, q: Bytes, j: int)
    requires s != [] && r != [] && Apart(q, r) && 0 <= j <= |q| && q[j..] <= Replace(b, s, r)
    ensures q[j..] <= b
    decreases |b|
  {
    if |b| >= |s| && j < |q| {
      var out := Replace(b, s, r);
      if s <= b {
        OverlayFromPrefix(q, r, j, Replace(b[|s|..], s, r));
        assert false;
      } else {
        assert q[j..][1..] == q[j + 1..] && out[1..] == Replace(b[1..], s, r);
        assert q[j + 1..] <= out[1..];
        PrefixComesFromInput(b[1..], s, r, q, j + 1);
        assert q[j..] == [q[j]] + q[j + 1..] && b == [b[0]] + b[1..];
      }
    }
  }

  /** Whatever the marker cannot help to form was in the line before. */
  lemma {:induction false} NothingNewAppears(b: Bytes, s: Bytes, r: Bytes, q: Bytes, i: int)
    requires s != [] && r != [] && q != [] && Apart(q, r) && OccursAt(q, Replace(b, s, r), i)
    ensures Occurs(q, b)
    decreases |b|
  {
    var out := Replace(b, s, r);
    if |b| < |s| {
    } else if s <= b {
      if i < |r| {
        assert forall x :: 0 <= x < |q| ==> q[x] == out[i + x];
        assert Overlays(q, r, i);
        assert false;
      }
      OccursInTail(q, out, |r|, i - |r|);
      assert out[|r|..] == Replace(b[|s|..], s, r);
      NothingNewAppears(b[|s|..], s, r, q, i - |r|);
      LiftOccurrence(q, b, |s|);
    } else if i == 0 {
      PrefixIsOccurrence(q, out);
      assert q[0..] == q;
      PrefixComesFromInput(b, s, r, q, 0);
      PrefixIsOccurrence(q, b);
    } else {
      OccursInTail(q, out, 1, i - 1);
      assert out[1..] == Replace(b[1..], s, r);
      NothingNewAppears(b[1..], s, r, q, i - 1);
      LiftOccurrence(q, b, 1);
    }
  }

  lemma LiftOccurrence(q: Bytes, b: Bytes, k: nat)
    requires k <= |b| && Occurs(q, b[k..])
    ensures Occurs(q, b)
  {
    var i :| OccursAt(q, b[k..], i);
    OccursInTail(q, b, k, i);
  }

  /** The scrub list `New` builds from the password and its JSON-escaped form. */
  function ScrubList(password: Bytes, escaped: Bytes): seq<Bytes> {
    if password == [] then []
    else if escaped == password then [password]
    else [password, escaped]
  }

  function ScrubAll(line: Bytes, scrubs: seq<Bytes>): Bytes
    requires forall i :: 0 <= i < |scrubs| ==> scrubs[i] != []
  {
    if scrubs == [] then line
    else Replace(ScrubAll(line, scrubs[..|scrubs| - 1]), scrubs[|scrubs| - 1], REDACTED)
  }

  /** The scrub loop of `emit`. */
  method EmitScrubbed(line: Bytes, scrubs: seq<Bytes>) returns (out: Bytes)
    requires forall i :: 0 <= i < |scrubs| ==> scrubs[i] != []
    ensures out == ScrubAll(line, scrubs)
  {
    out := line;
    var i := 0;
    while i < |scrubs|
      invariant 0 <= i <= |scrubs|
      invariant out == ScrubAll(line, scrubs[..i])
    {
      assert scrubs[..i + 1][..i] == scrubs[..i];
      out := Replace(out, scrubs[i], REDACTED);
      i := i + 1;
    }
    assert scrubs[..|scrubs|] == scrubs;
  }

  /** After both passes neither form of the password is left, for every password whose two forms
      cannot be laid over the marker. */
  lemma BothFormsRemoved(line: Bytes, password: Bytes, escaped: Bytes)
    requires password != [] && escaped != [] && Apart(password, REDACTED) && Apart(escaped, REDACTED)
    ensures var out := ScrubAll(line, ScrubList(password, escaped));
            !Occurs(password, out) && !Occurs(escaped, out)
  {
    var first := Replace(line, password, REDACTED);
    ApartScrubs(line, password);
    var scrubs := ScrubList(password, escaped);
    if escaped == password {
      assert scrubs[..0] == [];
    } else {
      assert scrubs[..1] == [password] && [password][..0] == [];
      assert ScrubAll(line, [password]) == first;
      ApartScrubs(first, escaped);
      forall i | OccursAt(password, Replace(first, escaped, REDACTED), i) ensures false {
        NothingNewAppears(first, escaped, REDACTED, password, i);
      }
    }
  }

  lemma ApartScrubs(line: Bytes, p: Bytes)
    requires p != [] && Apart(p, REDACTED)
    ensures !Occurs(p, Replace(line, p, REDACTED))
  {
    if i :| OccursAt(p, Replace(line, p, REDACTED), i) {
      var d := SurvivorWasResurrected(line, p, REDACTED, i);
      assert false;
    }
  }

  /** The bytes JSON escaping adds: backslash, quote, digits, lower-case letters. */
  predicate EscapeAlphabet(c: byte) { c == 0x5c || c == 0x22 || 0x30 <= c <= 0x39 || 0x61 <= c <= 0x7a }

  lemma DisjointIsApart(p: Bytes)
    requires p != [] && forall x :: 0 <= x < |p| ==> p[x] !in REDACTED
    ensures Apart(p, REDACTED)
  {
    forall d | -|p| < d < |REDACTED| ensures !Overlays(p, REDACTED, d) {
      var x := if d < 0 then -d else 0;
      assert 0 <= x < |p| && 0 <= d + x < |REDACTED|;
      assert p[x] !in REDACTED && REDACTED[d + x] in REDACTED;
    }
  }

  /** In particular, a password that shares no byte with "[REDACTED]" never survives in either
      form, whatever else the escaping does. */
  lemma DisjointPasswordRemoved(line: Bytes, password: Bytes, escaped: Bytes)
    requires password != [] && escaped != []
    requires forall x :: 0 <= x < |password| ==> password[x] !in REDACTED
    requires forall x :: 0 <= x < |escaped| ==> escaped[x] in password || EscapeAlphabet(escaped[x])
    ensures var out := ScrubAll(line, ScrubList(password, escaped));
            !Occurs(password, out) && !Occurs(escaped, out)
  {
    forall x | 0 <= x < |escaped| ensures escaped[x] !in REDACTED {
      assert forall c :: c in REDACTED ==> !EscapeAlphabet(c);
    }
    DisjointIsApart(password);
    DisjointIsApart(escaped);
    BothFormsRemoved(line, password, escaped);
  }

  /** The documented "every occurrence is replaced" is not unconditional: a one-byte password that is
      part of the marker is left in every line that contained it. */
  lemma MarkerLetterSurvives(c: byte, line: Bytes)
    requires c in REDACTED && c in line
    ensures Occurs([c], Replace(line, [c], REDACTED))
  {
    hide Replace;
    var i :| 0 <= i < |line| && line[i] == c;
    assert OccursAt([c], line, i);
    var k := FindFirst([c], line, i);
    ReplaceAtFirst(line, [c], REDACTED, k);
    ByteOccurs(c, line[..k], REDACTED, Replace(line[k + 1..], [c], REDACTED));
  }

  lemma ByteOccurs(c: byte, a: Bytes, b: Bytes, rest: Bytes)
    requires c in b
    ensures Occurs([c], a + (b + rest))
  {
    var j :| 0 <= j < |b| && b[j] == c;
    assert (a + (b + rest))[|a| + j] == c;
    assert OccursAt([c], a + (b + rest), |a| + j);
  }
}
