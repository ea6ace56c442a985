/** Both scrub passes together, with the escape the logger really uses: for exactly which
    passwords is neither form left in any line. */
module ScrubExact {
  import opened Common
  import opened Scrub
  import opened JsonEscape
  import Logfmt

  /** What survives a pass with another needle: text that the marker helped to form, after some
      occurrence of that needle if it begins in front of the marker. */
  lemma {:induction false} FormedByMarker(b: Bytes, s: Bytes, r: Bytes, p: Bytes, i: int) returns (d: int)
    requires s != [] && p != [] && !Occurs(p, b) && OccursAt(p, Replace(b, s, r), i)
    ensures -|p| < d < |r| && Overlays(p, r, d) && (d < 0 ==> Occurs(p[..-d] + s, b))
    decreases |b|
  {
    hide Replace, Overlays;
    var out := Replace(b, s, r);
    if |b| < |s| {
      ReplaceShort(b, s, r);
      assert false;
    } else if OccursAt(s, b, 0) {
      ReplaceHere(b, s, r);
      if i < |r| {
        d := i;
        StartsInMarker(p, r, out, i);
      } else {
        OccursInTail(p, out, |r|, i - |r|);
        assert out[|r|..] == Replace(b[|s|..], s, r);
        d := FormedInTail(b, |s|, s, r, p, i - |r|);
      }
    } else if i == 0 {
      d := FormedAtStart(b, s, r, p);
    } else {
      ReplaceLater(b, s, r);
      OccursInTail(p, out, 1, i - 1);
      assert out[1..] == Replace(b[1..], s, r);
      d := FormedInTail(b, 1, s, r, p, i - 1);
    }
  }

  lemma {:induction false} FormedInTail(b: Bytes, k: nat, s: Bytes, r: Bytes, p: Bytes, i: int) returns (d: int)
    requires 0 < k <= |b| && s != [] && p != [] && !Occurs(p, b) && OccursAt(p, Replace(b[k..], s, r), i)
    ensures -|p| < d < |r| && Overlays(p, r, d) && (d < 0 ==> Occurs(p[..-d] + s, b))
    decreases |b|, 0
  {
    hide Replace, Overlays, Occurs;
    if Occurs(p, b[k..]) { LiftOccurrence(p, b, k); assert false; }
    d := FormedByMarker(b[k..], s, r, p, i);
    if d < 0 { LiftOccurrence(p[..-d] + s, b, k); }
  }

  lemma FormedAtStart(b: Bytes, s: Bytes, r: Bytes, p: Bytes) returns (d: int)
    requires s != [] && p != [] && !Occurs(p, b) && OccursAt(p, Replace(b, s, r), 0) && !OccursAt(s, b, 0)
    ensures -|p| < d < 0 && Overlays(p, r, d) && Occurs(p[..-d] + s, b)
  {
    hide Replace, Overlays;
    PrefixIsOccurrence(p, Replace(b, s, r));
    PrefixIsOccurrence(p, b);
    if i :| OccursAt(s, b, i) {
      var k: int := FindFirst(s, b, i);
      ReplaceAtFirst(b, s, r, k);
      if k >= |p| {
        LongPrefix(b, p, k, r + Replace(b[k + |s|..], s, r));
        assert false;
      }
      d := -k;
      MarkerAfter(b, s, r, p, k, Replace(b[k + |s|..], s, r));
    } else {
      ReplaceNothing(b, s, r);
      assert false;
    }
  }

  lemma MarkerAfter(b: Bytes, s: Bytes, r: Bytes, p: Bytes, k: int, rest: Bytes)
    requires 0 < k < |p| && OccursAt(s, b, k) && p <= b[..k] + (r + rest)
    ensures Overlays(p, r, -k) && Occurs(p[..k] + s, b)
  {
    var out := b[..k] + (r + rest);
    assert forall x :: 0 <= x < |p| ==> p[x] == out[x];
    assert p[..k] == b[..k];
    assert p[..k] + s == b[..k + |s|];
    assert OccursAt(p[..k] + s, b, 0);
  }

  // ----- passwords that end like the marker begins -----

  lemma MarkerIsUnbordered(t: nat)
    requires 0 < t < |REDACTED|
    ensures REDACTED[t] != REDACTED[0]
  {
  }

  /** What an occurrence of `p` inside `p[..n] + p` says: `p` repeats itself at distance `n - j`. */
  lemma SelfOverlap(p: Bytes, n: int, j: int)
    requires 0 <= j < n < |p| && OccursAt(p, p[..n] + p, j)
    ensures forall x :: 0 <= x < n - j ==> p[j + x] == p[x]
    ensures forall x :: 0 <= x < |p| - (n - j) ==> p[x + (n - j)] == p[x]
  {
    var w := p[..n] + p;
    assert forall x :: 0 <= x < |p| ==> p[x] == w[j..j + |p|][x] == w[j + x];
    forall x | 0 <= x < |p| - (n - j) ensures p[x + (n - j)] == p[x] {
      assert p[x + (n - j)] == w[j + (x + (n - j))];
    }
  }

  /** A shift that keeps the text moves the marker's first byte to a place where the marker has
      another one, unless it moves it out of the marker or out of the text. */
  lemma ShiftIsLong(p: Bytes, n: int, t: int)
    requires 0 < t <= n < |p| && Overlays(p, REDACTED, -n) && p[n] == REDACTED[0]
    requires forall x :: 0 <= x < |p| - t ==> p[x + t] == p[x]
    ensures t >= |p| - n || t >= |REDACTED|
  {
    hide Overlays;
    if n + t < |p| && t < |REDACTED| {
      MarkerIsUnbordered(t);
      OverlaidByte(p, n, n + t);
    }
  }

  lemma OverlaidByte(p: Bytes, n: int, x: int)
    requires Overlays(p, REDACTED, -n) && 0 <= n <= x < |p| && x - n < |REDACTED|
    ensures p[x] == REDACTED[x - n]
  {
    assert p[x] == REDACTED[-n + x];
  }

  /** If `p` ends with the beginning of the marker, laid over it from byte `n` on, but could not
      have been left standing in front of it, then it also begins with that stretch, or with the
      whole marker. */
  lemma BlockedOverlay(p: Bytes, n: int, j: int)
    requires 0 <= j < n < |p| && Overlays(p, REDACTED, -n) && OccursAt(p, p[..n] + p, j)
    ensures p[n] == p[0] == REDACTED[0]
    ensures Overlays(p, REDACTED, 0) || (|p| - n <= |REDACTED| && p[..|p| - n] == p[n..])
  {
    var t, m := n - j, |p| - n;
    SelfOverlap(p, n, j);
    assert p[n] == REDACTED[-n + n];
    assert p[n] == p[n - t] == p[j + 0];
    ShiftIsLong(p, n, t);
    var len := if m < |REDACTED| then m else |REDACTED|;
    forall x | 0 <= x < len ensures p[x] == p[n + x] {
      assert p[n + x] == p[n + x - t] == p[j + x];
    }
    if m > |REDACTED| {
      forall x | 0 <= x < |p| && 0 <= 0 + x < |REDACTED| ensures p[x] == REDACTED[0 + x] {
        assert p[n + x] == REDACTED[-n + (n + x)];
      }
    }
  }

  /** The bytes from `n` on are marker bytes. */
  lemma EndsInMarker(p: Bytes, n: int)
    requires 0 <= n < |p| && Overlays(p, REDACTED, -n) && |p| - n <= |REDACTED|
    ensures forall x :: n <= x < |p| ==> p[x] == REDACTED[x - n] && p[x] in REDACTED
  {
    forall x | n <= x < |p| ensures p[x] == REDACTED[x - n] && p[x] in REDACTED {
      assert p[x] == REDACTED[-n + x];
    }
  }

  // ----- the escaped form is no worse than the password -----

  ghost predicate Weak(p: Bytes) { exists d :: Resurrects(p, REDACTED, d) }

  lemma FrontIsWeak(p: Bytes, d: nat)
    requires p != [] && d < |REDACTED| && Overlays(p, REDACTED, d)
    ensures Weak(p)
  {
    assert Resurrects(p, REDACTED, d);
  }

  lemma EscapedFront(p: Bytes, d: nat)
    requires p != [] && d < |REDACTED| && Overlays(Escape(p), REDACTED, d)
    ensures Weak(p)
  {
    hide Escape, Weak;
    var q := Escape(p);
    NotShorter(p);
    var m := if |q| < |REDACTED| - d then |q| else |REDACTED| - d;
    forall x | 0 <= x < m ensures q[x] == REDACTED[d + x] && q[x] in REDACTED {}
    MarkerPrefixCopied(p, m);
    forall x | 0 <= x < |p| && 0 <= d + x < |REDACTED| ensures p[x] == REDACTED[d + x] {
      assert x < m && p[x] == p[..m][x] == q[..m][x];
    }
    FrontIsWeak(p, d);
  }

  lemma EscapedBack(p: Bytes, i: int)
    requires i > 0 && p != [] && i < |Escape(p)| && Resurrects(Escape(p), REDACTED, -i)
    ensures Weak(p)
  {
    hide Escape, Weak;
    var q := Escape(p);
    assert q[i] == REDACTED[-i + i];
    var n: int := Locate(p, i);
    if n == 0 { EscapeNothing(); assert false; }
    BackOverlay(p, n, q, i);
    if !FirstAt(p, p[..n] + p, n) {
      var j := EarlierOccurrence(p, n);
      BlockedOverlay(p, n, j);
      if Overlays(p, REDACTED, 0) {
        FrontIsWeak(p, 0);
      } else {
        EscapedBlocked(p, n, j, i);
        assert false;
      }
    } else {
      assert Resurrects(p, REDACTED, -n);
      BackIsWeak(p, n);
    }
  }

  lemma BackIsWeak(p: Bytes, n: int)
    requires Resurrects(p, REDACTED, -n)
    ensures Weak(p)
  {
  }

  lemma BackOverlay(p: Bytes, n: int, q: Bytes, i: int)
    requires 0 <= n < |p| && 0 <= i < |q| && Escape(p[n..]) == q[i..] && Overlays(q, REDACTED, -i)
    ensures Overlays(p, REDACTED, -n)
  {
    hide Escape;
    var w := q[i..];
    var m := if |w| < |REDACTED| then |w| else |REDACTED|;
    forall x | 0 <= x < m ensures w[x] == REDACTED[x] && w[x] in REDACTED {
      assert q[i + x] == REDACTED[-i + (i + x)];
    }
    MarkerPrefixCopied(p[n..], m);
    NotShorter(p[n..]);
    forall x | 0 <= x < |p| && 0 <= -n + x < |REDACTED| ensures p[x] == REDACTED[-n + x] {
      assert x - n < m && p[x] == p[n..][..m][x - n] == w[..m][x - n];
    }
  }

  lemma EarlierOccurrence(p: Bytes, n: int) returns (j: int)
    requires 0 <= n <= |p| && !FirstAt(p, p[..n] + p, n)
    ensures 0 <= j < n && OccursAt(p, p[..n] + p, j)
  {
    assert (p[..n] + p)[n..n + |p|] == p;
    j :| 0 <= j < n && OccursAt(p, p[..n] + p, j);
  }

  /** If the password could not have been left standing in front of the marker, neither could its
      escaped form: the earlier occurrence is escaped along with the rest. */
  lemma EscapedBlocked(p: Bytes, n: int, j: int, i: int)
    requires 0 <= j < n < |p| && OccursAt(p, p[..n] + p, j) && p[n] == p[0] == REDACTED[0]
    requires Overlays(p, REDACTED, -n) && |p| - n <= |REDACTED|
    requires 0 <= i <= |Escape(p)| && Escape(p[..n]) == Escape(p)[..i]
    ensures !FirstAt(Escape(p), Escape(p)[..i] + Escape(p), i)
  {
    hide Escape, Overlays;
    var q := Escape(p);
    var u := p[..n];
    var a, rest := u[..j], (u + p)[j + |p|..];
    SplitAtOccurrence(u, p, j);
    assert p[|p| - 1] < 0x80 by { EndsInMarker(p, n); MarkerByte(p[|p| - 1]); }
    EscapeSplits(u, p);
    EscapeSplits(a, p + rest);
    EscapeSplitsAfter(p, rest);
    EscapeSplits(a, u[j..]);
    NotShorter(u[j..]);
    ShiftedOccurrence(q[..i] + q, Escape(a), q, Escape(rest));
  }

  lemma SplitAtOccurrence(u: Bytes, p: Bytes, j: int)
    requires p != [] && 0 <= j < |u| && OccursAt(p, u + p, j)
    ensures u + p == u[..j] + (p + (u + p)[j + |p|..])
    ensures u == u[..j] + u[j..] && u[j] == p[0]
  {
    var w := u + p;
    assert w == w[..j] + w[j..j + |p|] + w[j + |p|..];
    assert p[0] == w[j..j + |p|][0] == w[j];
  }

  lemma ShiftedOccurrence(w: Bytes, a: Bytes, q: Bytes, rest: Bytes)
    requires w == a + (q + rest)
    ensures OccursAt(q, w, |a|)
  {
  }

  lemma EscapedIsNoWorse(p: Bytes, d: int)
    requires p != [] && Resurrects(Escape(p), REDACTED, d)
    ensures Weak(p)
  {
    if d >= 0 { EscapedFront(p, d); } else { EscapedBack(p, -d); }
  }

  // ----- the second pass does not bring the password back -----

  lemma SecondPassAddsNothing(b: Bytes, p: Bytes)
    requires p != [] && !Weak(p) && !Occurs(p, b) && Escape(p) != []
    ensures !Occurs(p, Replace(b, Escape(p), REDACTED))
  {
    hide Escape, Replace, Weak;
    if i :| OccursAt(p, Replace(b, Escape(p), REDACTED), i) {
      var d := FormedByMarker(b, Escape(p), REDACTED, p, i);
      if d >= 0 { FrontIsWeak(p, d); } else { InFrontOfEscaped(b, p, -d); }
      assert false;
    }
  }

  /** The password cannot lie across the second marker either: then the escaped form that was
      replaced begins like the rest of the password, which was therefore there before. */
  lemma InFrontOfEscaped(b: Bytes, p: Bytes, n: int)
    requires 0 < n < |p| && Overlays(p, REDACTED, -n) && Occurs(p[..n] + Escape(p), b)
    ensures Weak(p) || Occurs(p, b)
  {
    hide Escape, Weak, Occurs;
    if FirstAt(p, p[..n] + p, n) {
      assert Resurrects(p, REDACTED, -n);
      BackIsWeak(p, n);
    } else {
      var j := EarlierOccurrence(p, n);
      BlockedOverlay(p, n, j);
      if Overlays(p, REDACTED, 0) {
        FrontIsWeak(p, 0);
      } else {
        EndsInMarker(p, n);
        var m := |p| - n;
        assert forall x :: 0 <= x < m ==> p[x] == p[..m][x] == p[n..][x] == p[n + x];
        MarkerPrefixKept(p, m);
        PrefixOccurs(b, p, n, Escape(p));
      }
    }
  }

  lemma PrefixOccurs(b: Bytes, p: Bytes, n: int, q: Bytes)
    requires 0 <= n <= |p| && |p| - n <= |q| && q[..|p| - n] == p[n..] && Occurs(p[..n] + q, b)
    ensures Occurs(p, b)
  {
    var i :| OccursAt(p[..n] + q, b, i);
    assert (p[..n] + q)[..|p|] == p[..n] + q[..|p| - n] == p;
    assert b[i..i + |p|] == b[i..i + n + |q|][..|p|];
    assert OccursAt(p, b, i);
  }

  // ----- a weak password does come through -----

  lemma CountPart(b: Bytes, i: nat, j: nat, c: byte)
    requires i <= j <= |b|
    ensures Count(b[..i], c) + Count(b[j..], c) <= Count(b, c)
  {
    assert b == b[..i] + b[i..] && b[i..] == b[i..j] + b[j..];
    CountAppend(b[..i], b[i..], c);
    CountAppend(b[i..j], b[j..], c);
  }

  lemma CountInside(p: Bytes, b: Bytes, c: byte)
    requires Occurs(p, b)
    ensures Count(p, c) <= Count(b, c)
  {
    var i :| OccursAt(p, b, i);
    assert b == b[..i] + (p + b[i + |p|..]);
    CountAppend(b[..i], p + b[i + |p|..], c);
    CountAppend(p, b[i + |p|..], c);
  }

  lemma FewBackslashes(p: Bytes, d: int)
    requires -|p| < d < |REDACTED|
    ensures Count(Before(p, d) + (REDACTED + After(p, REDACTED, d)), BSLASH) <= Count(p, BSLASH)
  {
    hide Count;
    var u, v := Before(p, d), After(p, REDACTED, d);
    CountAppend(u, REDACTED + v, BSLASH);
    CountAppend(REDACTED, v, BSLASH);
    CountAbsent(REDACTED, BSLASH);
    var i := if d < 0 then -d else 0;
    var j := if |REDACTED| - d < |p| then |REDACTED| - d else |p|;
    assert u == p[..i] && v == p[j..];
    CountPart(p, i, j, BSLASH);
  }

  /** The line a weak password comes back in has too few backslashes to hold its escaped form. */
  lemma NoEscapedForm(p: Bytes, d: int)
    requires p != [] && -|p| < d < |REDACTED| && Escape(p) != p
    ensures !Occurs(Escape(p), Before(p, d) + (REDACTED + After(p, REDACTED, d)))
  {
    hide Escape, Count, Before, After, Occurs;
    var b := Before(p, d) + (REDACTED + After(p, REDACTED, d));
    MoreBackslashes(p);
    FewBackslashes(p, d);
    if Occurs(Escape(p), b) { CountInside(Escape(p), b, BSLASH); }
  }

  // ----- the result -----

  /** What `emit` writes for a line, with the scrub list `New` builds from the password. */
  function Emitted(line: Bytes, password: Bytes): Bytes {
    if password == [] then line
    else
      var first, escaped := Replace(line, password, REDACTED), Escape(password);
      if escaped == password || escaped == [] then first else Replace(first, escaped, REDACTED)
  }

  /** `Emitted` is the scrub list of `New` run through the loop of `emit`. */
  lemma EmittedByLoop(line: Bytes, password: Bytes)
    requires password != []
    ensures Escape(password) != [] && Emitted(line, password) == ScrubAll(line, ScrubList(password, Escape(password)))
  {
    hide Escape, Replace;
    NotShorter(password);
    var escaped := Escape(password);
    var scrubs := ScrubList(password, escaped);
    if escaped == password {
      assert scrubs[..0] == [];
    } else {
      assert scrubs[..1] == [password] && [password][..0] == [];
      assert ScrubAll(line, [password]) == Replace(line, password, REDACTED);
    }
  }

  ghost predicate LeaksForm(line: Bytes, password: Bytes) {
    Occurs(password, Emitted(line, password)) || Occurs(Escape(password), Emitted(line, password))
  }

  lemma WeakLeaks(p: Bytes, d: int) returns (line: Bytes)
    requires p != [] && Resurrects(p, REDACTED, d)
    ensures LeaksForm(line, p)
  {
    hide Escape, Replace, Occurs;
    line := ResurrectingLine(p, REDACTED, d);
    if Escape(p) != p && Escape(p) != [] {
      NoEscapedForm(p, d);
      ReplaceNothing(Replace(line, p, REDACTED), Escape(p), REDACTED);
    } else {
      NotShorter(p);
    }
  }

  lemma StrongIsClean(line: Bytes, p: Bytes)
    requires p != [] && !Weak(p)
    ensures !LeaksForm(line, p)
  {
    hide Escape, Replace, Weak;
    NotShorter(p);
    var q := Escape(p);
    var first := Replace(line, p, REDACTED);
    PassRemoves(line, p, p);
    if q != p {
      PassRemoves(first, q, p);
      SecondPassAddsNothing(first, p);
    }
  }

  /** One pass removes the password, and the escaped form, of a password that is not weak. */
  lemma PassRemoves(line: Bytes, s: Bytes, p: Bytes)
    requires p != [] && s != [] && !Weak(p) && (s == p || s == Escape(p))
    ensures !Occurs(s, Replace(line, s, REDACTED))
  {
    hide Escape, Replace, Resurrects;
    if i :| OccursAt(s, Replace(line, s, REDACTED), i) {
      var d := SurvivorWasResurrected(line, s, REDACTED, i);
      if s != p { EscapedIsNoWorse(p, d); }
      assert false;
    }
  }

  /** After everything the logger does, neither the password nor its escaped form is left in any
      line if and only if the marker cannot put the password back. */
  lemma BothPassesExactly(password: Bytes)
    requires password != []
    ensures (forall line :: !LeaksForm(line, password)) <==> !(exists d :: Resurrects(password, REDACTED, d))
  {
    hide Resurrects, LeaksForm;
    if d :| Resurrects(password, REDACTED, d) {
      var line := WeakLeaks(password, d);
    } else {
      forall line ensures !LeaksForm(line, password) { StrongIsClean(line, password); }
    }
  }

  /** A password the logger cannot keep out of its own log: every RFC 3339 timestamp contains the
      letter T, so with that letter as the password every logfmt line still shows it. */
  lemma TimestampLetterSurvives(r: Logfmt.Record)
    requires 0x54 in r.ts
    ensures LeaksForm(Logfmt.EncodeLine(r), [0x54])
  {
    hide Replace;
    var line, p := Logfmt.EncodeLine(r), [0x54 as byte];
    var i :| 0 <= i < |r.ts| && r.ts[i] == 0x54;
    assert line[i] == 0x54;
    assert Escape(p) == p by { FirstAlone(0x54, []); EscapeNothing(); assert p + [] == p; }
    MarkerLetterSurvives(0x54, line);
  }
}
