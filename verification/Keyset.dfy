/** The authorized-keys source: loading, reloading, and the membership check. */
module Keyset {
  import opened Common

  /** A SHA-256 digest, read as a big-endian number so that byte order is numeric order. */
  type Digest = nat

  datatype AcceptedKey = AcceptedKey(digest: Digest, comment: Bytes)

  /** What the key parser makes of one line. */
  datatype Line = Skipped | Malformed | KeyLine(key: AcceptedKey, hasOptions: bool)

  /** What reading the file yields; `Cut` is a scan error after some lines. */
  datatype File = Missing | OpenError | Cut(lines: seq<Line>) | Contents(lines: seq<Line>)

  datatype Failure = NotExist | Other

  datatype Parsed = Keys(keys: seq<AcceptedKey>) | Failed(why: Failure)

  /** The keys of the well-formed lines, in file order. */
  function AcceptedOf(lines: seq<Line>): seq<AcceptedKey> {
    if lines == [] then []
    else
      var last := lines[|lines| - 1];
      AcceptedOf(lines[..|lines| - 1]) + (if last.KeyLine? then [last.key] else [])
  }

  ghost predicate Sorted(ks: seq<AcceptedKey>) {
    forall i, j :: 0 <= i < j < |ks| ==> ks[i].digest <= ks[j].digest
  }

  function Insert(k: AcceptedKey, ks: seq<AcceptedKey>): seq<AcceptedKey> {
    if ks == [] || k.digest < ks[0].digest then [k] + ks else [ks[0]] + Insert(k, ks[1..])
  }

  function SortByDigest(ks: seq<AcceptedKey>): seq<AcceptedKey> {
    if ks == [] then [] else Insert(ks[|ks| - 1], SortByDigest(ks[..|ks| - 1]))
  }

  lemma {:induction false} InsertAdds(k: AcceptedKey, ks: seq<AcceptedKey>)
    ensures multiset(Insert(k, ks)) == multiset(ks) + multiset{k}
  {
    if ks != [] && !(k.digest < ks[0].digest) {
      InsertAdds(k, ks[1..]);
      assert ks == [ks[0]] + ks[1..];
    }
  }

  lemma {:induction false} InsertSorts(k: AcceptedKey, ks: seq<AcceptedKey>)
    requires Sorted(ks)
    ensures Sorted(Insert(k, ks))
  {
    if ks != [] && !(k.digest < ks[0].digest) {
      var tail := Insert(k, ks[1..]);
      InsertSorts(k, ks[1..]);
      forall j | 0 <= j < |tail| ensures ks[0].digest <= tail[j].digest {
        InsertMember(k, ks[1..], tail[j]);
      }
    }
  }

  lemma InsertMember(k: AcceptedKey, ks: seq<AcceptedKey>, x: AcceptedKey)
    requires x in Insert(k, ks)
    ensures x == k || x in ks
  {
    InsertAdds(k, ks);
    assert x in multiset(Insert(k, ks));
  }

  lemma {:induction false} SortSorts(ks: seq<AcceptedKey>)
    ensures Sorted(SortByDigest(ks)) && multiset(SortByDigest(ks)) == multiset(ks)
  {
    if ks != [] {
      SortSorts(ks[..|ks| - 1]);
      InsertSorts(ks[|ks| - 1], SortByDigest(ks[..|ks| - 1]));
      InsertAdds(ks[|ks| - 1], SortByDigest(ks[..|ks| - 1]));
      assert ks == ks[..|ks| - 1] + [ks[|ks| - 1]];
    }
  }

  function ParseOf(f: File): Parsed {
    match f
    case Missing => Failed(NotExist)
    case OpenError => Failed(Other)
    case Cut(_) => Failed(Other)
    case Contents(lines) => Keys(SortByDigest(AcceptedOf(lines)))
  }

  method Parse(f: File) returns (p: Parsed)
    ensures p == ParseOf(f)
  {
    if f.Missing? { return Failed(NotExist); }
    if f.OpenError? { return Failed(Other); }
    var accepted: seq<AcceptedKey> := [];
    var i := 0;
    while i < |f.lines|
      invariant 0 <= i <= |f.lines|
      invariant accepted == AcceptedOf(f.lines[..i])
    {
      assert f.lines[..i + 1][..i] == f.lines[..i];
      if f.lines[i].KeyLine? {
        accepted := accepted + [f.lines[i].key];
      }
      i := i + 1;
    }
    assert f.lines[..|f.lines|] == f.lines;
    if f.Cut? { return Failed(Other); }
    p := Keys(SortByDigest(accepted));
  }

  // ----- the check -----

  ghost predicate Accepts(ks: seq<AcceptedKey>, presented: Digest) {
    exists i :: 0 <= i < |ks| && ks[i].digest == presented
  }

  /** The scan never stops early; `None` is a source that was never loaded. */
  method Check(keyset: Option<seq<AcceptedKey>>, presented: Digest) returns (ok: bool)
    ensures ok <==> keyset.Some? && Accepts(keyset.value, presented)
  {
    var matched := 0;
    if keyset.Some? && |keyset.value| > 0 {
      var i := 0;
      while i < |keyset.value|
        invariant 0 <= i <= |keyset.value|
        invariant matched != 0 <==> exists j :: 0 <= j < i && keyset.value[j].digest == presented
      {
        var same := if keyset.value[i].digest == presented then 1 else 0;
        matched := if matched != 0 || same != 0 then 1 else 0;
        i := i + 1;
      }
    }
    ok := matched != 0;
  }

  /** A loaded file accepts exactly the digests on its well-formed lines, whatever their order
      or repetition. */
  lemma AcceptsExactlyTheLines(lines: seq<Line>, presented: Digest)
    ensures Accepts(SortByDigest(AcceptedOf(lines)), presented) <==>
            exists i :: 0 <= i < |lines| && lines[i].KeyLine? && lines[i].key.digest == presented
  {
    var ks, sorted := AcceptedOf(lines), SortByDigest(AcceptedOf(lines));
    SortSorts(ks);
    AcceptedAreTheLines(lines, presented);
    if i :| 0 <= i < |sorted| && sorted[i].digest == presented {
      assert sorted[i] in multiset(sorted);
      assert sorted[i] in ks;
    }
    if i :| 0 <= i < |ks| && ks[i].digest == presented {
      assert ks[i] in multiset(ks);
      assert ks[i] in sorted;
    }
  }

  lemma {:induction false} AcceptedAreTheLines(lines: seq<Line>, presented: Digest)
    ensures Accepts(AcceptedOf(lines), presented) <==>
            exists i :: 0 <= i < |lines| && lines[i].KeyLine? && lines[i].key.digest == presented
  {
    if lines != [] {
      var n := |lines| - 1;
      AcceptedAreTheLines(lines[..n], presented);
      var before, after := AcceptedOf(lines[..n]), AcceptedOf(lines);
      assert forall i :: 0 <= i < |before| ==> after[i] == before[i];
      if lines[n].KeyLine? { assert after[|before|] == lines[n].key; }
      if i :| 0 <= i < |after| && after[i].digest == presented {
        if i < |before| { assert before[i].digest == presented; }
      }
    }
  }

  /** Two files whose accepted lines are permutations of each other accept the same keys. */
  lemma OrderDoesNotMatter(a: seq<AcceptedKey>, b: seq<AcceptedKey>, presented: Digest)
    requires multiset(a) == multiset(b)
    ensures Accepts(a, presented) <==> Accepts(b, presented)
  {
    if i :| 0 <= i < |a| && a[i].digest == presented {
      assert a[i] in multiset(a);
      assert a[i] in b;
    }
    if i :| 0 <= i < |b| && b[i].digest == presented {
      assert b[i] in multiset(b);
      assert b[i] in a;
    }
  }

  // ----- load and reload -----

  datatype Event = KeysMissing | ReloadOk(count: nat) | ReloadFailed

  /** What one reload leaves behind. */
  function Reloaded(cur: Option<seq<AcceptedKey>>, f: File): Option<seq<AcceptedKey>> {
    match ParseOf(f)
    case Failed(_) => cur
    case Keys(ks) => if ks == [] && cur.Some? && |cur.value| >= 1 then cur else Some(ks)
  }

  class KeysetSource {
    var cur: Option<seq<AcceptedKey>>
    var log: seq<Event>

    constructor ()
      ensures cur == None && log == []
    {
      cur, log := None, [];
    }

    method Load(f: File) returns (err: Option<Failure>)
      modifies this
      ensures f.Contents? ==> err == None && cur == Some(SortByDigest(AcceptedOf(f.lines))) && log == old(log)
      ensures f.Missing? ==> err == None && cur == Some([]) && log == old(log) + [KeysMissing]
      ensures f.OpenError? || f.Cut? ==> err == Some(Other) && cur == old(cur) && log == old(log)
    {
      var p := Parse(f);
      match p {
        case Failed(NotExist) =>
          log := log + [KeysMissing];
          cur := Some([]);
          err := None;
        case Failed(Other) =>
          err := Some(Other);
        case Keys(ks) =>
          cur := Some(ks);
          err := None;
      }
    }

    method Reload(f: File) returns (ok: bool)
      modifies this
      ensures cur == Reloaded(old(cur), f)
      ensures ok ==> cur.Some? && log == old(log) + [ReloadOk(|cur.value|)] && ParseOf(f) == Keys(cur.value)
      ensures !ok ==> cur == old(cur) && log == old(log) + [ReloadFailed]
    {
      var p := Parse(f);
      if p.Failed? {
        log := log + [ReloadFailed];
        return false;
      }
      var prev := cur;
      if |p.keys| == 0 && prev.Some? && |prev.value| >= 1 {
        log := log + [ReloadFailed];
        return false;
      }
      cur := Some(p.keys);
      log := log + [ReloadOk(|p.keys|)];
      ok := true;
    }
  }

  function AfterReloads(cur: Option<seq<AcceptedKey>>, files: seq<File>): Option<seq<AcceptedKey>> {
    if files == [] then cur else Reloaded(AfterReloads(cur, files[..|files| - 1]), files[|files| - 1])
  }

  /** The file read without error and with at least one usable key. */
  predicate Usable(f: File) { f.Contents? && AcceptedOf(f.lines) != [] }

  /** `i` is the last usable file, or -1 when there is none. */
  ghost predicate LastUsable(files: seq<File>, i: int) {
    && -1 <= i < |files|
    && (i >= 0 ==> Usable(files[i]))
    && forall j :: i < j < |files| ==> !Usable(files[j])
  }

  lemma SortedEmptyIffEmpty(ks: seq<AcceptedKey>)
    ensures SortByDigest(ks) == [] <==> ks == []
  {
    SortSorts(ks);
    assert |multiset(ks)| == |ks| && |multiset(SortByDigest(ks))| == |SortByDigest(ks)|;
  }

  /** Starting from a keyset with at least one key, any sequence of reloads, with whatever errors
      and contents, leaves a non-empty keyset: the one from the last usable file, or the
      original if there was none. */
  lemma {:induction false} ReloadsKeepLastUsable(start: seq<AcceptedKey>, files: seq<File>, i: int)
    requires start != [] && LastUsable(files, i)
    ensures var cur := AfterReloads(Some(start), files);
            && cur.Some? && cur.value != []
            && cur.value == if i < 0 then start else SortByDigest(AcceptedOf(files[i].lines))
    decreases |files|
  {
    if files != [] {
      var n := |files| - 1;
      var before, f := files[..n], files[n];
      if f.Contents? { SortedEmptyIffEmpty(AcceptedOf(f.lines)); }
      if Usable(f) {
        assert i == n;
        var j := FindLastUsable(before);
        ReloadsKeepLastUsable(start, before, j);
      } else {
        ReloadsKeepLastUsable(start, before, i);
      }
    }
  }

  lemma {:induction false} FindLastUsable(files: seq<File>) returns (i: int)
    ensures LastUsable(files, i)
    decreases |files|
  {
    if files == [] {
      i := -1;
    } else if Usable(files[|files| - 1]) {
      i := |files| - 1;
    } else {
      i := FindLastUsable(files[..|files| - 1]);
    }
  }

  /** The startup check: a publickey-only server does not run without a key. */
  predicate StartsPublickeyOnly(f: File) {
    match ParseOf(f)
    case Failed(_) => false      // a missing file loads as an empty keyset; other errors abort
    case Keys(ks) => |ks| != 0
  }

  /** Once a publickey-only server has started, no sequence of reloads locks everyone out, and at
      every moment it accepts exactly the keys on the well-formed lines of the last usable file. */
  lemma NeverLockedOut(first: File, files: seq<File>, i: int, presented: Digest)
    requires StartsPublickeyOnly(first) && LastUsable(files, i)
    ensures var cur := AfterReloads(Some(ParseOf(first).keys), files);
            var f := if i < 0 then first else files[i];
            && cur.Some? && cur.value != []
            && (Accepts(cur.value, presented) <==>
                exists j :: 0 <= j < |f.lines| && f.lines[j].KeyLine? && f.lines[j].key.digest == presented)
  {
    SortedEmptyIffEmpty(AcceptedOf(first.lines));
    ReloadsKeepLastUsable(ParseOf(first).keys, files, i);
    AcceptsExactlyTheLines((if i < 0 then first else files[i]).lines, presented);
  }
}
