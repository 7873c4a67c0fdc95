/** Files of one record a line, appended to and read back whole; an append that a
    crash cut short leaves a last line without its newline. */
module WireFiles {
  import opened ByteStrings

  const NEWLINE: byte := 10

  /** How a record is written on a line and read from one. */
  datatype Codec<!T> = Codec(encode: T -> Bytes, decode: Bytes -> Option<T>)

  ghost predicate Faithful<T(!new)>(c: Codec<T>) {
    forall r :: c.decode(c.encode(r)) == Some(r) && NEWLINE !in c.encode(r)
  }

  function LineOf<T>(c: Codec<T>, r: T): Bytes { c.encode(r) + [NEWLINE] }

  function Written<T>(c: Codec<T>, rs: seq<T>): Bytes {
    if rs == [] then [] else LineOf(c, rs[0]) + Written(c, rs[1..])
  }

  /** How much of a file is whole lines. */
  function Whole(file: Bytes): (n: nat)
    ensures n <= |file|
  {
    if file == [] then 0
    else if file[|file| - 1] == NEWLINE then |file|
    else Whole(file[..|file| - 1])
  }

  function FirstBreak(b: Bytes): (n: nat)
    ensures n <= |b| && NEWLINE !in b[..n] && (n < |b| ==> b[n] == NEWLINE)
  {
    if b == [] || b[0] == NEWLINE then 0 else 1 + FirstBreak(b[1..])
  }

  function Lines(b: Bytes): seq<Bytes> {
    if b == [] then []
    else
      var n := FirstBreak(b);
      if n == |b| then [b] else [b[..n]] + Lines(b[n + 1..])
  }

  function Parse<T>(c: Codec<T>, lines: seq<Bytes>): Option<seq<T>> {
    if lines == [] then Some([])
    else
      match (c.decode(lines[0]), Parse(c, lines[1..]))
      case (Some(r), Some(rs)) => Some([r] + rs)
      case _ => None
  }

  /** What reading a file gives, its torn tail dropped first. */
  function ReadBack<T>(c: Codec<T>, file: Bytes): Option<seq<T>> {
    Parse(c, Lines(file[..Whole(file)]))
  }

  // ---- Healing ----

  lemma {:induction false} WholeOfParts(a: Bytes, tail: Bytes)
    requires NEWLINE !in tail && (a == [] || a[|a| - 1] == NEWLINE)
    ensures Whole(a + tail) == |a|
    decreases |tail|
  {
    if tail == [] {
      assert a + tail == a;
    } else {
      assert (a + tail)[..|a + tail| - 1] == a + tail[..|tail| - 1];
      assert (a + tail)[|a + tail| - 1] == tail[|tail| - 1];
      WholeOfParts(a, tail[..|tail| - 1]);
    }
  }

  lemma WholeIs(file: Bytes, keep: nat)
    requires keep <= |file| && (keep > 0 ==> file[keep - 1] == NEWLINE)
    requires forall j :: keep <= j < |file| ==> file[j] != NEWLINE
    ensures Whole(file) == keep
  {
    assert file == file[..keep] + file[keep..];
    WholeOfParts(file[..keep], file[keep..]);
  }

  method LastBreak(chunk: Bytes) returns (i: int)
    ensures -1 <= i < |chunk|
    ensures i >= 0 ==> chunk[i] == NEWLINE
    ensures forall j :: i < j < |chunk| ==> chunk[j] != NEWLINE
  {
    i := |chunk| - 1;
    while i >= 0 && chunk[i] != NEWLINE
      invariant -1 <= i < |chunk|
      invariant forall j :: i < j < |chunk| ==> chunk[j] != NEWLINE
    {
      i := i - 1;
    }
  }

  const CHUNK: nat := 65_536

  /** Drops a final line with no newline, walking back a chunk at a time. */
  method HealTornTail(file: Bytes) returns (healed: Bytes, dropped: nat)
    ensures healed == file[..Whole(file)] && dropped == |file| - Whole(file)
  {
    hide Whole;
    var size := |file|;
    if size == 0 || file[size - 1] == NEWLINE {
      WholeIs(file, size);
      return file, 0;
    }
    var keep := 0;
    var end := size;
    while end > 0 && keep == 0
      invariant 0 <= end <= size && 0 <= keep <= size
      invariant forall j :: (if keep > 0 then keep else end) <= j < size ==> file[j] != NEWLINE
      invariant keep > 0 ==> file[keep - 1] == NEWLINE
    {
      var start := end - CHUNK;
      if start < 0 {
        start := 0;
      }
      var chunk := file[start..end];
      var i := LastBreak(chunk);
      assert forall j :: start + i < j < end ==> file[j] == chunk[j - start];
      if i >= 0 {
        keep := start + i + 1;
      }
      end := start;
    }
    WholeIs(file, keep);
    healed, dropped := file[..keep], size - keep;
  }

  // ---- Round trip ----

  lemma {:induction false} FirstBreakOf(a: Bytes, rest: Bytes)
    requires NEWLINE !in a
    ensures FirstBreak(a + [NEWLINE] + rest) == |a|
  {
    if a == [] {
    } else {
      assert (a + [NEWLINE] + rest)[1..] == a[1..] + [NEWLINE] + rest;
      FirstBreakOf(a[1..], rest);
    }
  }

  lemma {:induction false} WrittenEndsWhole<T>(c: Codec<T>, rs: seq<T>)
    ensures Written(c, rs) == [] || Written(c, rs)[|Written(c, rs)| - 1] == NEWLINE
  {
    if rs != [] {
      WrittenEndsWhole(c, rs[1..]);
    }
  }

  lemma FirstLine(b: Bytes)
    requires b != []
    ensures
      var n := FirstBreak(b);
      Lines(b) == [b[..n]] + Lines(if n == |b| then [] else b[n + 1..])
  {
    assert b[..|b|] == b;
  }

  lemma ParseFirst<T>(c: Codec<T>, line: Bytes, rest: seq<Bytes>)
    ensures Parse(c, [line] + rest) ==
      match (c.decode(line), Parse(c, rest))
      case (Some(r), Some(rs)) => Some([r] + rs)
      case _ => None
  {
    assert ([line] + rest)[1..] == rest;
  }

  lemma WrittenFirst<T>(c: Codec<T>, rs: seq<T>)
    requires rs != []
    ensures Written(c, rs) == c.encode(rs[0]) + [NEWLINE] + Written(c, rs[1..])
  {
  }

  lemma NothingReads<T>(c: Codec<T>)
    ensures Parse(c, Lines(Written(c, []))) == Some([])
  {
  }

  lemma {:induction false} LinesParse<T(!new)>(c: Codec<T>, rs: seq<T>)
    requires Faithful(c)
    ensures Parse(c, Lines(Written(c, rs))) == Some(rs)
  {
    hide Lines, Parse, Written, FirstBreak;
    if rs == [] {
      NothingReads(c);
    } else {
      var b, line, rest := Written(c, rs), c.encode(rs[0]), Written(c, rs[1..]);
      LinesParse(c, rs[1..]);
      assert Lines(b) == [line] + Lines(rest) by {
        WrittenFirst(c, rs);
        FirstBreakOf(line, rest);
        FirstLine(b);
        assert b[..|line|] == line && b[|line| + 1..] == rest;
      }
      ParseFirst(c, line, Lines(rest));
      assert rs == [rs[0]] + rs[1..];
    }
  }

  /** Whatever part of one more record a crash left behind, reading gives exactly
      the records that were written whole. */
  lemma ReadsWholeRecords<T(!new)>(c: Codec<T>, rs: seq<T>, tail: Bytes)
    requires Faithful(c) && NEWLINE !in tail
    ensures ReadBack(c, Written(c, rs) + tail) == Some(rs)
    ensures (Written(c, rs) + tail)[..Whole(Written(c, rs) + tail)] == Written(c, rs)
  {
    WrittenEndsWhole(c, rs);
    WholeOfParts(Written(c, rs), tail);
    LinesParse(c, rs);
  }

  lemma {:induction false} WrittenAppends<T>(c: Codec<T>, rs: seq<T>, r: T)
    ensures Written(c, rs + [r]) == Written(c, rs) + LineOf(c, r)
  {
    if rs == [] {
      assert [r][1..] == [];
    } else {
      assert (rs + [r])[1..] == rs[1..] + [r];
      WrittenAppends(c, rs[1..], r);
    }
  }

  /** How one append ends: written; refused with the file untouched; written and
      reported failed; or cut short by a crash. */
  datatype Append = Done | Nothing | Late | Cut(n: nat)

  function Appended(file: Bytes, line: Bytes, how: Append): Bytes {
    match how
    case Nothing => file
    case Cut(n) => file + line[..if n <= |line| then n else |line|]
    case _ => file + line
  }

  predicate Landed(line: Bytes, how: Append) {
    how.Done? || how.Late? || (how.Cut? && how.n >= |line|)
  }

  /** A file of whole records and perhaps a piece of one more. */
  ghost predicate Filed<T>(c: Codec<T>, file: Bytes, rs: seq<T>) {
    exists tail :: NEWLINE !in tail && file == Written(c, rs) + tail
  }

  lemma FiledReads<T(!new)>(c: Codec<T>, file: Bytes, rs: seq<T>)
    requires Faithful(c) && Filed(c, file, rs)
    ensures ReadBack(c, file) == Some(rs) && file[..Whole(file)] == Written(c, rs)
  {
    var tail :| NEWLINE !in tail && file == Written(c, rs) + tail;
    ReadsWholeRecords(c, rs, tail);
  }

  /** Appending to a healed file, however it ends, leaves whole records and at most
      a piece of one. */
  lemma AppendFiles<T(!new)>(c: Codec<T>, rs: seq<T>, r: T, how: Append)
    requires Faithful(c)
    ensures Filed(c, Appended(Written(c, rs), LineOf(c, r), how), if Landed(LineOf(c, r), how) then rs + [r] else rs)
  {
    var line := LineOf(c, r);
    var file := Appended(Written(c, rs), line, how);
    if Landed(line, how) {
      WrittenAppends(c, rs, r);
      assert how.Cut? ==> line[..|line|] == line;
      assert file == Written(c, rs + [r]) + [];
    } else if how.Cut? {
      assert line[..how.n] == c.encode(r)[..how.n];
      assert file == Written(c, rs) + line[..how.n];
    } else {
      assert file == Written(c, rs) + [];
    }
  }

  /** In a running process an append leaves the file whole. */
  lemma AppendedWhole<T>(c: Codec<T>, rs: seq<T>, r: T, how: Append)
    requires !how.Cut?
    ensures Appended(Written(c, rs), LineOf(c, r), how) ==
      Written(c, if Landed(LineOf(c, r), how) then rs + [r] else rs)
  {
    WrittenAppends(c, rs, r);
  }

  /** What parsing makes of the first line and of the rest. */
  lemma ParseTakesLine<T>(c: Codec<T>, b: Bytes)
    requires b != []
    ensures
      var n := FirstBreak(b);
      var rest := if n == |b| then [] else b[n + 1..];
      Parse(c, Lines(b)) ==
      match (c.decode(b[..n]), Parse(c, Lines(rest)))
      case (Some(r), Some(rs)) => Some([r] + rs)
      case _ => None
  {
    hide Lines, Parse, FirstBreak;
    FirstLine(b);
    var n := FirstBreak(b);
    ParseFirst(c, b[..n], Lines(if n == |b| then [] else b[n + 1..]));
  }
}
