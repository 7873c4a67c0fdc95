/** One frame is recorded once: what the journal takes for a repeat, and that no run
    records anything twice. */
module JournalOnce {
  import opened ByteStrings
  import opened WireFiles
  import opened Journal

  /** One sender's one text in one group, whatever its number and time. */
  predicate Alike(a: Record, b: Record) { a.gcid == b.gcid && a.from == b.from && a.text == b.text }

  predicate OnceEach(frames: seq<Record>) {
    forall i, j :: 0 <= i < j < |frames| ==> !Alike(frames[i], frames[j])
  }

  /** Memory has seen every frame of the file up to the last number it issued. */
  predicate Knows(m: Memory, disk: Shelf) {
    forall r :: r in disk.frames && r.number <= m.next ==> Key(r.gcid, r.from, r.text) in m.seen
  }

  predicate Once(w: World) {
    OnceEach(w.disk.frames) && (w.mem.Some? ==> Knows(w.mem.value, w.disk))
  }

  lemma {:induction false} WithoutOnce(frames: seq<Record>, gcid: Bytes)
    requires OnceEach(frames)
    ensures OnceEach(Without(frames, gcid))
  {
    if frames != [] {
      var rest := frames[1..];
      assert forall i :: 0 <= i < |rest| ==> rest[i] == frames[i + 1];
      WithoutOnce(rest, gcid);
      WithoutIsPart(rest, gcid);
      var out := Without(rest, gcid);
      forall j | 0 <= j < |out| ensures !Alike(frames[0], out[j]) {
        assert out[j] in rest;
      }
    }
  }

  lemma RecordedOnce(m: Memory, disk: Shelf, k: Key, at: int)
    requires OnceEach(disk.frames) && Knows(m, disk) && Ordered(disk) && k !in m.seen && m.next == disk.last
    ensures
      var r := Numbered(m, k, at);
      var more := Shelf(r.number, disk.frames + [r]);
      OnceEach(more.frames) && Knows(m, more) && Knows(Memory(r.number, m.seen + {k}), more)
  {
    var r := Numbered(m, k, at);
    forall i | 0 <= i < |disk.frames| ensures !Alike(disk.frames[i], r) && disk.frames[i].number <= m.next {
      assert disk.frames[i] in disk.frames;
      assert Key(disk.frames[i].gcid, disk.frames[i].from, disk.frames[i].text) in m.seen;
    }
    assert Key(r.gcid, r.from, r.text) == k;
  }

  lemma PrunedKnows(m: Memory, disk: Shelf, gcid: Bytes)
    requires Knows(m, disk)
    ensures Knows(m, Prune(disk, gcid, m.next))
    ensures Knows(Memory(m.next, Keys(Without(disk.frames, gcid))), Prune(disk, gcid, m.next))
  {
    var left := Without(disk.frames, gcid);
    WithoutIsPart(disk.frames, gcid);
    forall r | r in left ensures Key(r.gcid, r.from, r.text) in Keys(left) {
      assert KeyOf(r) in Keys(left);
    }
  }

  lemma LoadedOnce(c: Codec<Record>, w: World)
    requires Faithful(c) && Invariant(c, w) && Once(w)
    ensures Once(Loaded(c, w)) && Invariant(c, Loaded(c, w)) && Loaded(c, w).mem.Some?
  {
    hide Invariant, Load, Faithful;
    LoadKeeps(c, w);
    if w.mem.None? {
      var frames := w.disk.frames;
      forall r | r in frames ensures Key(r.gcid, r.from, r.text) in Keys(frames) {
        assert KeyOf(r) in Keys(frames);
      }
    }
  }

  lemma NextOnce(c: Codec<Record>, w: World, e: Event)
    requires Faithful(c) && Invariant(c, w) && Possible(c, w, e) && Once(w)
    ensures Once(Next(c, w, e))
  {
    hide Invariant, Faithful, Load, LineOf, Appended, Written, Loaded, OnceEach, Knows, Numbered, Keys;
    LoadedOnce(c, w);
    var l := Loaded(c, w);
    match e
    case Appends(k, at, how) =>
      if k !in l.mem.value.seen {
        LoadedOrdered(c, l);
        RecordedOnce(l.mem.value, l.disk, k, at);
      }
    case Prunes(gcid, write) =>
      WithoutOnce(l.disk.frames, gcid);
      PrunedKnows(l.mem.value, l.disk, gcid);
    case Crashes =>
  }

  lemma LoadedOrdered(c: Codec<Record>, l: World)
    requires Invariant(c, l)
    ensures Ordered(l.disk)
  {
    hide Filed, Written, FoldAll;
  }

  lemma {:induction false} RunsOnce(c: Codec<Record>, w: World, events: seq<Event>, end: World)
    requires Faithful(c) && Invariant(c, w) && Once(w) && Leads(c, w, events, end)
    ensures Once(end)
    decreases |events|
  {
    hide Invariant, Possible, Next, Faithful, Once;
    if events != [] {
      NextKeeps(c, w, events[0]);
      NextOnce(c, w, events[0]);
      RunsOnce(c, Next(c, w, events[0]), events[1..], end);
    }
  }

  /** In every run, with failed and late writes, prunes and crashes, no two frames of the
      journal are one sender's one text in one group. */
  lemma NothingIsRecordedTwice(c: Codec<Record>, events: seq<Event>, end: World, i: nat, j: nat)
    requires Faithful(c) && Leads(c, EMPTY, events, end) && i < j < |end.disk.frames|
    ensures
      var a, b := end.disk.frames[i], end.disk.frames[j];
      a.gcid != b.gcid || a.from != b.from || a.text != b.text
  {
    hide Leads, Invariant;
    assert Invariant(c, EMPTY) by { EmptyIsKept(c); }
    RunsOnce(c, EMPTY, events, end);
    assert !Alike(end.disk.frames[i], end.disk.frames[j]);
  }

  lemma EmptyIsKept(c: Codec<Record>)
    ensures Invariant(c, EMPTY)
  {
    assert [] == Written(c, []) + [];
  }

  /** What the reader takes of a record. */
  lemma ReaderTakes(s: Shelf, r: Record)
    ensures Fold(s, r).Some? <==>
      r.number > s.last && (!r.mark ==> r.gcid != [] && r.from != [] && r.text != [])
    ensures Fold(s, r).Some? ==>
      && Fold(s, r).value.last == r.number
      && Fold(s, r).value.frames == if r.mark then s.frames else s.frames + [r]
  {
    assert s.frames + [] == s.frames;
  }

  /** What pruning a group deletes and what it keeps. */
  lemma PruneIsExact(s: Shelf, gcid: Bytes, next: nat, r: Record)
    requires Ordered(s) && next <= s.last
    ensures r in Prune(s, gcid, next).frames <==> r in s.frames && r.gcid != gcid
    ensures Rising(Prune(s, gcid, next).frames)
    ensures next <= Prune(s, gcid, next).last <= s.last
  {
    hide Ordered;
    WithoutIsPart(s.frames, gcid);
    RewriteFolds(s, gcid, next);
    assert Rising(Prune(s, gcid, next).frames) by { OrderedRises(Prune(s, gcid, next)); }
  }

  lemma OrderedRises(s: Shelf)
    requires Ordered(s)
    ensures Rising(s.frames)
  {
  }
}
