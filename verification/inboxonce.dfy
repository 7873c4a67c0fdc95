/** One event is filed once: what the inbox takes for a repeat, and that no run files
    anything twice. */
module InboxOnce {
  import opened ByteStrings
  import opened WireFiles
  import opened Inbox

  /** One sender's one text in one group. */
  predicate Alike(a: Frame, b: Frame) { a.gcid == b.gcid && a.from == b.from && a.text == b.text }

  predicate OnceEach(frames: seq<Frame>) {
    forall i, j :: 0 <= i < j < |frames| ==> !Alike(frames[i], frames[j])
  }

  predicate AllOnce(m: Lanes) { forall g :: g in m ==> OnceEach(m[g].frames) }

  /** Memory has every frame of the file up to the last number it knows of. */
  ghost predicate Knows(m: Lanes, disk: Lanes) {
    forall g, f :: f in FramesOf(disk, g) && f.number <= NextOf(m, g) ==> f in FramesOf(m, g)
  }

  ghost predicate Once(w: World) {
    AllOnce(w.disk) && (w.mem.Some? ==> AllOnce(w.mem.value) && Knows(w.mem.value, w.disk))
  }

  lemma LoadedOnce(c: Codec<Line>, w: World)
    requires Faithful(c) && Invariant(c, w) && Once(w)
    ensures Once(Loaded(c, w)) && Invariant(c, Loaded(c, w))
  {
    hide Invariant, Load, Faithful;
    LoadKeeps(c, w);
  }

  /** A frame not seen is like none that memory has, nor, once memory and file agree on
      its game, like any in the file. */
  lemma UnseenIsNew(m: Lanes, disk: Lanes, f: Frame)
    requires Ordered(disk) && Knows(m, disk) && !Seen(m, f) && NextOf(m, f.game) == NextOf(disk, f.game)
    requires Ordered(m)
    ensures forall x :: x in FramesOf(m, f.game) ==> !Alike(x, f)
    ensures forall x :: x in FramesOf(disk, f.game) ==> !Alike(x, f)
  {
    forall x | x in FramesOf(m, f.game) ensures !Alike(x, f) {
      var i :| 0 <= i < |FramesOf(m, f.game)| && FramesOf(m, f.game)[i] == x;
      assert OrderedLane(f.game, m[f.game]);
      assert Fits(x, f.game, m[f.game].next);
      assert !SameEvent(FramesOf(m, f.game)[i], f);
    }
    forall x | x in FramesOf(disk, f.game) ensures x in FramesOf(m, f.game) {
      assert OrderedLane(f.game, disk[f.game]);
      assert Fits(x, f.game, disk[f.game].next);
    }
  }

  lemma PersistOnce(m: Lanes, f: Frame)
    requires AllOnce(m) && forall x :: x in FramesOf(m, f.game) ==> !Alike(x, f)
    ensures AllOnce(Persist(m, f))
  {
    var frames := FramesOf(m, f.game);
    assert f.game in m ==> OnceEach(m[f.game].frames);
    forall i | 0 <= i < |frames| ensures !Alike(frames[i], Numbered(m, f)) {
      assert frames[i] in frames;
    }
  }

  lemma {:induction false} WithoutOnce(frames: seq<Frame>, gcid: Bytes)
    requires OnceEach(frames)
    ensures OnceEach(Without(frames, gcid))
  {
    if frames != [] {
      var rest := frames[1..];
      assert forall i :: 0 <= i < |rest| ==> rest[i] == frames[i + 1];
      WithoutOnce(rest, gcid);
      WithoutIsPart(rest, gcid);
      var out := Without(rest, gcid);
      forall j | 0 <= j < |out| ensures !Alike(frames[0], out[j]) {
        assert out[j] in rest;
      }
    }
  }

  lemma PruneOnce(m: Lanes, gcid: Bytes)
    requires AllOnce(m)
    ensures AllOnce(Prune(m, gcid)) && Knows(m, Prune(m, gcid))
  {
    forall g | g in m ensures OnceEach(Prune(m, gcid)[g].frames) {
      WithoutOnce(m[g].frames, gcid);
    }
    forall g, f | f in FramesOf(Prune(m, gcid), g) ensures f in FramesOf(m, g) {
      WithoutIsPart(m[g].frames, gcid);
    }
  }

  lemma NextOnce(c: Codec<Line>, w: World, e: Event)
    requires Faithful(c) && Invariant(c, w) && Possible(c, w, e) && Once(w)
    ensures Once(Next(c, w, e))
  {
    hide Invariant, Faithful, Load, Prune, RewriteLines, LineOf, Holds, AllOnce, Seen, Appended, Written, Loaded;
    LoadedOnce(c, w);
    var l := Loaded(c, w);
    match e
    case Persists(f, how) =>
      if l.mem.Some? && !Seen(l.mem.value, f) {
        LoadedOrdered(c, l);
        UnseenIsNew(l.mem.value, l.disk, f);
        PersistOnce(l.mem.value, f);
        PersistOnce(l.disk, f);
        PersistKnows(l.mem.value, l.disk, f);
      }
    case Prunes(gcid, games, write) =>
      if l.mem.Some? {
        PruneOnce(l.mem.value, gcid);
      }
    case Crashes =>
  }

  lemma LoadedOrdered(c: Codec<Line>, l: World)
    requires Invariant(c, l) && l.mem.Some?
    ensures Ordered(l.mem.value) && Ordered(l.disk)
  {
    hide Filed, Written, FoldAll;
  }

  lemma PersistKnows(m: Lanes, disk: Lanes, f: Frame)
    requires Ordered(disk) && Knows(m, disk) && NextOf(m, f.game) == NextOf(disk, f.game)
    ensures Knows(m, Persist(disk, f)) && Knows(Persist(m, f), Persist(disk, f))
  {
    var n := Numbered(m, f);
    assert Numbered(disk, f) == n;
    forall g, x | x in FramesOf(Persist(disk, f), g)
      ensures x.number <= NextOf(m, g) ==> x in FramesOf(m, g)
      ensures x.number <= NextOf(Persist(m, f), g) ==> x in FramesOf(Persist(m, f), g)
    {
      if g == f.game {
        assert FramesOf(Persist(disk, f), g) == FramesOf(disk, g) + [n];
        assert FramesOf(Persist(m, f), g) == FramesOf(m, g) + [n];
        assert x == n || x in FramesOf(disk, g);
        if x in FramesOf(disk, g) {
          assert Fits(x, g, disk[g].next);
        }
      }
    }
  }

  lemma {:induction false} RunsOnce(c: Codec<Line>, w: World, events: seq<Event>, end: World)
    requires Faithful(c) && Invariant(c, w) && Once(w) && Leads(c, w, events, end)
    ensures Once(end)
    decreases |events|
  {
    hide Invariant, Possible, Next, Faithful, Once;
    if events != [] {
      NextKeeps(c, w, events[0]);
      NextOnce(c, w, events[0]);
      RunsOnce(c, Next(c, w, events[0]), events[1..], end);
    }
  }

  /** In every run, with failed and late writes, prunes and crashes, no two frames of one
      game in the file are one sender's one text in one group. */
  lemma NothingIsFiledTwice(c: Codec<Line>, events: seq<Event>, end: World, g: Bytes, i: nat, j: nat)
    requires Faithful(c) && Leads(c, EMPTY, events, end) && i < j < |FramesOf(end.disk, g)|
    ensures
      var a, b := FramesOf(end.disk, g)[i], FramesOf(end.disk, g)[j];
      a.gcid != b.gcid || a.from != b.from || a.text != b.text
  {
    hide Leads, Invariant;
    assert Invariant(c, EMPTY) by { EmptyIsKept(c); }
    RunsOnce(c, EMPTY, events, end);
    assert OnceEach(end.disk[g].frames);
    assert !Alike(FramesOf(end.disk, g)[i], FramesOf(end.disk, g)[j]);
  }

  lemma EmptyIsKept(c: Codec<Line>)
    ensures Invariant(c, EMPTY)
  {
    assert [] == Written(c, []) + [];
  }

  /** And a frame is taken as a repeat only of such a one: any other is given the next
      number of its game and kept. */
  lemma OthersAreFiled(c: Codec<Line>, w: World, f: Frame)
    requires Faithful(c) && Invariant(c, w) && w.mem.Some? && Level(w, f.game) && Given(f)
    ensures
      var v := Next(c, w, Persists(f, Done));
      if exists x :: x in FramesOf(w.mem.value, f.game) && Alike(x, f) then v == w
      else
        && FramesOf(v.disk, f.game) == FramesOf(w.disk, f.game) + [f.(number := NextOf(w.disk, f.game) + 1)]
        && FramesOf(v.mem.value, f.game) == FramesOf(w.mem.value, f.game) + [f.(number := NextOf(w.disk, f.game) + 1)]
  {
    hide Load, Faithful, LineOf, Appended, Filed, Written, FoldAll, Keeps;
    LoadedOrdered(c, w);
    if x :| x in FramesOf(w.mem.value, f.game) && Alike(x, f) {
      var i :| 0 <= i < |FramesOf(w.mem.value, f.game)| && FramesOf(w.mem.value, f.game)[i] == x;
      assert OrderedLane(f.game, w.mem.value[f.game]);
      assert Fits(x, f.game, w.mem.value[f.game].next);
      assert SameEvent(FramesOf(w.mem.value, f.game)[i], f);
    } else {
      forall i | 0 <= i < |FramesOf(w.mem.value, f.game)| ensures !SameEvent(FramesOf(w.mem.value, f.game)[i], f) {
        assert FramesOf(w.mem.value, f.game)[i] in FramesOf(w.mem.value, f.game);
      }
    }
  }

  /** What the reader takes of a line. */
  lemma ReaderTakes(m: Lanes, l: Line)
    ensures Fold(m, l).Some? <==>
      && l.frame.number > NextOf(m, l.frame.game) && l.frame.game != []
      && (!l.mark ==> l.frame.gcid != [] && l.frame.text != [])
    ensures Fold(m, l).Some? ==>
      && NextOf(Fold(m, l).value, l.frame.game) == l.frame.number
      && FramesOf(Fold(m, l).value, l.frame.game) ==
           (if l.mark then FramesOf(m, l.frame.game) else FramesOf(m, l.frame.game) + [l.frame])
      && forall g :: g != l.frame.game ==>
           FramesOf(Fold(m, l).value, g) == FramesOf(m, g) && NextOf(Fold(m, l).value, g) == NextOf(m, g)
  {
    assert FramesOf(m, l.frame.game) + [] == FramesOf(m, l.frame.game);
  }
}
