/** The journal as the bridge keeps it: a file scanned on loading, on reading a
    group's history and on pruning, and in memory the last number and the frames
    seen; each method is proved to take the step the journal's runs are made of. */
module JournalFile {
  import opened ByteStrings
  import opened WireFiles
  import opened Journal

  /** What a scan of these bytes passes on, unless it finds damage. */
  function Said(c: Codec<Record>, b: Bytes): Option<seq<Record>> {
    match Parse(c, Lines(b))
    case None => None
    case Some(rs) => if FoldAll(NOTHING, rs).Some? then Some(rs) else None
  }

  function Frames(rs: seq<Record>): seq<Record> {
    if rs == [] then [] else (if rs[0].mark then [] else [rs[0]]) + Frames(rs[1..])
  }

  function LastOf(rs: seq<Record>): nat { if rs == [] then 0 else rs[|rs| - 1].number }

  lemma {:induction false} FramesSplit(rs: seq<Record>, i: nat)
    requires i < |rs|
    ensures Frames(rs[..i + 1]) == Frames(rs[..i]) + if rs[i].mark then [] else [rs[i]]
  {
    if i == 0 {
      assert rs[..1][1..] == [];
    } else {
      FramesSplit(rs[1..], i - 1);
      assert rs[..i + 1][1..] == rs[1..][..i] && rs[..i][1..] == rs[1..][..i - 1];
    }
  }

  /** A scan that finds no damage passes on what the journal says. */
  lemma {:induction false} ShelfIs(rs: seq<Record>, i: nat)
    requires FoldAll(NOTHING, rs).Some? && i <= |rs|
    ensures FoldAll(NOTHING, rs[..i]) == Some(Shelf(LastOf(rs[..i]), Frames(rs[..i])))
  {
    hide Frames, FoldAll;
    if i == 0 {
      FoldNothing(NOTHING);
      FramesOfNone();
    } else {
      ShelfIs(rs, i - 1);
      FramesSplit(rs, i - 1);
      assert rs[..i - 1] + [rs[i - 1]] == rs[..i] && rs[..i] + rs[i..] == rs;
      FoldAppends(NOTHING, rs[..i - 1], rs[i - 1]);
      PartFolds(rs, i);
    }
  }

  lemma FramesOfNone()
    ensures Frames([]) == []
  {
  }

  lemma {:induction false} PartFolds(rs: seq<Record>, i: nat)
    requires FoldAll(NOTHING, rs).Some? && i <= |rs|
    ensures FoldAll(NOTHING, rs[..i]).Some?
    decreases |rs| - i
  {
    if i == |rs| {
      assert rs[..i] == rs;
    } else {
      PartFolds(rs, i + 1);
      assert rs[..i + 1] == rs[..i] + [rs[i]];
      FoldsBefore(NOTHING, rs[..i], rs[i]);
    }
  }

  lemma {:induction false} FoldsBefore(s: Shelf, a: seq<Record>, r: Record)
    requires FoldAll(s, a + [r]).Some?
    ensures FoldAll(s, a).Some?
    decreases |a|
  {
    if a != [] {
      assert (a + [r])[1..] == a[1..] + [r];
      FoldsBefore(Fold(s, a[0]).value, a[1..], r);
    }
  }

  /** Reads every record in order, refusing any damage. */
  method ScanJournal(c: Codec<Record>, b: Bytes) returns (out: Option<seq<Record>>)
    ensures out == Said(c, b)
  {
    hide FoldAll, Lines, Parse;
    var prev, rest, done: seq<Record> := 0, b, [];
    ghost var s := NOTHING;
    FoldNothing(NOTHING);
    assert Parse(c, Lines(b)).Some? ==> [] + Parse(c, Lines(b)).value == Parse(c, Lines(b)).value;
    while rest != []
      invariant FoldAll(NOTHING, done) == Some(s) && prev == s.last
      invariant
        match Parse(c, Lines(rest))
        case None => Parse(c, Lines(b)).None?
        case Some(rs) => Parse(c, Lines(b)) == Some(done + rs)
      decreases |rest|
    {
      ParseTakesLine(c, rest);
      var n := FirstBreak(rest);
      var line := rest[..n];
      ghost var all := Parse(c, Lines(b));
      rest := if n == |rest| then [] else rest[n + 1..];
      var rec := c.decode(line);
      if rec.None? {
        return None;
      }
      var r := rec.value;
      FoldAppends(NOTHING, done, r);
      if Parse(c, Lines(rest)).Some? {
        assert all.value == done + [r] + Parse(c, Lines(rest)).value;
        RefusedStays(done, r, Parse(c, Lines(rest)).value);
      }
      if r.number <= prev || (!r.mark && (r.gcid == [] || r.from == [] || r.text == [])) {
        return None;
      }
      s := Fold(s, r).value;
      prev, done := r.number, done + [r];
    }
    assert Parse(c, Lines(rest)) == Some([]) by { NothingParses(c); }
    assert done + [] == done;
    out := Some(done);
  }

  lemma RefusedStays(done: seq<Record>, r: Record, more: seq<Record>)
    requires FoldAll(NOTHING, done).Some?
    ensures FoldAll(NOTHING, done + [r]).None? ==> FoldAll(NOTHING, done + [r] + more).None?
  {
    hide FoldAll;
    if FoldAll(NOTHING, done + [r] + more).Some? {
      PartFolds(done + [r] + more, |done| + 1);
      assert (done + [r] + more)[..|done| + 1] == done + [r];
    }
  }

  lemma NothingParses(c: Codec<Record>)
    ensures Parse(c, Lines([])) == Some([])
  {
  }

  /** What a process has once it has loaded: as it was, or read from the file. */
  function Opened(c: Codec<Record>, file: Bytes, mem: Option<Memory>): (Bytes, Option<Memory>) {
    if mem.Some? then (file, mem)
    else
      var s := Load(c, file);
      (file[..Whole(file)], if s.None? then None else Some(MemoryOf(s.value)))
  }

  lemma OpenIs(c: Codec<Record>, file: Bytes, mem: Option<Memory>)
    ensures Opened(c, file, mem) ==
      if mem.Some? then (file, mem)
      else (file[..Whole(file)], if Load(c, file).None? then None else Some(MemoryOf(Load(c, file).value)))
  {
    hide Load;
  }

  /** Loading takes what a scan of the healed file passes on. */
  lemma OpensAsSaid(c: Codec<Record>, file: Bytes)
    ensures
      match Said(c, file[..Whole(file)])
      case None => Load(c, file).None?
      case Some(rs) => Load(c, file) == Some(Shelf(LastOf(rs), Frames(rs)))
  {
    hide Frames, FoldAll, Lines, Parse;
    var said := Said(c, file[..Whole(file)]);
    if said.Some? {
      ShelfIs(said.value, |said.value|);
      assert said.value[..|said.value|] == said.value;
    }
  }

  lemma KeysOfNone()
    ensures Keys([]) == {}
  {
  }

  method LastAndSeen(rs: seq<Record>) returns (last: nat, seen: set<Key>)
    ensures last == LastOf(rs) && seen == Keys(Frames(rs))
  {
    hide Frames, Keys;
    last, seen := 0, {};
    FramesOfNone();
    KeysOfNone();
    for i := 0 to |rs|
      invariant last == LastOf(rs[..i]) && seen == Keys(Frames(rs[..i]))
    {
      FramesSplit(rs, i);
      KeysAppend(Frames(rs[..i]), rs[i]);
      assert Frames(rs[..i]) + [] == Frames(rs[..i]);
      last := rs[i].number;
      if !rs[i].mark {
        seen := seen + {KeyOf(rs[i])};
      }
    }
    assert rs[..|rs|] == rs;
  }

  class FrameJournal {
    const c: Codec<Record>
    var file: Bytes
    var loaded: bool
    var next: nat
    var seen: set<Key>

    ghost function View(): (Bytes, Option<Memory>)
      reads this
    {
      (file, if loaded then Some(Memory(next, seen)) else None)
    }

    constructor (c: Codec<Record>, file: Bytes)
      ensures this.c == c && View() == (file, None)
    {
      this.c, this.file, loaded, next, seen := c, file, false, 0, {};
    }

    /** Heals and scans the file, keeping its last number and the frames in it. */
    method LoadLocked() returns (ok: bool)
      modifies this
      ensures View() == Opened(c, old(View()).0, old(View()).1) && ok == loaded
    {
      hide FoldAll, Frames, Said, Load, Keys, Opened;
      OpenIs(c, file, View().1);
      if loaded {
        return true;
      }
      var dropped;
      file, dropped := HealTornTail(file);
      OpensAsSaid(c, old(file));
      var rs := ScanJournal(c, file);
      if rs.None? {
        return false;
      }
      next, seen := LastAndSeen(rs.value);
      loaded, ok := true, true;
    }

    /** Writes and syncs one received frame; one already seen is not written again. */
    method AppendFrame(k: Key, at: int, how: Append) returns (isNew: bool)
      modifies this
      ensures
        var l := Opened(c, old(View()).0, old(View()).1);
        if l.1.None? || k in l.1.value.seen then View() == l && !isNew
        else
          var r := Numbered(l.1.value, k, at);
          && View() == (Appended(l.0, LineOf(c, r), how),
                        if how.Cut? then None
                        else if how == Done then Some(Memory(r.number, l.1.value.seen + {k})) else l.1)
          && isNew == how.Done?
    {
      var ok := LoadLocked();
      if !ok || k in seen {
        return false;
      }
      var r := Record(next + 1, k.gcid, k.from, k.text, at, false);
      file := Appended(file, LineOf(c, r), how);
      isNew := how.Done?;
      if isNew {
        next, seen := r.number, seen + {k};
      }
      if how.Cut? {
        loaded := false;
      }
    }

    /** One group's frames, oldest first. */
    method History(gcid: Bytes) returns (out: Option<seq<Record>>)
      modifies this
      ensures
        var l := Opened(c, old(View()).0, old(View()).1);
        && View() == l
        && out == if l.1.None? || Said(c, l.0).None? then None
                  else Some(OfGroup(Frames(Said(c, l.0).value), gcid))
    {
      hide Frames, OfGroup, Opened;
      var ok := LoadLocked();
      if !ok {
        return None;
      }
      var rs := ScanJournal(c, file);
      if rs.None? {
        return None;
      }
      var group := GroupOf(rs.value, gcid);
      out := Some(group);
    }

    /** Rewrites the file from a scan of it, without one group's frames and with a
        mark when what is left ends below the last number issued. The number stays in
        memory, and the frames seen become those kept. */
    method PruneGroup(gcid: Bytes, write: Write) returns (ok: bool, removed: nat)
      modifies this
      ensures
        var l := Opened(c, old(View()).0, old(View()).1);
        if l.1.None? || Said(c, l.0).None? then View() == l && !ok && removed == 0
        else
          var frames := Frames(Said(c, l.0).value);
          var left := Without(frames, gcid);
          if |left| == |frames| then View() == l && ok && removed == 0
          else
            && ok == write.Saved? && removed == (if ok then |frames| - |left| else 0)
            && View() == (if write == Lost then l.0 else Written(c, Rewritten(left, l.1.value.next)),
                          if ok then Some(Memory(l.1.value.next, Keys(left))) else l.1)
    {
      hide Frames, Without, FoldAll, Rewritten, Keys, Opened;
      ok := LoadLocked();
      if !ok {
        return false, 0;
      }
      var rs := ScanJournal(c, file);
      if rs.None? {
        return false, 0;
      }
      var lines, kept;
      lines, kept, removed := LeftOver(rs.value, next, gcid);
      if removed == 0 {
        return true, 0;
      }
      ok := write.Saved?;
      if !write.Lost? {
        file := Written(c, lines);
      }
      if ok {
        seen := kept;
      } else {
        removed := 0;
      }
    }
  }

  function OfGroup(frames: seq<Record>, gcid: Bytes): seq<Record> {
    if frames == [] then []
    else (if frames[0].gcid == gcid then [frames[0]] else []) + OfGroup(frames[1..], gcid)
  }

  lemma OfNoGroup(gcid: Bytes)
    ensures OfGroup([], gcid) == []
  {
  }

  lemma OfGroupFirst(frames: seq<Record>, gcid: Bytes)
    requires frames != []
    ensures OfGroup(frames, gcid) ==
      (if frames[0].gcid == gcid then [frames[0]] else []) + OfGroup(frames[1..], gcid)
  {
  }

  lemma {:induction false} OfGroupAppends(frames: seq<Record>, r: Record, gcid: Bytes)
    ensures OfGroup(frames + [r], gcid) == OfGroup(frames, gcid) + if r.gcid == gcid then [r] else []
  {
    hide OfGroup;
    OfNoGroup(gcid);
    OfGroupFirst(frames + [r], gcid);
    if frames == [] {
      assert (frames + [r])[1..] == [];
    } else {
      assert (frames + [r])[1..] == frames[1..] + [r];
      OfGroupAppends(frames[1..], r, gcid);
      OfGroupFirst(frames, gcid);
    }
  }

  method GroupOf(rs: seq<Record>, gcid: Bytes) returns (group: seq<Record>)
    ensures group == OfGroup(Frames(rs), gcid)
  {
    hide Frames, OfGroup;
    group := [];
    FramesOfNone();
    OfNoGroup(gcid);
    for i := 0 to |rs|
      invariant group == OfGroup(Frames(rs[..i]), gcid)
    {
      FramesSplit(rs, i);
      OfGroupAppends(Frames(rs[..i]), rs[i], gcid);
      assert Frames(rs[..i]) + [] == Frames(rs[..i]) && group + [] == group;
      if !rs[i].mark && rs[i].gcid == gcid {
        group := group + [rs[i]];
      }
    }
    assert rs[..|rs|] == rs;
  }

  /** A group's history and what pruning it leaves are the whole journal between
      them. */
  lemma {:induction false} HistoryIsWhatPruneTakes(frames: seq<Record>, gcid: Bytes)
    ensures multiset(frames) == multiset(OfGroup(frames, gcid)) + multiset(Without(frames, gcid))
  {
    hide OfGroup, Without;
    if frames == [] {
      OfNoGroup(gcid);
      WithoutOfNone(gcid);
    } else {
      var r, rest := frames[0], frames[1..];
      HistoryIsWhatPruneTakes(rest, gcid);
      assert frames == [r] + rest;
      OfGroupFirst(frames, gcid);
      WithoutFirst(frames, gcid);
    }
  }

  lemma WithoutFirst(frames: seq<Record>, gcid: Bytes)
    requires frames != []
    ensures Without(frames, gcid) == (if frames[0].gcid == gcid then [] else [frames[0]]) + Without(frames[1..], gcid)
  {
  }

  /** The lines a prune writes, the frames they keep, and how many it drops. */
  method LeftOver(rs: seq<Record>, next: nat, gcid: Bytes) returns (lines: seq<Record>, kept: set<Key>, removed: nat)
    ensures
      var left := Without(Frames(rs), gcid);
      lines == Rewritten(left, next) && kept == Keys(left) && removed == |Frames(rs)| - |left|
  {
    hide Frames, Without;
    lines, kept, removed := [], {}, 0;
    var last := 0;
    FramesOfNone();
    assert Without([], gcid) == [] by { WithoutOfNone(gcid); }
    for i := 0 to |rs|
      invariant lines == Without(Frames(rs[..i]), gcid) && last == Last(lines) && kept == Keys(lines)
      invariant removed == |Frames(rs[..i])| - |lines|
    {
      FramesSplit(rs, i);
      assert Frames(rs[..i]) + [] == Frames(rs[..i]);
      WithoutAppends(Frames(rs[..i]), rs[i], gcid);
      assert lines + [] == lines;
      if rs[i].mark {
        continue;
      }
      if rs[i].gcid == gcid {
        removed := removed + 1;
        continue;
      }
      lines := lines + [rs[i]];
      last := rs[i].number;
      kept := kept + {KeyOf(rs[i])};
    }
    assert rs[..|rs|] == rs;
    assert lines + [] == lines;
    if last < next {
      lines := lines + [Mark(next)];
    }
  }

  lemma WithoutOfNone(gcid: Bytes)
    ensures Without([], gcid) == []
  {
  }

  /** In a run, what a scan of the file passes on is what the file says: so a prune
      and a history work on every frame the journal holds. */
  lemma ScanSaysDisk(c: Codec<Record>, w: World)
    requires Faithful(c) && Invariant(c, w) && w.mem.Some?
    ensures Said(c, w.file).Some? && Frames(Said(c, w.file).value) == w.disk.frames
  {
    hide Frames, FoldAll, Ordered, Within, Survive;
    FiledReads(c, w.file, w.lines);
    LinesParse(c, w.lines);
    ShelfIs(w.lines, |w.lines|);
    assert w.lines[..|w.lines|] == w.lines;
  }
}
