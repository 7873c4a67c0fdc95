/** The journal of every gaming frame received: one numbered line a frame, kept
    until the group's tables are settled. Unlike the inbox it rewrites from a scan
    of the file, and goes on with the number it had in memory. */
module Journal {
  import opened ByteStrings
  import opened WireFiles

  datatype Record = Record(number: nat, gcid: Bytes, from: Bytes, text: Bytes, at: int, mark: bool)

  /** What identifies a frame received, whatever number and time it was given. */
  datatype Key = Key(gcid: Bytes, from: Bytes, text: Bytes)

  function KeyOf(r: Record): Key { Key(r.gcid, r.from, r.text) }

  /** What a journal says: the highest number, and the frames oldest first. */
  datatype Shelf = Shelf(last: nat, frames: seq<Record>)

  predicate Complete(r: Record) { !r.mark ==> r.gcid != [] && r.from != [] && r.text != [] }

  function Fold(s: Shelf, r: Record): Option<Shelf> {
    if r.number <= s.last || !Complete(r) then None
    else Some(Shelf(r.number, s.frames + if r.mark then [] else [r]))
  }

  function FoldAll(s: Shelf, rs: seq<Record>): Option<Shelf>
    decreases |rs|
  {
    if rs == [] then Some(s)
    else
      match Fold(s, rs[0])
      case None => None
      case Some(t) => FoldAll(t, rs[1..])
  }

  const NOTHING: Shelf := Shelf(0, [])

  /** What reading the file gives, a torn tail dropped first. */
  function Load(c: Codec<Record>, file: Bytes): Option<Shelf> {
    match ReadBack(c, file)
    case None => None
    case Some(rs) => FoldAll(NOTHING, rs)
  }

  function Without(frames: seq<Record>, gcid: Bytes): (out: seq<Record>)
    ensures |out| <= |frames|
  {
    if frames == [] then []
    else (if frames[0].gcid == gcid then [] else [frames[0]]) + Without(frames[1..], gcid)
  }

  function Keys(frames: seq<Record>): set<Key> { set r | r in frames :: KeyOf(r) }

  predicate Rising(frames: seq<Record>) {
    forall i, j :: 0 <= i < j < |frames| ==> frames[i].number < frames[j].number
  }

  /** Frames are whole, in the order of their numbers, and within the last. */
  predicate Ordered(s: Shelf) {
    && Rising(s.frames)
    && forall r :: r in s.frames ==> 0 < r.number <= s.last && !r.mark && Complete(r)
  }

  // ---- The rewrite ----

  function Last(frames: seq<Record>): nat { if frames == [] then 0 else frames[|frames| - 1].number }

  function Mark(number: nat): Record { Record(number, [], [], [], 0, true) }

  /** The frames left, and a mark when they end below the number in memory. */
  function Rewritten(frames: seq<Record>, next: nat): seq<Record> {
    frames + if Last(frames) < next then [Mark(next)] else []
  }

  /** Deleting a group from what the file says, when memory has issued up to next. */
  function Prune(s: Shelf, gcid: Bytes, next: nat): Shelf {
    var left := Without(s.frames, gcid);
    Shelf(if Last(left) < next then next else Last(left), left)
  }

  lemma {:induction false} FoldAppends(s: Shelf, rs: seq<Record>, r: Record)
    requires FoldAll(s, rs).Some?
    ensures FoldAll(s, rs + [r]) == Fold(FoldAll(s, rs).value, r)
    decreases |rs|
  {
    if rs == [] {
      assert [r][1..] == [] && rs + [r] == [r];
    } else {
      assert (rs + [r])[1..] == rs[1..] + [r];
      FoldAppends(Fold(s, rs[0]).value, rs[1..], r);
    }
  }

  lemma FoldOrders(s: Shelf, r: Record)
    requires Ordered(s) && Fold(s, r).Some?
    ensures Ordered(Fold(s, r).value)
  {
    forall i | 0 <= i < |s.frames| ensures s.frames[i].number < r.number {
      assert s.frames[i] in s.frames;
    }
  }

  /** Frames in order read back as themselves. */
  lemma {:induction false} FramesFold(s: Shelf, i: nat)
    requires Ordered(s) && i <= |s.frames|
    ensures FoldAll(NOTHING, s.frames[..i]) == Some(Shelf(Last(s.frames[..i]), s.frames[..i]))
  {
    hide FoldAll;
    if i == 0 {
      FoldNothing(NOTHING);
    } else {
      FramesFold(s, i - 1);
      var before, r := s.frames[..i - 1], s.frames[i - 1];
      assert s.frames[..i] == before + [r] && r in s.frames;
      FoldAppends(NOTHING, before, r);
    }
  }

  lemma FoldNothing(s: Shelf)
    ensures FoldAll(s, []) == Some(s)
  {
  }

  lemma {:induction false} WithoutIsPart(frames: seq<Record>, gcid: Bytes)
    ensures forall r :: r in Without(frames, gcid) <==> r in frames && r.gcid != gcid
  {
    if frames != [] {
      WithoutIsPart(frames[1..], gcid);
      assert forall r :: r in frames <==> r == frames[0] || r in frames[1..];
    }
  }

  lemma {:induction false} WithoutRises(frames: seq<Record>, gcid: Bytes)
    requires Rising(frames)
    ensures Rising(Without(frames, gcid))
  {
    if frames != [] {
      var rest := frames[1..];
      assert forall i :: 0 <= i < |rest| ==> rest[i] == frames[i + 1];
      WithoutRises(rest, gcid);
      WithoutIsPart(rest, gcid);
      var out := Without(rest, gcid);
      forall i | 0 <= i < |out| ensures frames[0].number < out[i].number {
        assert out[i] in rest;
      }
    }
  }

  lemma {:induction false} WithoutNone(frames: seq<Record>, gcid: Bytes)
    requires |Without(frames, gcid)| == |frames|
    ensures Without(frames, gcid) == frames
  {
    if frames != [] {
      WithoutNone(frames[1..], gcid);
      assert frames == [frames[0]] + frames[1..];
    }
  }

  lemma WithoutOrders(s: Shelf, gcid: Bytes)
    requires Ordered(s)
    ensures Ordered(Shelf(s.last, Without(s.frames, gcid)))
    ensures Last(Without(s.frames, gcid)) <= s.last
  {
    hide Without;
    WithoutIsPart(s.frames, gcid);
    WithoutRises(s.frames, gcid);
    var left := Without(s.frames, gcid);
    assert left != [] ==> left[|left| - 1] in left;
  }

  /** The rewritten file passes the reader's own check and reads back as the journal
      with the group deleted. */
  lemma RewriteFolds(s: Shelf, gcid: Bytes, next: nat)
    requires Ordered(s) && next <= s.last
    ensures FoldAll(NOTHING, Rewritten(Without(s.frames, gcid), next)) == Some(Prune(s, gcid, next))
    ensures Ordered(Prune(s, gcid, next)) && next <= Prune(s, gcid, next).last <= s.last
  {
    hide FoldAll, Without;
    var left := Without(s.frames, gcid);
    WithoutOrders(s, gcid);
    LastIsGreatest(left);
    FramesFold(Shelf(s.last, left), |left|);
    assert left[..|left|] == left;
    if Last(left) < next {
      FoldAppends(NOTHING, left, Mark(next));
      assert left + [] == left;
    } else {
      assert Rewritten(left, next) == left;
    }
  }

  lemma LastIsGreatest(frames: seq<Record>)
    requires Rising(frames)
    ensures forall r :: r in frames ==> r.number <= Last(frames)
  {
  }

  // ---- Runs ----

  /** What a running process holds: the last number it issued and the frames seen. */
  datatype Memory = Memory(next: nat, seen: set<Key>)

  /** The file, the memory, what the file says, the whole lines in it, every frame
      recorded, and those whose group was not pruned since. */
  datatype World = World(
    file: Bytes, mem: Option<Memory>, disk: Shelf, lines: seq<Record>, issued: seq<Record>, owed: seq<Record>)

  datatype Event =
    | Appends(key: Key, at: int, how: Append)
    | Prunes(gcid: Bytes, write: Write)
    | Crashes

  function MemoryOf(s: Shelf): Memory { Memory(s.last, Keys(s.frames)) }

  function Loaded(c: Codec<Record>, w: World): World {
    if w.mem.Some? then w
    else
      var s := Load(c, w.file);
      w.(file := w.file[..Whole(w.file)], mem := if s.None? then None else Some(MemoryOf(s.value)))
  }

  function Numbered(m: Memory, k: Key, at: int): Record { Record(m.next + 1, k.gcid, k.from, k.text, at, false) }

  predicate Given(k: Key) { k.gcid != [] && k.from != [] && k.text != [] }

  /** Memory and file agree on the last number. */
  predicate Level(w: World) { w.mem.Some? && w.mem.value.next == w.disk.last }

  /** Frames are complete, and one that is written finds memory and file agreed. */
  predicate Possible(c: Codec<Record>, w: World, e: Event) {
    e.Appends? ==>
      var l := Loaded(c, w);
      Given(e.key) && (l.mem.Some? && e.key !in l.mem.value.seen ==> Level(l))
  }

  function Next(c: Codec<Record>, w: World, e: Event): World {
    match e
    case Appends(k, at, how) =>
      var l := Loaded(c, w);
      if l.mem.None? || k in l.mem.value.seen then l
      else
        var r := Numbered(l.mem.value, k, at);
        var landed := Landed(LineOf(c, r), how);
        l.(file := Appended(l.file, LineOf(c, r), how),
           mem := if how.Cut? then None
                  else if how == Done then Some(Memory(r.number, l.mem.value.seen + {k})) else l.mem,
           disk := if landed then Shelf(r.number, l.disk.frames + [r]) else l.disk,
           lines := if landed then l.lines + [r] else l.lines,
           issued := if how == Done then l.issued + [r] else l.issued,
           owed := if how == Done then l.owed + [r] else l.owed)
    case Prunes(gcid, write) =>
      var l := Loaded(c, w);
      if l.mem.None? then l
      else
        var left := Without(l.disk.frames, gcid);
        if |left| == |l.disk.frames| || write == Lost then l
        else
          var next := l.mem.value.next;
          var lines := Rewritten(left, next);
          World(Written(c, lines), if write == Saved then Some(Memory(next, Keys(left))) else l.mem,
                Prune(l.disk, gcid, next), lines, l.issued, Without(l.owed, gcid))
    case Crashes => w.(mem := None)
  }

  ghost predicate Leads(c: Codec<Record>, w: World, events: seq<Event>, end: World)
    decreases |events|
  {
    if events == [] then w == end
    else Possible(c, w, events[0]) && Leads(c, Next(c, w, events[0]), events[1..], end)
  }

  const EMPTY: World := World([], None, NOTHING, [], [], [])

  /** Every frame recorded whose group was not pruned since is there. */
  predicate Survive(frames: seq<Record>, owed: seq<Record>) {
    forall r :: r in owed ==> r in frames
  }

  /** Numbers never repeat and stay within the last. */
  predicate Within(issued: seq<Record>, last: nat) {
    Rising(issued) && forall r :: r in issued ==> r.number <= last
  }

  ghost predicate Invariant(c: Codec<Record>, w: World) {
    && Filed(c, w.file, w.lines)
    && FoldAll(NOTHING, w.lines) == Some(w.disk) && Ordered(w.disk)
    && Within(w.issued, w.disk.last) && Survive(w.disk.frames, w.owed)
    && (w.mem.Some? ==>
          && w.file == Written(c, w.lines) && w.mem.value.next <= w.disk.last
          && Within(w.issued, w.mem.value.next))
  }

  lemma LoadKeeps(c: Codec<Record>, w: World)
    requires Faithful(c) && Invariant(c, w)
    ensures Invariant(c, Loaded(c, w)) && Loaded(c, w).mem.Some?
    ensures Load(c, w.file) == Some(w.disk)
    ensures Loaded(c, w) == w.(file := Loaded(c, w).file, mem := Loaded(c, w).mem)
    ensures w.mem.None? ==> Loaded(c, w).mem.value == MemoryOf(w.disk)
  {
    hide FoldAll, Ordered, Within, Survive;
    FiledReads(c, w.file, w.lines);
    if w.mem.None? {
      assert Loaded(c, w).file == Written(c, w.lines) + [];
    }
  }

  lemma AppendKeeps(c: Codec<Record>, w: World, k: Key, at: int, how: Append)
    requires Faithful(c) && Invariant(c, w) && Possible(c, w, Appends(k, at, how))
    ensures Invariant(c, Next(c, w, Appends(k, at, how)))
  {
    hide FoldAll, Ordered, Written, LineOf, Appended, Load, Filed, Faithful, Within, Survive;
    LoadKeeps(c, w);
    var l := Loaded(c, w);
    if k !in l.mem.value.seen {
      var r := Numbered(l.mem.value, k, at);
      FoldAppends(NOTHING, l.lines, r);
      FoldOrders(l.disk, r);
      AppendFiles(c, l.lines, r, how);
      if !how.Cut? {
        AppendedWhole(c, l.lines, r, how);
      }
      OneMore(l, r);
    }
  }

  lemma OneMore(w: World, r: Record)
    requires Within(w.issued, w.disk.last) && Survive(w.disk.frames, w.owed)
    requires r.number == w.disk.last + 1
    ensures Within(w.issued, r.number) && Within(w.issued + [r], r.number)
    ensures Survive(w.disk.frames + [r], w.owed + [r])
    ensures Survive(w.disk.frames + [r], w.owed)
  {
    forall i | 0 <= i < |w.issued| ensures w.issued[i].number < r.number {
      assert w.issued[i] in w.issued;
    }
  }

  lemma PruneKeeps(c: Codec<Record>, w: World, gcid: Bytes, write: Write)
    requires Faithful(c) && Invariant(c, w)
    ensures Invariant(c, Next(c, w, Prunes(gcid, write)))
  {
    hide FoldAll, Ordered, Written, Load, Filed, Faithful, Within, Survive, Rewritten, Without;
    LoadKeeps(c, w);
    var l := Loaded(c, w);
    RewriteFolds(l.disk, gcid, l.mem.value.next);
    PruneStays(l, gcid, Prune(l.disk, gcid, l.mem.value.next).last);
    WrittenIsFiled(c, Rewritten(Without(l.disk.frames, gcid), l.mem.value.next));
  }

  lemma WrittenIsFiled(c: Codec<Record>, lines: seq<Record>)
    ensures Filed(c, Written(c, lines), lines)
  {
    assert Written(c, lines) == Written(c, lines) + [];
  }

  lemma PruneStays(w: World, gcid: Bytes, last: nat)
    requires w.mem.Some? && Within(w.issued, w.mem.value.next) && w.mem.value.next <= last
    requires Survive(w.disk.frames, w.owed)
    ensures Within(w.issued, last)
    ensures Survive(Without(w.disk.frames, gcid), Without(w.owed, gcid))
  {
    WithoutIsPart(w.disk.frames, gcid);
    WithoutIsPart(w.owed, gcid);
  }

  lemma CrashKeeps(c: Codec<Record>, w: World)
    requires Invariant(c, w)
    ensures Invariant(c, Next(c, w, Crashes))
  {
    hide Filed, FoldAll, Ordered, Within, Survive;
  }

  lemma NextKeeps(c: Codec<Record>, w: World, e: Event)
    requires Faithful(c) && Invariant(c, w) && Possible(c, w, e)
    ensures Invariant(c, Next(c, w, e))
  {
    hide Invariant, Possible, Next, Faithful;
    match e {
      case Appends(k, at, how) => AppendKeeps(c, w, k, at, how);
      case Prunes(gcid, write) => PruneKeeps(c, w, gcid, write);
      case Crashes => CrashKeeps(c, w);
    }
  }

  // ---- What a run should leave ----

  /** No write of this step fails after it reached the file. */
  predicate Plain(e: Event) {
    match e
    case Appends(_, _, how) => how != Late
    case Prunes(_, write) => write != SavedLate
    case Crashes => true
  }

  /** Recording a frame not seen yet, and deleting a group's frames: the last number
      stands whatever is deleted. */
  function Ideal(c: Codec<Record>, s: Shelf, e: Event): Shelf {
    match e
    case Appends(k, at, how) =>
      var r := Numbered(MemoryOf(s), k, at);
      if k in Keys(s.frames) || !Landed(LineOf(c, r), how) then s else Shelf(s.last + 1, s.frames + [r])
    case Prunes(gcid, write) => if write == Lost then s else s.(frames := Without(s.frames, gcid))
    case Crashes => s
  }

  function IdealRun(c: Codec<Record>, s: Shelf, events: seq<Event>): Shelf
    decreases |events|
  {
    if events == [] then s else IdealRun(c, Ideal(c, s, events[0]), events[1..])
  }

  /** Memory, if there is one, is what the file says. */
  predicate InStep(w: World) { w.mem.Some? ==> w.mem.value == MemoryOf(w.disk) }

  lemma PlainStep(c: Codec<Record>, w: World, e: Event)
    requires Faithful(c) && Invariant(c, w) && InStep(w) && Plain(e)
    ensures e.Appends? && Given(e.key) ==> Possible(c, w, e)
    ensures InStep(Next(c, w, e)) && Next(c, w, e).disk == Ideal(c, w.disk, e)
  {
    hide Load, Rewritten, Without, Faithful, Invariant, Written, LineOf, Appended, Prune, Keys;
    LoadKeeps(c, w);
    var l := Loaded(c, w);
    if e.Appends? {
      KeysAppend(w.disk.frames, Numbered(l.mem.value, e.key, e.at));
    }
    if e.Prunes? {
      PruneInStep(c, w, e.gcid);
      if |Without(w.disk.frames, e.gcid)| == |w.disk.frames| {
        WithoutNone(w.disk.frames, e.gcid);
      }
    }
  }

  lemma KeysAppend(frames: seq<Record>, r: Record)
    ensures Keys(frames + [r]) == Keys(frames) + {KeyOf(r)}
  {
  }

  lemma PruneInStep(c: Codec<Record>, w: World, gcid: Bytes)
    requires Invariant(c, w)
    ensures Prune(w.disk, gcid, w.disk.last) == w.disk.(frames := Without(w.disk.frames, gcid))
  {
    hide FoldAll, Filed, Within, Survive;
    WithoutIsPart(w.disk.frames, gcid);
    var left := Without(w.disk.frames, gcid);
    assert left != [] ==> left[|left| - 1] in left;
  }

  lemma {:induction false} RunsKeep(c: Codec<Record>, w: World, events: seq<Event>, end: World)
    requires Faithful(c) && Invariant(c, w) && Leads(c, w, events, end)
    ensures Invariant(c, end)
    ensures InStep(w) && (forall e :: e in events ==> Plain(e)) ==> end.disk == IdealRun(c, w.disk, events)
    decreases |events|
  {
    hide Invariant, Possible, Next, Faithful, InStep, Plain, Ideal;
    if events != [] {
      var e := events[0];
      NextKeeps(c, w, e);
      RunsKeep(c, Next(c, w, e), events[1..], end);
      if InStep(w) && forall e :: e in events ==> Plain(e) {
        PlainStep(c, w, e);
      }
    }
  }

  /** After any run of appends, prunes, failed writes and crashes that tear the last
      line anywhere, the reader accepts the journal; every frame recorded is in it
      under its number, oldest first, unless its group was pruned since; and no number is
      issued twice. When no write failed after it reached the file, the journal says
      exactly what recording and deleting alone would, the last number untouched by
      any deletion. */
  lemma JournalIsDeletion(c: Codec<Record>, events: seq<Event>, end: World)
    requires Faithful(c) && Leads(c, EMPTY, events, end)
    ensures Load(c, end.file) == Some(end.disk) && Ordered(end.disk)
    ensures Within(end.issued, end.disk.last) && Survive(end.disk.frames, end.owed)
    ensures (forall e :: e in events ==> Plain(e)) ==> Load(c, end.file) == Some(IdealRun(c, NOTHING, events))
  {
    hide Leads;
    assert Filed(c, EMPTY.file, EMPTY.lines) by {
      assert [] == Written(c, []) + [];
    }
    RunsKeep(c, EMPTY, events, end);
    LoadKeeps(c, end);
  }

  // ---- Writes that fail late ----

  /** The file after one more frame is written whole. */
  function WithFrame(c: Codec<Record>, w: World, k: Key, at: int): Bytes
    requires w.mem.Some?
  {
    Appended(w.file, LineOf(c, Numbered(w.mem.value, k, at)), Done)
  }

  /** The condition on appending is exact: a complete frame leaves a journal the
      reader accepts just when memory and file agree on the last number. */
  lemma LevelIsExact(c: Codec<Record>, w: World, k: Key, at: int)
    requires Faithful(c) && Invariant(c, w) && w.mem.Some? && Given(k)
    ensures Load(c, WithFrame(c, w, k, at)).Some? <==> Level(w)
  {
    hide FoldAll, Written, Filed, Ordered, Within, Survive, LineOf;
    var r := Numbered(w.mem.value, k, at);
    FoldAppends(NOTHING, w.lines, r);
    WrittenAppends(c, w.lines, r);
    var all := w.lines + [r];
    ReadsWholeRecords(c, all, []);
    assert Written(c, all) + [] == Written(c, all);
  }

  /** An append that failed once it was in the file spoils the next one. A prune
      between them mends that just when it deletes the frame that failed: a prune
      of another group keeps that frame, and memory keeps the lower number. A
      restart always mends it. */
  lemma LateAppendPoisons(c: Codec<Record>, w: World, k: Key, at: int, gcid: Bytes, g: Key, when: int)
    requires Faithful(c) && Invariant(c, w) && Level(w) && Given(k) && Given(g) && k !in w.mem.value.seen
    ensures
      var v := Next(c, w, Appends(k, at, Late));
      && v.mem.Some? && Load(c, WithFrame(c, v, g, when)) == None
      && var u := Next(c, v, Prunes(gcid, Saved));
      && u.mem.Some? && (Load(c, WithFrame(c, u, g, when)).Some? <==> gcid == k.gcid)
      && var x := Loaded(c, Next(c, v, Crashes));
      && x.mem.Some? && Load(c, WithFrame(c, x, g, when)).Some?
  {
    hide Invariant, Load, WithFrame, Faithful, Without, Rewritten, LineOf, Written, Prune, Keys;
    var v := Next(c, w, Appends(k, at, Late));
    AppendKeeps(c, w, k, at, Late);
    LevelIsExact(c, v, g, when);
    PruneKeeps(c, v, gcid, Saved);
    var u := Next(c, v, Prunes(gcid, Saved));
    var r := Numbered(w.mem.value, k, at);
    WithoutAppends(w.disk.frames, r, gcid);
    LevelIsExact(c, u, g, when);
    PrunedLast(c, w, r, gcid);
    CrashKeeps(c, v);
    LoadKeeps(c, Next(c, v, Crashes));
    LevelIsExact(c, Loaded(c, Next(c, v, Crashes)), g, when);
  }

  lemma {:induction false} WithoutSplits(frames: seq<Record>, i: nat, gcid: Bytes)
    requires i < |frames|
    ensures Without(frames[..i + 1], gcid) ==
      Without(frames[..i], gcid) + if frames[i].gcid == gcid then [] else [frames[i]]
  {
    if i == 0 {
      assert frames[..1][1..] == [];
    } else {
      WithoutSplits(frames[1..], i - 1, gcid);
      assert frames[..i + 1][1..] == frames[1..][..i] && frames[..i][1..] == frames[1..][..i - 1];
    }
  }

  lemma WithoutAppends(frames: seq<Record>, r: Record, gcid: Bytes)
    ensures Without(frames + [r], gcid) == Without(frames, gcid) + if r.gcid == gcid then [] else [r]
  {
    WithoutSplits(frames + [r], |frames|, gcid);
    assert (frames + [r])[..|frames| + 1] == frames + [r] && (frames + [r])[..|frames|] == frames;
  }

  /** Where a prune leaves the last number when the file ends with a frame memory
      does not know. */
  lemma PrunedLast(c: Codec<Record>, w: World, r: Record, gcid: Bytes)
    requires Invariant(c, w) && r.number == w.disk.last + 1
    ensures Prune(Shelf(r.number, w.disk.frames + [r]), gcid, w.disk.last).last ==
      if r.gcid == gcid then w.disk.last else w.disk.last + 1
  {
    hide FoldAll, Filed, Within, Survive;
    WithoutAppends(w.disk.frames, r, gcid);
    var left := Without(w.disk.frames, gcid);
    WithoutIsPart(w.disk.frames, gcid);
    assert left != [] ==> left[|left| - 1] in left;
  }
}
