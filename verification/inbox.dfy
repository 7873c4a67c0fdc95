/** The inbox of received frames: numbered per game, appended to a file, replayed
    into memory, and rewritten without one group's frames when its tables are
    settled. */
module Inbox {
  import opened ByteStrings
  import opened Sorting
  import opened WireFiles

  datatype Frame = Frame(number: nat, game: Bytes, gcid: Bytes, from: Bytes, text: Bytes, financial: bool)

  /** A line of the file: a frame, or a mark that carries a game's highest number. */
  datatype Line = Line(frame: Frame, mark: bool)

  /** What one game has: the highest number issued, and its frames in order. */
  datatype Lane = Lane(next: nat, frames: seq<Frame>)
  type Lanes = map<Bytes, Lane>

  function NextOf(m: Lanes, game: Bytes): nat { if game in m then m[game].next else 0 }
  function FramesOf(m: Lanes, game: Bytes): seq<Frame> { if game in m then m[game].frames else [] }

  predicate Complete(l: Line) {
    l.frame.number > 0 && l.frame.game != [] && (!l.mark ==> l.frame.gcid != [] && l.frame.text != [])
  }

  function Fold(m: Lanes, l: Line): Option<Lanes> {
    var g := l.frame.game;
    if !Complete(l) || l.frame.number <= NextOf(m, g) then None
    else Some(m[g := Lane(l.frame.number, FramesOf(m, g) + if l.mark then [] else [l.frame])])
  }

  function FoldAll(m: Lanes, ls: seq<Line>): Option<Lanes>
    decreases |ls|
  {
    if ls == [] then Some(m)
    else
      match Fold(m, ls[0])
      case None => None
      case Some(n) => FoldAll(n, ls[1..])
  }

  function Load(c: Codec<Line>, file: Bytes): Option<Lanes> {
    match ReadBack(c, file)
    case None => None
    case Some(ls) => FoldAll(map[], ls)
  }

  // ---- What persisting and pruning mean ----

  /** Frames are one event when everything but the number agrees. */
  predicate SameEvent(a: Frame, b: Frame) {
    a.game == b.game && a.gcid == b.gcid && a.from == b.from && a.text == b.text
  }

  predicate Seen(m: Lanes, f: Frame) {
    exists i :: 0 <= i < |FramesOf(m, f.game)| && SameEvent(FramesOf(m, f.game)[i], f)
  }

  function Numbered(m: Lanes, f: Frame): Frame { f.(number := NextOf(m, f.game) + 1) }

  function Persist(m: Lanes, f: Frame): Lanes {
    var n := Numbered(m, f);
    m[f.game := Lane(n.number, FramesOf(m, f.game) + [n])]
  }

  function Without(frames: seq<Frame>, gcid: Bytes): seq<Frame> {
    if frames == [] then []
    else (if frames[0].gcid == gcid then [] else [frames[0]]) + Without(frames[1..], gcid)
  }

  /** Pruning deletes the group's frames and changes nothing else. */
  function Prune(m: Lanes, gcid: Bytes): Lanes {
    map g | g in m :: m[g].(frames := Without(m[g].frames, gcid))
  }

  predicate Holds(m: Lanes, gcid: Bytes) {
    exists g :: g in m && exists i :: 0 <= i < |m[g].frames| && m[g].frames[i].gcid == gcid
  }

  // ---- The rewrite ----

  function Last(frames: seq<Frame>): nat { if frames == [] then 0 else frames[|frames| - 1].number }

  function Kept(frames: seq<Frame>): seq<Line> { seq(|frames|, i requires 0 <= i < |frames| => Line(frames[i], false)) }

  function Mark(game: Bytes, number: nat): Line { Line(Frame(number, game, [], [], [], false), true) }

  /** One game's lines: what is left of it, and a mark when that ends too low. */
  function LaneLines(game: Bytes, lane: Lane): seq<Line> {
    Kept(lane.frames) + if Last(lane.frames) < lane.next then [Mark(game, lane.next)] else []
  }

  function RewriteLines(m: Lanes, games: seq<Bytes>): seq<Line>
    requires forall g :: g in games ==> g in m
  {
    if games == [] then [] else LaneLines(games[0], m[games[0]]) + RewriteLines(m, games[1..])
  }

  predicate RisingFrames(frames: seq<Frame>) {
    forall i, j :: 0 <= i < j < |frames| ==> frames[i].number < frames[j].number
  }

  predicate Fits(f: Frame, game: Bytes, next: nat) {
    f.game == game && f.number <= next && Complete(Line(f, false))
  }

  /** Numbers rise within a game and stay within the highest issued. */
  predicate OrderedLane(game: Bytes, lane: Lane) {
    && game != [] && lane.next > 0 && RisingFrames(lane.frames)
    && forall f :: f in lane.frames ==> Fits(f, game, lane.next)
  }

  predicate Ordered(m: Lanes) { forall g :: g in m ==> OrderedLane(g, m[g]) }

  lemma FoldOrders(m: Lanes, l: Line)
    requires Ordered(m) && Fold(m, l).Some?
    ensures Ordered(Fold(m, l).value)
  {
    var g := l.frame.game;
    var frames := FramesOf(m, g);
    var lane := Fold(m, l).value[g];
    assert g in m ==> OrderedLane(g, m[g]);
    assert OrderedLane(g, lane) by {
      forall i | 0 <= i < |frames| ensures frames[i].number <= NextOf(m, g) {
        assert frames[i] in frames;
      }
      forall f | f in lane.frames ensures Fits(f, g, lane.next) {
        assert f in frames || f == l.frame;
      }
    }
  }

  lemma {:induction false} FoldAllOrders(m: Lanes, ls: seq<Line>)
    requires Ordered(m) && FoldAll(m, ls).Some?
    ensures Ordered(FoldAll(m, ls).value)
    decreases |ls|
  {
    if ls != [] {
      FoldOrders(m, ls[0]);
      FoldAllOrders(Fold(m, ls[0]).value, ls[1..]);
    }
  }

  lemma {:induction false} FoldAllSplits(m: Lanes, a: seq<Line>, b: seq<Line>)
    requires FoldAll(m, a).Some?
    ensures FoldAll(m, a + b) == FoldAll(FoldAll(m, a).value, b)
    decreases |a|
  {
    if a == [] {
      assert a + b == b;
    } else {
      assert (a + b)[1..] == a[1..] + b;
      FoldAllSplits(Fold(m, a[0]).value, a[1..], b);
    }
  }

  lemma {:induction false} FoldAppends(m: Lanes, ls: seq<Line>, l: Line)
    requires FoldAll(m, ls).Some?
    ensures FoldAll(m, ls + [l]) == Fold(FoldAll(m, ls).value, l)
  {
    FoldAllSplits(m, ls, [l]);
    assert [l][1..] == [];
    assert Fold(FoldAll(m, ls).value, l).Some? ==> FoldAll(Fold(FoldAll(m, ls).value, l).value, [l][1..]).Some?;
  }

  /** Folding a game's frames one by one rebuilds them. */
  lemma {:induction false} KeptFold(m: Lanes, game: Bytes, lane: Lane, i: nat)
    requires game !in m && OrderedLane(game, lane) && i <= |lane.frames|
    ensures
      var done := lane.frames[..i];
      FoldAll(m, Kept(done)) == Some(if i == 0 then m else m[game := Lane(Last(done), done)])
  {
    hide Ordered, FoldAll;
    if i == 0 {
      FoldNothing(m);
    } else {
      var before, done := lane.frames[..i - 1], lane.frames[..i];
      var f := lane.frames[i - 1];
      KeptFold(m, game, lane, i - 1);
      assert Kept(done) == Kept(before) + [Line(f, false)];
      assert before + [f] == done;
      FoldAppends(m, Kept(before), Line(f, false));
      assert f in lane.frames && Fits(f, game, lane.next);
      FoldOne(m, game, before, f);
    }
  }

  lemma FoldNothing(m: Lanes)
    ensures FoldAll(m, []) == Some(m)
  {
  }

  lemma FoldOne(m: Lanes, game: Bytes, before: seq<Frame>, f: Frame)
    requires game !in m && f.game == game && Complete(Line(f, false)) && (before != [] ==> f.number > Last(before))
    ensures
      var cur := if before == [] then m else m[game := Lane(Last(before), before)];
      Fold(cur, Line(f, false)) == Some(m[game := Lane(f.number, before + [f])])
  {
    assert [] + [f] == [f];
    var last := Lane(f.number, before + [f]);
    assert before != [] ==> m[game := Lane(Last(before), before)][game := last] == m[game := last];
  }

  lemma LaneFolds(m: Lanes, game: Bytes, lane: Lane)
    requires game !in m && OrderedLane(game, lane)
    ensures FoldAll(m, LaneLines(game, lane)) == Some(m[game := lane])
  {
    hide FoldAll;
    KeptFold(m, game, lane, |lane.frames|);
    assert lane.frames[..|lane.frames|] == lane.frames;
    if Last(lane.frames) < lane.next {
      FoldAppends(m, Kept(lane.frames), Mark(game, lane.next));
      MarkOne(m, game, lane);
    } else {
      assert LaneLines(game, lane) == Kept(lane.frames);
      assert lane.frames != [] ==> lane.frames[|lane.frames| - 1] in lane.frames;
    }
  }

  lemma MarkOne(m: Lanes, game: Bytes, lane: Lane)
    requires game !in m && game != [] && Last(lane.frames) < lane.next
    ensures
      var cur := if lane.frames == [] then m else m[game := Lane(Last(lane.frames), lane.frames)];
      Fold(cur, Mark(game, lane.next)) == Some(m[game := lane])
  {
    assert lane.frames + [] == lane.frames;
    assert lane.frames != [] ==> m[game := Lane(Last(lane.frames), lane.frames)][game := lane] == m[game := lane];
  }

  /** The rewritten file passes the reader's own check and reads back as the lanes
      it was written from, whatever order the games are written in. */
  lemma {:induction false} RewriteFolds(m: Lanes, games: seq<Bytes>, begun: Lanes)
    requires Ordered(m) && Distinct(games)
    requires forall g :: g in games ==> g in m && g !in begun
    ensures FoldAll(begun, RewriteLines(m, games)) == Some(begun + Only(m, games))
    decreases |games|
  {
    hide FoldAll, LaneLines, OrderedLane;
    if games == [] {
      assert begun + Only(m, games) == begun;
      FoldNothing(begun);
    } else {
      var g := games[0];
      assert g in games;
      LaneFolds(begun, g, m[g]);
      FoldAllSplits(begun, LaneLines(g, m[g]), RewriteLines(m, games[1..]));
      var more := begun[g := m[g]];
      forall h | h in games[1..] ensures h in m && h !in more {
        var i :| 0 <= i < |games[1..]| && games[1..][i] == h;
        assert games[i + 1] == h && h in games;
      }
      RewriteFolds(m, games[1..], more);
      RestOf(m, games, begun);
    }
  }

  lemma RestOf(m: Lanes, games: seq<Bytes>, begun: Lanes)
    requires games != [] && forall g :: g in games ==> g in m
    ensures begun[games[0] := m[games[0]]] + Only(m, games[1..]) == begun + Only(m, games)
  {
    assert games == [games[0]] + games[1..];
    assert forall g :: g in games <==> g == games[0] || g in games[1..];
  }

  /** The lanes of these games. */
  function Only(m: Lanes, games: seq<Bytes>): Lanes
    requires forall g :: g in games ==> g in m
  {
    map g | g in games :: m[g]
  }

  lemma {:induction false} WithoutIsPart(frames: seq<Frame>, gcid: Bytes)
    ensures forall f :: f in Without(frames, gcid) <==> f in frames && f.gcid != gcid
  {
    if frames != [] {
      WithoutIsPart(frames[1..], gcid);
      assert forall f :: f in frames <==> f == frames[0] || f in frames[1..];
    }
  }

  lemma {:induction false} WithoutRises(frames: seq<Frame>, gcid: Bytes)
    requires RisingFrames(frames)
    ensures RisingFrames(Without(frames, gcid))
  {
    if frames != [] {
      var rest := frames[1..];
      assert forall i :: 0 <= i < |rest| ==> rest[i] == frames[i + 1];
      WithoutRises(rest, gcid);
      WithoutIsPart(rest, gcid);
      var out := Without(rest, gcid);
      forall i | 0 <= i < |out| ensures frames[0].number < out[i].number {
        assert out[i] in rest;
      }
    }
  }

  lemma PruneOrders(m: Lanes, gcid: Bytes)
    requires Ordered(m)
    ensures Ordered(Prune(m, gcid))
  {
    forall g | g in m ensures OrderedLane(g, Prune(m, gcid)[g]) {
      WithoutIsPart(m[g].frames, gcid);
      WithoutRises(m[g].frames, gcid);
    }
  }

  // ---- Runs ----

  /** The file, the memory of a running process, what the file says, the whole
      lines in it, every frame handed out, and those whose group was not pruned since.
      Memory and file part when a write fails after it reached the file. */
  datatype World = World(
    file: Bytes, mem: Option<Lanes>, disk: Lanes, lines: seq<Line>, issued: seq<Frame>, owed: seq<Frame>)

  datatype Event =
    | Persists(frame: Frame, how: Append)
    | Prunes(gcid: Bytes, games: seq<Bytes>, write: Write)
    | Crashes

  function Loaded(c: Codec<Line>, w: World): World {
    if w.mem.Some? then w else w.(file := w.file[..Whole(w.file)], mem := Load(c, w.file))
  }

  predicate AllGames(m: Lanes, games: seq<Bytes>) {
    (forall g :: g in games ==> g in m) && (forall g :: g in m ==> g in games)
  }

  predicate Given(f: Frame) { f.game != [] && f.gcid != [] && f.text != [] }

  /** Memory and file agree on the last number of this game. */
  predicate Level(w: World, game: Bytes) { w.mem.Some? && NextOf(w.mem.value, game) == NextOf(w.disk, game) }

  /** Frames are complete; a frame that is written belongs to a game memory and file
      agree on; and a rewrite writes every game once. */
  predicate Possible(c: Codec<Line>, w: World, e: Event) {
    var l := Loaded(c, w);
    match e
    case Persists(f, _) => Given(f) && (l.mem.Some? && !Seen(l.mem.value, f) ==> Level(l, f.game))
    case Prunes(gcid, games, _) => Distinct(games) && (l.mem.Some? ==> AllGames(l.mem.value, games))
    case Crashes => true
  }

  function Next(c: Codec<Line>, w: World, e: Event): World
    requires Possible(c, w, e)
  {
    match e
    case Persists(f, how) =>
      var l := Loaded(c, w);
      if l.mem.None? || Seen(l.mem.value, f) then l
      else
        var line := Line(Numbered(l.mem.value, f), false);
        var landed := Landed(LineOf(c, line), how);
        l.(file := Appended(l.file, LineOf(c, line), how),
           mem := if how.Cut? then None else if how == Done then Some(Persist(l.mem.value, f)) else l.mem,
           disk := if landed then Persist(l.disk, f) else l.disk,
           lines := if landed then l.lines + [line] else l.lines,
           issued := if how == Done then l.issued + [line.frame] else l.issued,
           owed := if how == Done then l.owed + [line.frame] else l.owed)
    case Prunes(gcid, games, write) =>
      var l := Loaded(c, w);
      if l.mem.None? || !Holds(l.mem.value, gcid) || write == Lost then l
      else
        var m := Prune(l.mem.value, gcid);
        var lines := RewriteLines(m, games);
        World(Written(c, lines), if write == Saved then None else l.mem, m, lines, l.issued,
              Without(l.owed, gcid))
    case Crashes => w.(mem := None)
  }

  ghost predicate Leads(c: Codec<Line>, w: World, events: seq<Event>, end: World)
    decreases |events|
  {
    if events == [] then w == end
    else Possible(c, w, events[0]) && Leads(c, Next(c, w, events[0]), events[1..], end)
  }

  const EMPTY: World := World([], None, map[], [], [], [])

  /** No number of a game is handed out twice, and they only rise. */
  predicate Rising(issued: seq<Frame>) {
    forall i, j :: 0 <= i < j < |issued| && issued[i].game == issued[j].game ==> issued[i].number < issued[j].number
  }

  predicate Covers(m: Lanes, issued: seq<Frame>) {
    forall f :: f in issued ==> f.number <= NextOf(m, f.game)
  }

  /** Every frame handed out whose group was not pruned since is there. */
  predicate Survive(m: Lanes, owed: seq<Frame>) {
    forall f :: f in owed ==> f in FramesOf(m, f.game)
  }

  ghost predicate Behind(m: Lanes, disk: Lanes) {
    forall g :: NextOf(m, g) <= NextOf(disk, g)
  }

  predicate Keeps(m: Lanes, issued: seq<Frame>, owed: seq<Frame>) {
    Ordered(m) && Covers(m, issued) && Survive(m, owed)
  }

  ghost predicate Invariant(c: Codec<Line>, w: World) {
    && Filed(c, w.file, w.lines)
    && FoldAll(map[], w.lines) == Some(w.disk)
    && Rising(w.issued) && Keeps(w.disk, w.issued, w.owed)
    && (w.mem.Some? ==>
          && w.file == Written(c, w.lines) && Behind(w.mem.value, w.disk)
          && Keeps(w.mem.value, w.issued, w.owed))
  }

  lemma LoadKeeps(c: Codec<Line>, w: World)
    requires Faithful(c) && Invariant(c, w)
    ensures Invariant(c, Loaded(c, w)) && Loaded(c, w).mem.Some?
    ensures Load(c, w.file) == Some(w.disk)
    ensures Loaded(c, w) == w.(file := Loaded(c, w).file, mem := Loaded(c, w).mem)
    ensures w.mem.None? ==> Loaded(c, w).mem.value == w.disk
  {
    hide FoldAll, Keeps, Rising;
    FiledReads(c, w.file, w.lines);
    if w.mem.None? {
      assert Loaded(c, w).file == Written(c, w.lines) + [];
    }
  }

  lemma PersistIsFold(m: Lanes, f: Frame)
    requires Given(f)
    ensures Fold(m, Line(Numbered(m, f), false)) == Some(Persist(m, f))
  {
  }

  lemma PersistKeeps(c: Codec<Line>, w: World, f: Frame, how: Append)
    requires Faithful(c) && Invariant(c, w) && Possible(c, w, Persists(f, how))
    ensures Invariant(c, Next(c, w, Persists(f, how)))
  {
    hide Fold, FoldAll, Keeps, Rising, Behind, Written, LineOf, Appended, Load, Filed, Faithful, Persist;
    LoadKeeps(c, w);
    var l := Loaded(c, w);
    var m := l.mem.value;
    if !Seen(m, f) {
      var line := Line(Numbered(m, f), false);
      var issued := l.issued + [line.frame];
      assert line.frame == Numbered(l.disk, f);
      PersistIsFold(l.disk, f);
      FoldAppends(map[], l.lines, line);
      AppendFiles(c, l.lines, line, how);
      if !how.Cut? {
        AppendedWhole(c, l.lines, line, how);
      }
      PersistStays(l.disk, f, l.issued, l.owed);
      PersistStays(m, f, l.issued, l.owed);
      IssueRises(m, f, l.issued) by { assert Covers(m, l.issued) by { KeepsIs(m, l.issued, l.owed); } }
      PersistBehind(m, l.disk, f);
    }
  }

  lemma KeepsIs(m: Lanes, issued: seq<Frame>, owed: seq<Frame>)
    requires Keeps(m, issued, owed)
    ensures Ordered(m) && Covers(m, issued) && Survive(m, owed)
  {
  }

  lemma PersistBehind(m: Lanes, disk: Lanes, f: Frame)
    requires Behind(m, disk) && NextOf(m, f.game) == NextOf(disk, f.game)
    ensures Behind(m, Persist(disk, f)) && Behind(Persist(m, f), Persist(disk, f))
  {
  }

  /** A frame more in memory or in the file loses nothing handed out, whether or not
      its number is handed out. */
  lemma PersistStays(m: Lanes, f: Frame, issued: seq<Frame>, owed: seq<Frame>)
    requires Given(f) && Keeps(m, issued, owed)
    ensures Keeps(Persist(m, f), issued, owed)
    ensures Keeps(Persist(m, f), issued + [Numbered(m, f)], owed + [Numbered(m, f)])
  {
    hide Ordered;
    PersistIsFold(m, f);
    FoldOrders(m, Line(Numbered(m, f), false));
    var more := Persist(m, f);
    forall g: Frame | g in FramesOf(m, g.game) ensures g in FramesOf(more, g.game) {
    }
  }

  lemma IssueRises(m: Lanes, f: Frame, issued: seq<Frame>)
    requires Rising(issued) && Covers(m, issued)
    ensures Rising(issued + [Numbered(m, f)])
  {
    var more := issued + [Numbered(m, f)];
    forall i, j | 0 <= i < j < |more| && more[i].game == more[j].game ensures more[i].number < more[j].number {
      assert more[i] in issued;
    }
  }

  lemma PruneKeeps(c: Codec<Line>, w: World, gcid: Bytes, games: seq<Bytes>, write: Write)
    requires Faithful(c) && Invariant(c, w) && Possible(c, w, Prunes(gcid, games, write))
    ensures Invariant(c, Next(c, w, Prunes(gcid, games, write)))
  {
    hide FoldAll, Load, RewriteLines, Without, Faithful, Rising, Keeps, Written, Filed, Prune;
    LoadKeeps(c, w);
    var l := Loaded(c, w);
    if Holds(l.mem.value, gcid) && write != Lost {
      var m := Prune(l.mem.value, gcid);
      PruneStays(l.mem.value, gcid, l.issued, l.owed);
      RewriteFolds(m, games, map[]) by { KeepsIs(m, l.issued, Without(l.owed, gcid)); }
      assert map[] + Only(m, games) == m;
      WrittenIsFiled(c, RewriteLines(m, games));
    }
  }

  lemma WrittenIsFiled(c: Codec<Line>, lines: seq<Line>)
    ensures Filed(c, Written(c, lines), lines)
  {
    assert Written(c, lines) == Written(c, lines) + [];
  }

  lemma PruneStays(m: Lanes, gcid: Bytes, issued: seq<Frame>, owed: seq<Frame>)
    requires Keeps(m, issued, owed)
    ensures Keeps(m, issued, Without(owed, gcid)) && Keeps(Prune(m, gcid), issued, Without(owed, gcid))
    ensures Prune(m, gcid).Keys == m.Keys && Behind(m, Prune(m, gcid))
  {
    hide Ordered, Without;
    PruneOrders(m, gcid);
    WithoutIsPart(owed, gcid);
    forall f | f in Without(owed, gcid) ensures f in FramesOf(Prune(m, gcid), f.game) {
      WithoutIsPart(FramesOf(m, f.game), gcid);
    }
  }

  lemma CrashKeeps(c: Codec<Line>, w: World)
    requires Invariant(c, w)
    ensures Invariant(c, Next(c, w, Crashes))
  {
    hide Filed, FoldAll, Keeps;
  }

  lemma NextKeeps(c: Codec<Line>, w: World, e: Event)
    requires Faithful(c) && Invariant(c, w) && Possible(c, w, e)
    ensures Invariant(c, Next(c, w, e))
  {
    hide Invariant, Possible, Next, Faithful;
    match e {
      case Persists(f, how) => PersistKeeps(c, w, f, how);
      case Prunes(gcid, games, write) => PruneKeeps(c, w, gcid, games, write);
      case Crashes => CrashKeeps(c, w);
    }
  }

  // ---- What a run should leave: the lanes with the frames written and the groups deleted ----

  /** No write of this step fails after it reached the file. */
  predicate Plain(e: Event) {
    match e
    case Persists(_, how) => how != Late
    case Prunes(_, _, write) => write != SavedLate
    case Crashes => true
  }

  function Ideal(c: Codec<Line>, m: Lanes, e: Event): Lanes {
    match e
    case Persists(f, how) =>
      if Seen(m, f) || !Landed(LineOf(c, Line(Numbered(m, f), false)), how) then m else Persist(m, f)
    case Prunes(gcid, _, write) => if write == Lost then m else Prune(m, gcid)
    case Crashes => m
  }

  function IdealRun(c: Codec<Line>, m: Lanes, events: seq<Event>): Lanes
    decreases |events|
  {
    if events == [] then m else IdealRun(c, Ideal(c, m, events[0]), events[1..])
  }

  /** Memory, if there is one, is what the file says. */
  predicate InStep(w: World) { w.mem.Some? ==> w.mem.value == w.disk }

  lemma {:induction false} WithoutNone(frames: seq<Frame>, gcid: Bytes)
    requires forall i :: 0 <= i < |frames| ==> frames[i].gcid != gcid
    ensures Without(frames, gcid) == frames
  {
    if frames != [] {
      WithoutNone(frames[1..], gcid);
      assert frames == [frames[0]] + frames[1..];
    }
  }

  lemma PruneOfNothing(m: Lanes, gcid: Bytes)
    requires !Holds(m, gcid)
    ensures Prune(m, gcid) == m
  {
    forall g | g in m ensures Prune(m, gcid)[g] == m[g] {
      WithoutNone(m[g].frames, gcid);
    }
  }

  /** In step, a step is the deletion or the append it stands for, every frame may
      be persisted, and memory and file stay in step. */
  lemma PlainStep(c: Codec<Line>, w: World, e: Event)
    requires Faithful(c) && Invariant(c, w) && InStep(w) && Plain(e)
    ensures e.Persists? && Given(e.frame) ==> Possible(c, w, e)
    ensures Possible(c, w, e) ==> InStep(Next(c, w, e)) && Next(c, w, e).disk == Ideal(c, w.disk, e)
  {
    hide Load, RewriteLines, Without, Faithful, Invariant, Written, LineOf, Appended, Persist, Seen, Holds, Prune;
    LoadKeeps(c, w);
    if e.Prunes? && !Holds(w.disk, e.gcid) {
      PruneOfNothing(w.disk, e.gcid);
    }
  }

  lemma {:induction false} RunsKeep(c: Codec<Line>, w: World, events: seq<Event>, end: World)
    requires Faithful(c) && Invariant(c, w) && Leads(c, w, events, end)
    ensures Invariant(c, end)
    ensures InStep(w) && (forall e :: e in events ==> Plain(e)) ==> end.disk == IdealRun(c, w.disk, events)
    decreases |events|
  {
    hide Invariant, Possible, Next, Faithful, InStep, Plain, Ideal;
    if events != [] {
      var e := events[0];
      NextKeeps(c, w, e);
      RunsKeep(c, Next(c, w, e), events[1..], end);
      if InStep(w) && forall e :: e in events ==> Plain(e) {
        PlainStep(c, w, e);
      }
    }
  }

  /** After any run of persists, prunes, failed writes and crashes, the reader
      accepts the file; every frame handed out is in it under its number unless its
      group was pruned since, each game's frames in order and its highest number kept; and
      no number is handed out twice. When no write failed after it reached the file,
      the file says exactly what appending and deleting alone would. */
  lemma PruningIsDeletion(c: Codec<Line>, events: seq<Event>, end: World)
    requires Faithful(c) && Leads(c, EMPTY, events, end)
    ensures Load(c, end.file) == Some(end.disk) && Ordered(end.disk)
    ensures Rising(end.issued) && Covers(end.disk, end.issued) && Survive(end.disk, end.owed)
    ensures (forall e :: e in events ==> Plain(e)) ==> Load(c, end.file) == Some(IdealRun(c, map[], events))
  {
    hide Leads;
    assert Filed(c, EMPTY.file, EMPTY.lines) by {
      assert [] == Written(c, []) + [];
    }
    RunsKeep(c, EMPTY, events, end);
    LoadKeeps(c, end);
  }

  /** What pruning deletes and what it keeps. */
  lemma PruneIsExact(m: Lanes, gcid: Bytes, g: Bytes, f: Frame)
    requires Ordered(m) && g in m
    ensures f in Prune(m, gcid)[g].frames <==> f in m[g].frames && f.gcid != gcid
    ensures NextOf(Prune(m, gcid), g) == NextOf(m, g)
  {
    WithoutIsPart(m[g].frames, gcid);
  }

  // ---- Writes that fail late ----

  /** The file after one more frame is written whole. */
  function WithFrame(c: Codec<Line>, w: World, f: Frame): Bytes
    requires w.mem.Some?
  {
    Appended(w.file, LineOf(c, Line(Numbered(w.mem.value, f), false)), Done)
  }

  /** The condition on persisting is exact: a new frame leaves a file the reader
      accepts just when memory and file agree on the last number of its game. */
  lemma LevelIsExact(c: Codec<Line>, w: World, f: Frame)
    requires Faithful(c) && Invariant(c, w) && w.mem.Some? && Given(f)
    ensures Load(c, WithFrame(c, w, f)).Some? <==> Level(w, f.game)
  {
    hide Fold, FoldAll, Written, Filed, Keeps, Rising, LineOf;
    var line := Line(Numbered(w.mem.value, f), false);
    FoldAppends(map[], w.lines, line);
    WrittenAppends(c, w.lines, line);
    var all := w.lines + [line];
    ReadsWholeRecords(c, all, []);
    assert Written(c, all) + [] == Written(c, all);
    assert NextOf(w.mem.value, f.game) <= NextOf(w.disk, f.game);
    FoldTakes(w.disk, line);
  }

  lemma FoldTakes(m: Lanes, l: Line)
    ensures Fold(m, l).Some? <==> Complete(l) && l.frame.number > NextOf(m, l.frame.game)
  {
  }

  /** After an append that failed once it was in the file, the next new frame leaves
      a file the reader accepts just when it is another game's. */
  lemma LateAppendPoisons(c: Codec<Line>, w: World, f: Frame, g: Frame)
    requires Faithful(c) && Invariant(c, w) && w.mem.Some? && Level(w, f.game) && Level(w, g.game)
    requires Given(f) && Given(g) && !Seen(w.mem.value, f)
    ensures Load(c, WithFrame(c, Next(c, w, Persists(f, Late)), g)).Some? <==> f.game != g.game
  {
    hide Invariant, Seen, Load, WithFrame, Faithful;
    PersistKeeps(c, w, f, Late);
    LevelIsExact(c, Next(c, w, Persists(f, Late)), g);
  }

  /** A prune that follows such an append rewrites the file from memory: the frame
      is gone from it, and every frame may be persisted again, its number the next
      one's. */
  lemma PruneClears(c: Codec<Line>, w: World, f: Frame, gcid: Bytes, games: seq<Bytes>, g: Frame, how: Append)
    requires Faithful(c) && Invariant(c, w) && w.mem.Some? && Level(w, f.game)
    requires Given(f) && !Seen(w.mem.value, f) && Holds(w.mem.value, gcid)
    requires Distinct(games) && AllGames(w.mem.value, games) && Given(g)
    ensures
      var v := Next(c, w, Persists(f, Late));
      && Numbered(w.mem.value, f) in FramesOf(v.disk, f.game)
      && Possible(c, v, Prunes(gcid, games, Saved))
      && var u := Next(c, v, Prunes(gcid, games, Saved));
      && u.disk == Prune(w.mem.value, gcid)
      && Numbered(w.mem.value, f) !in FramesOf(u.disk, f.game)
      && Possible(c, u, Persists(g, how))
  {
    hide Invariant, Seen, Load, Faithful, Prune, RewriteLines, LineOf, Holds;
    var v := Next(c, w, Persists(f, Late));
    PersistKeeps(c, w, f, Late);
    assert v.mem == w.mem;
    assert Numbered(w.mem.value, f) == FramesOf(v.disk, f.game)[|FramesOf(w.disk, f.game)|];
    PruneKeeps(c, v, gcid, games, Saved);
    var u := Next(c, v, Prunes(gcid, games, Saved));
    LoadKeeps(c, u);
    LastIsNew(c, w, f, gcid);
  }

  lemma LastIsNew(c: Codec<Line>, w: World, f: Frame, gcid: Bytes)
    requires Invariant(c, w) && w.mem.Some?
    ensures Numbered(w.mem.value, f) !in FramesOf(Prune(w.mem.value, gcid), f.game)
  {
    hide Filed, Written, FoldAll;
    var m, g := w.mem.value, f.game;
    if g in m {
      PruneIsExact(m, gcid, g, Numbered(m, f));
      forall x | x in m[g].frames ensures x != Numbered(m, f) {
        assert Fits(x, g, m[g].next);
      }
    }
  }
}
