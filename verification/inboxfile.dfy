/** The inbox as the bridge keeps it: maps of numbers, frames and events
    seen, filled by a scan of the file, appended to and rewritten; each
    method is proved to take the step the inbox's runs are made of. */
module InboxFile {
  import opened ByteStrings
  import opened Sorting
  import opened WireFiles
  import opened Inbox

  /** What identifies an event, whatever number it was given. */
  datatype FrameKey = FrameKey(game: Bytes, gcid: Bytes, from: Bytes, text: Bytes)

  function KeyOf(f: Frame): FrameKey { FrameKey(f.game, f.gcid, f.from, f.text) }

  /** The three maps a process holds. */
  datatype Memory = Memory(next: map<Bytes, nat>, records: map<Bytes, seq<Frame>>, seen: set<FrameKey>)

  function LanesOf(m: Memory): Lanes {
    map g | g in m.next :: Lane(m.next[g], if g in m.records then m.records[g] else [])
  }

  ghost predicate Agrees(m: Memory) {
    && m.records.Keys <= m.next.Keys
    && forall f: Frame :: KeyOf(f) in m.seen <==> Seen(LanesOf(m), f)
  }

  function Recording(m: Memory, l: Line): Memory {
    var g := l.frame.game;
    var next := m.next[g := l.frame.number];
    if l.mark then m.(next := next)
    else
      var frames := (if g in m.records then m.records[g] else []) + [l.frame];
      Memory(next, m.records[g := frames], m.seen + {KeyOf(l.frame)})
  }

  /** The lane one line leaves its game with. */
  lemma FiledLane(m: Memory, l: Line)
    requires m.records.Keys <= m.next.Keys && Fold(LanesOf(m), l).Some?
    ensures Recording(m, l).records.Keys <= Recording(m, l).next.Keys
    ensures LanesOf(Recording(m, l)).Keys == Fold(LanesOf(m), l).value.Keys
    ensures LanesOf(Recording(m, l))[l.frame.game] == Fold(LanesOf(m), l).value[l.frame.game]
  {
    var frames := FramesOf(LanesOf(m), l.frame.game);
    assert frames + [] == frames;
  }

  lemma OtherLanesStay(m: Memory, l: Line, g: Bytes)
    requires Fold(LanesOf(m), l).Some? && g in m.next && g != l.frame.game
    ensures g in LanesOf(Recording(m, l)) && g in Fold(LanesOf(m), l).value
    ensures LanesOf(Recording(m, l))[g] == Fold(LanesOf(m), l).value[g]
  {
  }

  lemma FilingLanes(m: Memory, l: Line)
    requires m.records.Keys <= m.next.Keys && Fold(LanesOf(m), l).Some?
    ensures LanesOf(Recording(m, l)) == Fold(LanesOf(m), l).value
  {
    hide LanesOf, Fold, Recording;
    FiledLane(m, l);
    LaneKeys(m);
    var v, out := LanesOf(Recording(m, l)), Fold(LanesOf(m), l).value;
    assert out.Keys == m.next.Keys + {l.frame.game} by { FoldKeys(LanesOf(m), l); }
    forall g | g in v ensures v[g] == out[g] {
      if g != l.frame.game {
        OtherLanesStay(m, l, g);
      }
    }
  }

  lemma LaneKeys(m: Memory)
    ensures LanesOf(m).Keys == m.next.Keys
  {
  }

  lemma FoldKeys(m: Lanes, l: Line)
    requires Fold(m, l).Some?
    ensures Fold(m, l).value.Keys == m.Keys + {l.frame.game}
  {
  }

  lemma RecordingSees(m: Memory, l: Line)
    ensures Recording(m, l).seen == m.seen + if l.mark then {} else {KeyOf(l.frame)}
  {
  }

  lemma FilingFolds(m: Memory, l: Line)
    requires Agrees(m) && Fold(LanesOf(m), l).Some?
    ensures Agrees(Recording(m, l)) && LanesOf(Recording(m, l)) == Fold(LanesOf(m), l).value
  {
    hide Seen, LanesOf, Fold, Recording;
    FiledLane(m, l);
    FilingLanes(m, l);
    RecordingSees(m, l);
    forall f: Frame ensures KeyOf(f) in Recording(m, l).seen <==> Seen(Fold(LanesOf(m), l).value, f) {
      SeenAfter(LanesOf(m), l, f);
      assert SameEvent(l.frame, f) <==> KeyOf(l.frame) == KeyOf(f);
    }
  }

  lemma SeenAfter(m: Lanes, l: Line, f: Frame)
    requires Fold(m, l).Some?
    ensures Seen(Fold(m, l).value, f) <==> Seen(m, f) || (!l.mark && SameEvent(l.frame, f))
  {
    var out := Fold(m, l).value;
    var before, after := FramesOf(m, f.game), FramesOf(out, f.game);
    if f.game == l.frame.game && !l.mark {
      assert after == before + [l.frame];
      assert after[|before|] == l.frame;
      if i :| 0 <= i < |before| && SameEvent(before[i], f) {
        assert after[i] == before[i];
      }
    } else {
      assert before + [] == before;
      assert after == before;
    }
  }

  /** Reading the rest of a file into lanes begun already. */
  function Scan(c: Codec<Line>, b: Bytes, m: Lanes): Option<Lanes> {
    match Parse(c, Lines(b))
    case None => None
    case Some(ls) => FoldAll(m, ls)
  }

  lemma ScanTakesLine(c: Codec<Line>, b: Bytes, m: Lanes)
    requires b != []
    ensures
      var n := FirstBreak(b);
      var rest := if n == |b| then [] else b[n + 1..];
      Scan(c, b, m) ==
      match c.decode(b[..n])
      case None => None
      case Some(x) => if Parse(c, Lines(rest)).None? || Fold(m, x).None? then None else Scan(c, rest, Fold(m, x).value)
  {
    hide Fold, Lines, Parse;
    ParseTakesLine(c, b);
    var n := FirstBreak(b);
    var rest := Parse(c, Lines(if n == |b| then [] else b[n + 1..]));
    if c.decode(b[..n]).Some? && rest.Some? {
      var x := c.decode(b[..n]).value;
      assert ([x] + rest.value)[1..] == rest.value;
    }
  }

  /** Reads the inbox file, refusing an incomplete frame or a number that does not
      rise. */
  method ReadInbox(c: Codec<Line>, file: Bytes) returns (healed: Bytes, m: Option<Memory>)
    ensures healed == file[..Whole(file)]
    ensures m.Some? <==> Load(c, file).Some?
    ensures m.Some? ==> Agrees(m.value) && LanesOf(m.value) == Load(c, file).value
  {
    hide Agrees, Seen, LanesOf;
    var dropped;
    healed, dropped := HealTornTail(file);
    var mem := Memory(map[], map[], {});
    NothingAgrees();
    var rest := healed;
    while rest != []
      invariant Agrees(mem)
      invariant Scan(c, healed, map[]) == Scan(c, rest, LanesOf(mem))
      decreases |rest|
    {
      ScanTakesLine(c, rest, LanesOf(mem));
      NextIs(mem);
      var n := FirstBreak(rest);
      var line := rest[..n];
      rest := if n == |rest| then [] else rest[n + 1..];
      var rec := c.decode(line);
      if rec.None? {
        return healed, None;
      }
      var f := rec.value.frame;
      if f.number == 0 || f.game == [] || (!rec.value.mark && (f.gcid == [] || f.text == [])) {
        return healed, None;
      }
      if f.number <= (if f.game in mem.next then mem.next[f.game] else 0) {
        return healed, None;
      }
      FilingFolds(mem, rec.value);
      mem := Recording(mem, rec.value);
    }
    m := Some(mem);
  }

  lemma NothingAgrees()
    ensures Agrees(Memory(map[], map[], {})) && LanesOf(Memory(map[], map[], {})) == map[]
  {
  }

  lemma NextIs(m: Memory)
    ensures forall g :: NextOf(LanesOf(m), g) == if g in m.next then m.next[g] else 0
  {
  }

  lemma FramesAre(m: Memory)
    requires m.records.Keys <= m.next.Keys
    ensures forall g :: FramesOf(LanesOf(m), g) == if g in m.records then m.records[g] else []
    ensures LanesOf(m).Keys == m.next.Keys
  {
  }

  class WireInbox {
    const c: Codec<Line>
    var file: Bytes
    var loaded: bool
    var mem: Memory

    ghost predicate Valid()
      reads this
    {
      loaded ==> Agrees(mem)
    }

    ghost function View(): (Bytes, Option<Lanes>)
      reads this
    {
      (file, if loaded then Some(LanesOf(mem)) else None)
    }

    constructor (c: Codec<Line>, file: Bytes)
      ensures this.c == c && View() == (file, None) && Valid()
    {
      this.c, this.file, loaded, mem := c, file, false, Memory(map[], map[], {});
    }

    method LoadLocked() returns (ok: bool)
      requires Valid()
      modifies this
      ensures Valid() && ok == loaded
      ensures View() == if old(loaded) then old(View()) else (old(file)[..Whole(old(file))], Load(c, old(file)))
    {
      if loaded {
        return true;
      }
      var m;
      file, m := ReadInbox(c, file);
      ok := m.Some?;
      if ok {
        loaded, mem := true, m.value;
      }
    }

    /** Writes and syncs a frame before it can reach a game; exact duplicates are
        ignored. */
    method PersistFrame(f: Frame, how: Append) returns (number: Option<nat>)
      requires Valid() && Given(f)
      modifies this
      ensures Valid()
      ensures
        var l := if old(loaded) then old(View()) else (old(file)[..Whole(old(file))], Load(c, old(file)));
        if l.1.None? || Seen(l.1.value, f) then View() == l && number == None
        else
          var line := Line(Numbered(l.1.value, f), false);
          && View() == (Appended(l.0, LineOf(c, line), how),
                        if how.Cut? then None else if how == Done then Some(Persist(l.1.value, f)) else l.1)
          && number == (if how == Done then Some(line.frame.number) else None)
    {
      hide Agrees, Seen, LanesOf;
      var ok := LoadLocked();
      if !ok {
        return None;
      }
      assert KeyOf(f) in mem.seen <==> Seen(LanesOf(mem), f) by { SeenIs(mem, f); }
      if KeyOf(f) in mem.seen {
        return None;
      }
      NextIs(mem);
      var line := Line(f.(number := (if f.game in mem.next then mem.next[f.game] else 0) + 1), false);
      file := Appended(file, LineOf(c, line), how);
      number := None;
      if how.Done? {
        PersistIsFold(LanesOf(mem), f);
        FilingFolds(mem, line);
        mem := Recording(mem, line);
        number := Some(line.frame.number);
      }
      if how.Cut? {
        loaded := false;
      }
    }

    /** Removes one group's frames by rewriting the file from memory; a mark keeps
        each game's highest number. The next use reads the new file. */
    method PruneGroup(gcid: Bytes, write: Write) returns (ok: bool, removed: nat, ghost games: seq<Bytes>)
      requires Valid()
      modifies this
      ensures Valid()
      ensures
        var l := if old(loaded) then old(View()) else (old(file)[..Whole(old(file))], Load(c, old(file)));
        if l.1.None? then View() == l && !ok && removed == 0
        else
          var m := l.1.value;
          && Distinct(games) && SortedBy(games, Sorting.Self) && AllGames(m, games)
          && ok == (!Holds(m, gcid) || write == Saved)
          && removed == (if ok then Size(m, games) - Size(Inbox.Prune(m, gcid), games) else 0)
          && View() == if !Holds(m, gcid) || write == Lost then l
                       else (Written(c, RewriteLines(Inbox.Prune(m, gcid), games)), if ok then None else l.1)
    {
      hide Agrees, LanesOf, RewriteLines, Holds, Inbox.Prune;
      games := [];
      ok := LoadLocked();
      if !ok {
        return false, 0, games;
      }
      assert mem.records.Keys <= mem.next.Keys by { Recorded(mem); }
      FramesAre(mem);
      var names := SortedGames(mem.next);
      games := names;
      removed := CountGroup(mem, names, gcid);
      if removed == 0 {
        return;
      }
      var lines := RewriteAll(mem, names, gcid);
      ok := write.Saved?;
      if !write.Lost? {
        file := Written(c, lines);
      }
      if ok {
        loaded := false;
      } else {
        removed := 0;
      }
    }
  }

  /** How many frames these games have. */
  function Size(m: Lanes, games: seq<Bytes>): nat {
    if games == [] then 0 else |FramesOf(m, games[0])| + Size(m, games[1..])
  }

  lemma {:induction false} SizeSplits(m: Lanes, games: seq<Bytes>, i: nat)
    requires i < |games|
    ensures Size(m, games[..i + 1]) == Size(m, games[..i]) + |FramesOf(m, games[i])|
  {
    if i == 0 {
      assert games[..1][1..] == [];
    } else {
      SizeSplits(m, games[1..], i - 1);
      assert games[..i + 1][1..] == games[1..][..i] && games[..i][1..] == games[1..][..i - 1];
    }
  }

  lemma {:induction false} WithoutShrinks(frames: seq<Frame>, gcid: Bytes)
    ensures |Without(frames, gcid)| <= |frames|
    ensures |Without(frames, gcid)| < |frames| <==> HasGroup(frames, gcid)
  {
    if frames != [] {
      WithoutShrinks(frames[1..], gcid);
      if HasGroup(frames[1..], gcid) {
        var n :| 0 <= n < |frames[1..]| && frames[1..][n].gcid == gcid;
        assert frames[n + 1].gcid == gcid;
      }
      if HasGroup(frames, gcid) && frames[0].gcid != gcid {
        var n :| 0 <= n < |frames| && frames[n].gcid == gcid;
        assert frames[1..][n - 1].gcid == gcid;
      }
    }
  }

  /** How many frames of a group there are, game by game. */
  method CountGroup(m: Memory, games: seq<Bytes>, gcid: Bytes) returns (removed: nat)
    requires m.records.Keys <= m.next.Keys && AllGames(LanesOf(m), games)
    ensures removed == Size(LanesOf(m), games) - Size(Inbox.Prune(LanesOf(m), gcid), games)
    ensures removed > 0 <==> Holds(LanesOf(m), gcid)
  {
    hide LanesOf, Without, Inbox.Prune, Size;
    FramesAre(m);
    ghost var lanes := LanesOf(m);
    ghost var pruned := Inbox.Prune(lanes, gcid);
    PruneKeys(lanes, gcid);
    GroupIsHeld(lanes, games, gcid);
    SizeOfNone(lanes);
    SizeOfNone(pruned);
    removed := 0;
    for i := 0 to |games|
      invariant removed == Size(lanes, games[..i]) - Size(pruned, games[..i])
      invariant removed > 0 <==> exists n :: 0 <= n < i && HasGroup(lanes[games[n]].frames, gcid)
    {
      var frames := if games[i] in m.records then m.records[games[i]] else [];
      assert games[i] in games && frames == FramesOf(lanes, games[i]) == lanes[games[i]].frames;
      var more := CountFrames(frames, gcid);
      SizeSplits(lanes, games, i);
      SizeSplits(pruned, games, i);
      WithoutShrinks(frames, gcid);
      removed := removed + more;
    }
    assert games[..|games|] == games;
  }

  method CountFrames(frames: seq<Frame>, gcid: Bytes) returns (n: nat)
    ensures n == |frames| - |Without(frames, gcid)|
  {
    n := 0;
    for i := 0 to |frames|
      invariant n == i - |Without(frames[..i], gcid)|
    {
      WithoutSplits(frames, i, gcid);
      if frames[i].gcid == gcid {
        n := n + 1;
      }
    }
    assert frames[..|frames|] == frames;
  }

  lemma SizeOfNone(m: Lanes)
    ensures Size(m, []) == 0
  {
  }

  method RewriteAll(m: Memory, games: seq<Bytes>, gcid: Bytes) returns (lines: seq<Line>)
    requires m.records.Keys <= m.next.Keys && AllGames(LanesOf(m), games)
    ensures lines == RewriteLines(Inbox.Prune(LanesOf(m), gcid), games)
  {
    hide LanesOf, LaneLines, Without, RewriteLines, Inbox.Prune;
    FramesAre(m);
    NextIs(m);
    PruneKeys(LanesOf(m), gcid);
    ghost var pruned := Inbox.Prune(LanesOf(m), gcid);
    lines := [];
    RewriteNone(pruned);
    for i := 0 to |games|
      invariant lines + RewriteLines(pruned, games[i..]) == RewriteLines(pruned, games)
    {
      var g := games[i];
      assert g in games && games[i..][0] == g && games[i..][1..] == games[i + 1..];
      RewriteFirst(pruned, games[i..]);
      assert LanesOf(m)[g] == Lane(m.next[g], FramesOf(LanesOf(m), g));
      var more := RewriteGame(g, m.next[g], if g in m.records then m.records[g] else [], gcid);
      lines := lines + more;
    }
    assert games[|games|..] == [];
  }

  lemma PruneKeys(m: Lanes, gcid: Bytes)
    ensures Inbox.Prune(m, gcid).Keys == m.Keys
    ensures forall g :: g in m ==> Inbox.Prune(m, gcid)[g] == Lane(m[g].next, Without(m[g].frames, gcid))
  {
  }

  lemma RewriteNone(m: Lanes)
    ensures RewriteLines(m, []) == []
  {
  }

  lemma RewriteFirst(m: Lanes, games: seq<Bytes>)
    requires games != [] && forall g :: g in games ==> g in m
    ensures RewriteLines(m, games) == LaneLines(games[0], m[games[0]]) + RewriteLines(m, games[1..])
  {
  }

  predicate HasGroup(frames: seq<Frame>, gcid: Bytes) { exists n :: 0 <= n < |frames| && frames[n].gcid == gcid }

  lemma GroupIsHeld(m: Lanes, games: seq<Bytes>, gcid: Bytes)
    requires AllGames(m, games)
    ensures Holds(m, gcid) <==> exists n :: 0 <= n < |games| && HasGroup(m[games[n]].frames, gcid)
  {
    if Holds(m, gcid) {
      var g :| g in m && exists i :: 0 <= i < |m[g].frames| && m[g].frames[i].gcid == gcid;
      assert g in games;
      var n :| 0 <= n < |games| && games[n] == g;
      assert HasGroup(m[games[n]].frames, gcid);
    }
    if n :| 0 <= n < |games| && HasGroup(m[games[n]].frames, gcid) {
      assert games[n] in games && games[n] in m;
    }
  }

  lemma SeenIs(m: Memory, f: Frame)
    requires Agrees(m)
    ensures KeyOf(f) in m.seen <==> Seen(LanesOf(m), f)
  {
  }

  lemma Recorded(m: Memory)
    requires Agrees(m)
    ensures m.records.Keys <= m.next.Keys
  {
  }

  lemma WithoutFirst(frames: seq<Frame>, gcid: Bytes)
    requires frames != []
    ensures Without(frames, gcid) == (if frames[0].gcid == gcid then [] else [frames[0]]) + Without(frames[1..], gcid)
  {
  }

  lemma WithoutOfNone(gcid: Bytes)
    ensures Without([], gcid) == []
  {
  }

  lemma {:induction false} WithoutSplits(frames: seq<Frame>, i: nat, gcid: Bytes)
    requires i < |frames|
    ensures Without(frames[..i + 1], gcid) ==
      if frames[i].gcid == gcid then Without(frames[..i], gcid) else Without(frames[..i], gcid) + [frames[i]]
  {
    hide Without;
    var rest := frames[1..];
    WithoutFirst(frames[..i + 1], gcid);
    WithoutOfNone(gcid);
    if i == 0 {
      assert frames[..1][1..] == [] && frames[..0] == [];
    } else {
      WithoutSplits(rest, i - 1, gcid);
      WithoutFirst(frames[..i], gcid);
      assert frames[..i + 1][1..] == rest[..i] && frames[..i][1..] == rest[..i - 1];
    }
  }

  /** One game's part of the rewritten file. */
  method RewriteGame(game: Bytes, next: nat, frames: seq<Frame>, gcid: Bytes) returns (lines: seq<Line>)
    ensures lines == LaneLines(game, Lane(next, Without(frames, gcid)))
  {
    lines := [];
    var last := 0;
    for i := 0 to |frames|
      invariant lines == Kept(Without(frames[..i], gcid)) && last == Last(Without(frames[..i], gcid))
    {
      WithoutSplits(frames, i, gcid);
      if frames[i].gcid == gcid {
        continue;
      }
      lines := lines + [Line(frames[i], false)];
      last := frames[i].number;
    }
    assert frames[..|frames|] == frames;
    if last < next {
      lines := lines + [Mark(game, next)];
    }
  }

  method SortedGames(next: map<Bytes, nat>) returns (games: seq<Bytes>)
    ensures Distinct(games) && SortedBy(games, Sorting.Self)
    ensures forall g :: g in games <==> g in next
  {
    games := [];
    var todo := next.Keys;
    while todo != {}
      invariant todo <= next.Keys && Distinct(games)
      invariant forall g :: g in games <==> g in next && g !in todo
      decreases |todo|
    {
      var g :| g in todo;
      games := games + [g];
      todo := todo - {g};
    }
    SortSorts(games, Sorting.Self);
    ghost var before := games;
    games := Sort(games, Sorting.Self);
    SortedHasDistinct(before, games);
  }

  lemma SortedHasDistinct(a: seq<Bytes>, b: seq<Bytes>)
    requires multiset(a) == multiset(b) && Distinct(a)
    ensures Distinct(b) && forall g :: g in b <==> g in a
  {
    forall g ensures g in b <==> g in a {
      assert g in b <==> g in multiset(b);
      assert g in a <==> g in multiset(a);
    }
    forall i, j | 0 <= i < j < |b| ensures b[i] != b[j] {
      if b[i] == b[j] {
        TwicePlaced(b, i, j);
        OncePlaced(a, b[i]);
      }
    }
  }

  lemma {:induction false} OncePlaced(a: seq<Bytes>, g: Bytes)
    requires Distinct(a)
    ensures multiset(a)[g] <= 1
  {
    if a != [] {
      assert a == [a[0]] + a[1..];
      assert forall i :: 0 <= i < |a[1..]| ==> a[1..][i] == a[i + 1];
      OncePlaced(a[1..], g);
      if g == a[0] {
        assert g !in a[1..];
      }
    }
  }
}
