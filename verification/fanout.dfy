/** Subscribers that catch up from the inbox and then follow it live. */
module Fanout {
  import opened ByteStrings
  import opened Inbox

  /** One listener: its channel, how much the channel holds, the last number queued
      on it, the cursor it came with, and everything ever queued on it. */
  datatype Sub = Sub(game: Bytes, cap: nat, queue: seq<Frame>, last: nat, open: bool, after: nat, handed: seq<Frame>)

  /** The frames past a cursor that a game is given; financial ones stay inside. */
  function Backlog(frames: seq<Frame>, after: nat): seq<Frame> {
    if frames == [] then []
    else (if frames[0].number > after && !frames[0].financial then [frames[0]] else []) + Backlog(frames[1..], after)
  }

  const DEFAULT_BUFFER: nat := 64

  function Joined(game: Bytes, after: nat, buf: nat, backlog: seq<Frame>): Sub {
    Sub(game, (if buf == 0 then DEFAULT_BUFFER else buf) + |backlog|, backlog,
        if backlog == [] then after else Last(backlog), true, after, backlog)
  }

  /** A frame queued, skipped as old, or refused by a full channel, which closes. */
  function Offer(s: Sub, f: Frame): Sub {
    if !s.open || s.game != f.game || f.number <= s.last then s
    else if |s.queue| < s.cap then s.(queue := s.queue + [f], last := f.number, handed := s.handed + [f])
    else s.(open := false)
  }

  function Broadcast(subs: seq<Sub>, f: Frame): seq<Sub> {
    seq(|subs|, i requires 0 <= i < |subs| => Offer(subs[i], f))
  }

  /** The inbox, the frames persisted and not yet broadcast, and the listeners. */
  datatype Feed = Feed(lanes: Lanes, pending: seq<Frame>, subs: seq<Sub>)

  datatype Event =
    | Intakes(frame: Frame)
    | Delivers(i: nat)
    | Subscribes(game: Bytes, after: nat, buf: nat)
    | Drains(i: nat)
    | Cancels(i: nat)
    | Prunes(gcid: Bytes)

  function Next(w: Feed, e: Event): Feed {
    match e
    case Intakes(f) =>
      if Seen(w.lanes, f) then w
      else Feed(Persist(w.lanes, f), if f.financial then w.pending else w.pending + [Numbered(w.lanes, f)], w.subs)
    case Delivers(i) =>
      if i >= |w.pending| then w
      else Feed(w.lanes, w.pending[..i] + w.pending[i + 1..], Broadcast(w.subs, w.pending[i]))
    case Subscribes(game, after, buf) =>
      w.(subs := w.subs + [Joined(game, after, buf, Backlog(FramesOf(w.lanes, game), after))])
    case Drains(i) =>
      if i >= |w.subs| || w.subs[i].queue == [] then w
      else w.(subs := w.subs[i := w.subs[i].(queue := w.subs[i].queue[1..])])
    case Cancels(i) =>
      if i >= |w.subs| then w else w.(subs := w.subs[i := w.subs[i].(open := false)])
    case Prunes(gcid) => w.(lanes := Inbox.Prune(w.lanes, gcid))
  }

  function Run(w: Feed, events: seq<Event>): Feed
    decreases |events|
  {
    if events == [] then w else Run(Next(w, events[0]), events[1..])
  }

  predicate WellFormed(e: Event) {
    e.Intakes? ==> e.frame.game != [] && e.frame.gcid != [] && e.frame.text != []
  }

  predicate AllWellFormed(events: seq<Event>) { forall i :: 0 <= i < |events| ==> WellFormed(events[i]) }

  const EMPTY: Feed := Feed(map[], [], [])

  // ---- Strictly rising, whatever the order ----

  predicate LastIsHanded(s: Sub) { s.last == if s.handed == [] then s.after else Last(s.handed) }

  predicate InOrder(s: Sub) {
    RisingFrames(s.handed) && LastIsHanded(s) && forall i :: 0 <= i < |s.handed| ==> s.after < s.handed[i].number
  }

  predicate AllInOrder(subs: seq<Sub>) { forall i :: 0 <= i < |subs| ==> InOrder(subs[i]) }

  lemma {:induction false} BacklogIsPart(frames: seq<Frame>, after: nat)
    ensures forall f :: f in Backlog(frames, after) <==> f in frames && f.number > after && !f.financial
  {
    if frames != [] {
      BacklogIsPart(frames[1..], after);
      assert forall f :: f in frames <==> f == frames[0] || f in frames[1..];
    }
  }

  lemma {:induction false} BacklogRises(frames: seq<Frame>, after: nat)
    requires RisingFrames(frames)
    ensures RisingFrames(Backlog(frames, after))
  {
    if frames != [] {
      var rest := frames[1..];
      assert forall i :: 0 <= i < |rest| ==> rest[i] == frames[i + 1];
      BacklogRises(rest, after);
      BacklogIsPart(rest, after);
      var out := Backlog(rest, after);
      forall i | 0 <= i < |out| ensures frames[0].number < out[i].number {
        assert out[i] in rest;
      }
    }
  }

  lemma {:induction false} BacklogAppends(frames: seq<Frame>, f: Frame, after: nat)
    ensures Backlog(frames + [f], after) ==
      Backlog(frames, after) + (if f.number > after && !f.financial then [f] else [])
  {
    if frames == [] {
      assert frames + [f] == [f];
      assert [f][1..] == [];
    } else {
      assert (frames + [f])[1..] == frames[1..] + [f];
      BacklogAppends(frames[1..], f, after);
    }
  }

  lemma JoinedInOrder(game: Bytes, after: nat, buf: nat, frames: seq<Frame>)
    requires RisingFrames(frames)
    ensures InOrder(Joined(game, after, buf, Backlog(frames, after)))
  {
    BacklogRises(frames, after);
    BacklogIsPart(frames, after);
    var b := Backlog(frames, after);
    forall i | 0 <= i < |b| ensures after < b[i].number {
      assert b[i] in b;
    }
  }

  lemma NextInOrder(w: Feed, e: Event)
    requires Ordered(w.lanes) && AllInOrder(w.subs) && WellFormed(e)
    ensures Ordered(Next(w, e).lanes) && AllInOrder(Next(w, e).subs)
  {
    hide Backlog, Joined, Seen, Fold;
    match e
    case Intakes(f) =>
      PersistIsFold(w.lanes, f);
      FoldOrders(w.lanes, Line(Numbered(w.lanes, f), false));
    case Subscribes(game, after, buf) =>
      assert game in w.lanes ==> OrderedLane(game, w.lanes[game]);
      JoinedInOrder(game, after, buf, FramesOf(w.lanes, game));
    case Prunes(gcid) => PruneOrders(w.lanes, gcid);
    case _ =>
  }

  /** In every run, with intakes persisting and broadcasting in any interleaving
      and groups pruned at any time, what each subscriber is handed rises strictly
      from its cursor: nothing twice and nothing out of order. */
  lemma {:induction false} HandedRises(w: Feed, events: seq<Event>)
    requires Ordered(w.lanes) && AllInOrder(w.subs) && AllWellFormed(events)
    ensures AllInOrder(Run(w, events).subs)
    decreases |events|
  {
    hide Ordered, AllInOrder, Next;
    if events != [] {
      assert WellFormed(events[0]);
      NextInOrder(w, events[0]);
      HandedRises(Next(w, events[0]), events[1..]);
    }
  }

  // ---- Nothing skipped, when no broadcast passes over a frame still owed ----

  function Wanted(w: Feed, s: Sub): seq<Frame> { Backlog(FramesOf(w.lanes, s.game), s.after) }

  /** The frames of a game past a number that wait for their broadcast, in the order
      they were persisted. */
  function Owed(pending: seq<Frame>, game: Bytes, last: nat): seq<Frame> {
    if pending == [] then []
    else
      (if pending[0].game == game && pending[0].number > last then [pending[0]] else []) +
        Owed(pending[1..], game, last)
  }

  /** What was handed and what is owed are everything wanted; a closed subscriber
      keeps a first part of it. */
  predicate UpToDate(w: Feed, s: Sub) {
    if s.open then s.handed + Owed(w.pending, s.game, s.last) == Wanted(w, s) else s.handed <= Wanted(w, s)
  }

  /** A frame waiting for its broadcast is one games are given, and is in the inbox. */
  predicate Waits(w: Feed, f: Frame) { f in FramesOf(w.lanes, f.game) && !f.financial }

  /** Frames of one game wait in the order of their numbers. */
  predicate WaitInOrder(pending: seq<Frame>) {
    forall i, j :: 0 <= i < j < |pending| && pending[i].game == pending[j].game ==>
      pending[i].number < pending[j].number
  }

  predicate Turns(w: Feed) {
    && Ordered(w.lanes) && AllInOrder(w.subs) && WaitInOrder(w.pending)
    && (forall f :: f in w.pending ==> Waits(w, f))
    && forall k :: 0 <= k < |w.subs| ==> UpToDate(w, w.subs[k])
  }

  /** This frame would reach a subscriber that an older waiting frame of its game has
      not reached yet. */
  predicate Passes(w: Feed, i: nat, k: nat)
    requires i < |w.pending| && k < |w.subs|
  {
    var s := w.subs[k];
    && s.open && |s.queue| < s.cap && s.game == w.pending[i].game
    && exists j :: 0 <= j < i && w.pending[j].game == s.game && w.pending[j].number > s.last
  }

  predicate Clear(w: Feed, e: Event) {
    e.Delivers? && e.i < |w.pending| ==> forall k :: 0 <= k < |w.subs| ==> !Passes(w, e.i, k)
  }

  lemma {:induction false} OwedIs(pending: seq<Frame>, game: Bytes, last: nat)
    ensures forall f :: f in Owed(pending, game, last) <==> f in pending && f.game == game && f.number > last
  {
    if pending != [] {
      OwedIs(pending[1..], game, last);
      assert forall f :: f in pending <==> f == pending[0] || f in pending[1..];
    }
  }

  lemma {:induction false} OwedSplits(a: seq<Frame>, b: seq<Frame>, game: Bytes, last: nat)
    ensures Owed(a + b, game, last) == Owed(a, game, last) + Owed(b, game, last)
  {
    if a == [] {
      assert a + b == b;
    } else {
      var first := if a[0].game == game && a[0].number > last then [a[0]] else [];
      assert (a + b)[1..] == a[1..] + b;
      OwedSplits(a[1..], b, game, last);
      assert first + (Owed(a[1..], game, last) + Owed(b, game, last)) ==
        first + Owed(a[1..], game, last) + Owed(b, game, last);
    }
  }

  lemma OwedOne(f: Frame, game: Bytes, last: nat)
    ensures Owed([f], game, last) == if f.game == game && f.number > last then [f] else []
  {
    assert [f][1..] == [];
  }

  lemma {:induction false} OwedNone(pending: seq<Frame>, game: Bytes, last: nat)
    requires forall f :: f in pending ==> f.game != game || f.number <= last
    ensures Owed(pending, game, last) == []
  {
    if pending != [] {
      OwedNone(pending[1..], game, last);
    }
  }

  lemma {:induction false} OwedPast(pending: seq<Frame>, game: Bytes, last: nat, more: nat)
    requires last <= more && forall f :: f in pending && f.game == game && f.number > last ==> f.number > more
    ensures Owed(pending, game, more) == Owed(pending, game, last)
  {
    if pending != [] {
      assert pending[0] in pending;
      OwedPast(pending[1..], game, last, more);
    }
  }

  lemma SameWanted(w: Feed, v: Feed, s: Sub, t: Sub)
    requires w.lanes == v.lanes && s.game == t.game && s.after == t.after
    ensures Wanted(v, t) == Wanted(w, s)
  {
  }

  lemma SameWaits(w: Feed, v: Feed, f: Frame)
    requires w.lanes == v.lanes
    ensures Waits(v, f) <==> Waits(w, f)
  {
  }

  lemma InOrderAt(subs: seq<Sub>, k: nat)
    requires AllInOrder(subs) && k < |subs|
    ensures InOrder(subs[k])
  {
  }

  // ---- Each step ----

  /** A number past everything issued is past what a subscriber was handed, and past
      its last number just when it is past its cursor. */
  lemma CursorBelow(w: Feed, s: Sub, n: Frame)
    requires Ordered(w.lanes) && InOrder(s) && s.handed <= Wanted(w, s)
    requires n.number == NextOf(w.lanes, s.game) + 1
    ensures n.number > s.last <==> n.number > s.after
  {
    if s.handed != [] {
      var last := s.handed[|s.handed| - 1];
      var frames := FramesOf(w.lanes, s.game);
      assert s.game in w.lanes ==> OrderedLane(s.game, w.lanes[s.game]);
      BacklogIsPart(frames, s.after);
      assert last == Wanted(w, s)[|s.handed| - 1];
      assert last in frames;
      assert Fits(last, s.game, w.lanes[s.game].next);
    }
  }

  lemma NewestWaits(w: Feed, f: Frame)
    requires Ordered(w.lanes) && WaitInOrder(w.pending) && forall x :: x in w.pending ==> Waits(w, x)
    requires WellFormed(Intakes(f)) && !Seen(w.lanes, f)
    ensures
      var v := Next(w, Intakes(f));
      WaitInOrder(v.pending) && forall x :: x in v.pending ==> Waits(v, x)
  {
    hide Ordered, Seen;
    var v, n := Next(w, Intakes(f)), Numbered(w.lanes, f);
    assert n in FramesOf(v.lanes, f.game);
    forall x | x in w.pending ensures Waits(v, x) && (x.game == f.game ==> x.number < n.number) {
      assert Waits(w, x);
      InboxNumber(w.lanes, x);
    }
    forall i, j | 0 <= i < j < |v.pending| && v.pending[i].game == v.pending[j].game
      ensures v.pending[i].number < v.pending[j].number
    {
      assert i < |w.pending| ==> v.pending[i] in w.pending;
    }
  }

  lemma InboxNumber(m: Lanes, x: Frame)
    requires Ordered(m) && x in FramesOf(m, x.game)
    ensures x.number <= NextOf(m, x.game)
  {
    assert OrderedLane(x.game, m[x.game]);
    assert Fits(x, x.game, m[x.game].next);
  }

  lemma IntakeTurns(w: Feed, f: Frame)
    requires Turns(w) && WellFormed(Intakes(f))
    ensures Turns(Next(w, Intakes(f)))
  {
    hide Backlog, Ordered, AllInOrder, Seen, WaitInOrder, Waits, Owed;
    NextInOrder(w, Intakes(f));
    if !Seen(w.lanes, f) {
      NewestWaits(w, f);
      var v, n := Next(w, Intakes(f)), Numbered(w.lanes, f);
      forall k | 0 <= k < |v.subs| ensures UpToDate(v, v.subs[k]) {
        var s := v.subs[k];
        assert UpToDate(w, s);
        InOrderAt(w.subs, k);
        OwedSplits(w.pending, [n], s.game, s.last);
        OwedOne(n, s.game, s.last);
        if s.game == f.game {
          BacklogAppends(FramesOf(w.lanes, f.game), n, s.after);
          CursorBelow(w, s, n);
        }
        assert s.open ==> s.handed + (Owed(w.pending, s.game, s.last) + [n]) == Wanted(w, s) + [n];
        assert s.open ==> Owed(w.pending, s.game, s.last) + [] == Owed(w.pending, s.game, s.last);
      }
    }
  }

  /** A broadcast leaves an open subscriber that it does not pass over owed the rest. */
  lemma OwedAfter(pending: seq<Frame>, i: nat, game: Bytes, last: nat)
    requires WaitInOrder(pending) && i < |pending|
    requires forall j :: 0 <= j < i && pending[j].game == game ==> pending[j].number <= last
    ensures
      var f := pending[i];
      var rest := pending[..i] + pending[i + 1..];
      if f.game == game && f.number > last then Owed(pending, game, last) == [f] + Owed(rest, game, f.number)
      else Owed(pending, game, last) == Owed(rest, game, last)
  {
    hide Owed;
    var f, a, b := pending[i], pending[..i], pending[i + 1..];
    assert pending == a + ([f] + b);
    OwedSplits(a, [f] + b, game, last);
    OwedSplits([f], b, game, last);
    OwedOne(f, game, last);
    OwedSplits(a, b, game, last);
    OwedNone(a, game, last);
    if f.game == game && f.number > last {
      OwedSplits(a, b, game, f.number);
      OwedNone(a, game, f.number);
      assert forall j :: 0 <= j < |b| ==> b[j] == pending[i + 1 + j];
      OwedPast(b, game, last, f.number);
    }
  }

  /** A frame of another game is owed to nobody here. */
  lemma OwedOther(pending: seq<Frame>, i: nat, game: Bytes, last: nat)
    requires i < |pending| && pending[i].game != game
    ensures Owed(pending, game, last) == Owed(pending[..i] + pending[i + 1..], game, last)
  {
    hide Owed;
    var f, a, b := pending[i], pending[..i], pending[i + 1..];
    assert pending == a + ([f] + b);
    OwedSplits(a, [f] + b, game, last);
    OwedSplits([f], b, game, last);
    OwedOne(f, game, last);
    OwedSplits(a, b, game, last);
  }

  lemma OldIsNotOwed(pending: seq<Frame>, i: nat, game: Bytes, last: nat)
    requires i < |pending| && pending[i].number <= last
    ensures Owed(pending, game, last) == Owed(pending[..i] + pending[i + 1..], game, last)
  {
    hide Owed;
    var f, a, b := pending[i], pending[..i], pending[i + 1..];
    assert pending == a + ([f] + b);
    OwedSplits(a, [f] + b, game, last);
    OwedSplits([f], b, game, last);
    OwedOne(f, game, last);
    OwedSplits(a, b, game, last);
  }

  lemma OfferUpToDate(w: Feed, i: nat, k: nat)
    requires Turns(w) && i < |w.pending| && k < |w.subs| && !Passes(w, i, k)
    ensures UpToDate(Next(w, Delivers(i)), Offer(w.subs[k], w.pending[i]))
  {
    hide Ordered, AllInOrder, Owed, Backlog, WaitInOrder, Waits, Wanted;
    var v, s, f := Next(w, Delivers(i)), w.subs[k], w.pending[i];
    assert UpToDate(w, s);
    SameWanted(w, v, s, Offer(s, f));
    SameWanted(w, v, s, s);
    if s.open && s.game != f.game {
      OwedOther(w.pending, i, s.game, s.last);
    } else if s.open && f.number <= s.last {
      OldIsNotOwed(w.pending, i, s.game, s.last);
    } else if s.open && |s.queue| < s.cap {
      OwedAfter(w.pending, i, s.game, s.last);
      assert s.handed + ([f] + Owed(v.pending, s.game, f.number)) == s.handed + [f] + Owed(v.pending, s.game, f.number);
    }
  }

  lemma DeliverTurns(w: Feed, i: nat)
    requires Turns(w) && i < |w.pending| && Clear(w, Delivers(i))
    ensures Turns(Next(w, Delivers(i)))
  {
    hide Ordered, AllInOrder, Passes, UpToDate, Offer, WellFormed;
    var v := Next(w, Delivers(i));
    NextInOrder(w, Delivers(i)) by { assert WellFormed(Delivers(i)) by { NotAnIntake(Delivers(i)); } }
    assert forall f :: f in v.pending ==> f in w.pending;
    assert WaitInOrder(v.pending) by {
      assert forall j :: 0 <= j < |v.pending| ==> v.pending[j] == w.pending[if j < i then j else j + 1];
    }
    forall k | 0 <= k < |v.subs| ensures UpToDate(v, v.subs[k]) {
      OfferUpToDate(w, i, k);
    }
  }

  lemma NotAnIntake(e: Event)
    requires !e.Intakes?
    ensures WellFormed(e)
  {
  }

  /** A new subscriber is owed nothing: every waiting frame past its cursor is in its
      backlog. */
  lemma JoinedUpToDate(w: Feed, game: Bytes, after: nat, buf: nat)
    requires Turns(w)
    ensures
      var frames := FramesOf(w.lanes, game);
      var s := Joined(game, after, buf, Backlog(frames, after));
      s.handed + Owed(w.pending, game, s.last) == Backlog(frames, after)
  {
    hide Backlog, Owed, AllInOrder, UpToDate;
    var frames := FramesOf(w.lanes, game);
    var b := Backlog(frames, after);
    var s := Joined(game, after, buf, b);
    BacklogIsPart(frames, after);
    assert RisingFrames(b) by {
      assert game in w.lanes ==> OrderedLane(game, w.lanes[game]);
      BacklogRises(frames, after);
    }
    forall f | f in w.pending ensures f.game != game || f.number <= s.last {
      assert Waits(w, f);
      if f.game == game && f.number > after {
        assert f in b;
        LastIsMost(b, f);
      }
    }
    OwedNone(w.pending, game, s.last);
    assert b + [] == b;
  }

  lemma LastIsMost(frames: seq<Frame>, f: Frame)
    requires RisingFrames(frames) && f in frames
    ensures f.number <= Last(frames)
  {
  }

  lemma OtherTurns(w: Feed, e: Event)
    requires Turns(w) && (e.Subscribes? || e.Drains? || e.Cancels?)
    ensures Turns(Next(w, e))
  {
    hide Backlog, Ordered, AllInOrder, Owed, WaitInOrder, Waits;
    NextInOrder(w, e);
    var v := Next(w, e);
    forall k | 0 <= k < |v.subs| ensures UpToDate(v, v.subs[k]) {
      if k < |w.subs| {
        assert UpToDate(w, w.subs[k]);
      } else {
        JoinedUpToDate(w, e.game, e.after, e.buf);
      }
    }
    forall f | f in v.pending ensures Waits(v, f) {
      SameWaits(w, v, f);
    }
  }

  lemma NextTurns(w: Feed, e: Event)
    requires Turns(w) && WellFormed(e) && !e.Prunes? && Clear(w, e)
    ensures Turns(Next(w, e))
  {
    hide Turns, Seen, Passes;
    match e
    case Intakes(f) => IntakeTurns(w, f);
    case Delivers(i) =>
      if i < |w.pending| {
        DeliverTurns(w, i);
      }
    case _ => OtherTurns(w, e);
  }

  // ---- Exactly when nothing is skipped ----

  predicate AllPrefixes(w: Feed) { forall k :: 0 <= k < |w.subs| ==> w.subs[k].handed <= Wanted(w, w.subs[k]) }

  /** A frame wanted, never handed, and no longer past the last number: lost to this
      subscriber for good. */
  predicate Skipped(w: Feed, s: Sub) {
    exists f :: f in Wanted(w, s) && f !in s.handed && f.number <= s.last
  }

  /** Of an open subscriber with room: a broadcast makes it skip a frame just when an
      older waiting frame of its game has not reached it. */
  lemma PassingSkips(w: Feed, i: nat, k: nat)
    requires Turns(w) && i < |w.pending| && k < |w.subs| && w.subs[k].open && |w.subs[k].queue| < w.subs[k].cap
    ensures
      var v := Next(w, Delivers(i));
      && (Skipped(v, v.subs[k]) <==> Passes(w, i, k))
      && (v.subs[k].handed <= Wanted(v, v.subs[k]) <==> !Passes(w, i, k))
  {
    hide Ordered, AllInOrder, UpToDate, WaitInOrder, Wanted, Turns, Offer;
    var v, s, f := Next(w, Delivers(i)), w.subs[k], w.pending[i];
    assert InOrder(s) by { TurnsOf(w, k); }
    var t := Offer(s, f);
    assert v.subs[k] == t;
    WantedRises(w, s);
    SameWanted(w, v, s, t) by { OfferIs(s, f); }
    OfferIs(s, f);
    if Passes(w, i, k) {
      var j :| 0 <= j < i && w.pending[j].game == s.game && w.pending[j].number > s.last;
      var x := w.pending[j];
      WaitsIsWanted(w, s, j, i);
      assert t.handed == s.handed + [f] && t.last == f.number;
      NotHanded(s, x);
      assert x in Wanted(v, t) && x !in t.handed && x.number <= t.last;
      JumpIsNoPrefix(t.handed, f, x, Wanted(v, t));
    } else {
      OfferUpToDate(w, i, k);
      NothingSkipped(v, t);
    }
  }

  /** Frames that end past one they do not have are no first part of frames in order. */
  lemma JumpIsNoPrefix(handed: seq<Frame>, f: Frame, x: Frame, wanted: seq<Frame>)
    requires RisingFrames(wanted) && x in wanted && x !in handed && x.number < f.number
    requires handed != [] && handed[|handed| - 1] == f
    ensures !(handed <= wanted)
  {
    var a :| 0 <= a < |wanted| && wanted[a] == x;
    if a < |handed| {
      assert handed[a] != wanted[a];
    } else if |handed| <= |wanted| {
      assert |handed| - 1 < a ==> wanted[|handed| - 1].number < wanted[a].number;
    }
  }

  lemma TurnsOf(w: Feed, k: nat)
    requires Turns(w) && k < |w.subs|
    ensures InOrder(w.subs[k]) && UpToDate(w, w.subs[k])
  {
  }

  lemma OfferIs(s: Sub, f: Frame)
    ensures Offer(s, f).game == s.game && Offer(s, f).after == s.after
    ensures s.open && |s.queue| < s.cap ==>
      && Offer(s, f).open
      && Offer(s, f).last == (if s.game == f.game && f.number > s.last then f.number else s.last)
      && Offer(s, f).handed == s.handed + (if s.game == f.game && f.number > s.last then [f] else [])
  {
  }

  lemma WantedRises(w: Feed, s: Sub)
    requires Turns(w)
    ensures RisingFrames(Wanted(w, s))
  {
    hide Backlog, AllInOrder, WaitInOrder, Waits, UpToDate;
    assert s.game in w.lanes ==> OrderedLane(s.game, w.lanes[s.game]);
    BacklogRises(FramesOf(w.lanes, s.game), s.after);
  }

  lemma WaitsIsWanted(w: Feed, s: Sub, j: nat, i: nat)
    requires Turns(w) && InOrder(s) && j < i < |w.pending| && w.pending[j].game == w.pending[i].game == s.game
    requires w.pending[j].number > s.last
    ensures w.pending[j] in Wanted(w, s) && w.pending[j].number < w.pending[i].number
  {
    hide Backlog, Ordered, AllInOrder, UpToDate;
    assert Waits(w, w.pending[j]);
    BacklogIsPart(FramesOf(w.lanes, s.game), s.after);
    assert s.handed != [] ==> s.after < s.handed[|s.handed| - 1].number;
  }

  lemma NotHanded(s: Sub, x: Frame)
    requires InOrder(s) && x.number > s.last
    ensures x !in s.handed
  {
    if x in s.handed {
      LastIsMost(s.handed, x);
    }
  }

  lemma NothingSkipped(v: Feed, t: Sub)
    requires UpToDate(v, t) && t.open
    ensures !Skipped(v, t) && t.handed <= Wanted(v, t)
  {
    hide Owed, Wanted;
    OwedIs(v.pending, t.game, t.last);
  }

  lemma TurnsIsPrefixes(w: Feed)
    requires Turns(w)
    ensures AllPrefixes(w)
  {
    hide Owed, Wanted, Ordered, AllInOrder, WaitInOrder, Waits;
    forall k | 0 <= k < |w.subs| ensures w.subs[k].handed <= Wanted(w, w.subs[k]) {
      assert UpToDate(w, w.subs[k]);
    }
  }

  /** In step, a step that is not clear breaks somebody's prefix. */
  lemma ClearIsExact(w: Feed, e: Event)
    requires Turns(w) && WellFormed(e) && !e.Prunes?
    ensures Clear(w, e) ==> Turns(Next(w, e))
    ensures Clear(w, e) <==> AllPrefixes(Next(w, e))
  {
    hide Turns, Passes, Next, Wanted, Skipped;
    if Clear(w, e) {
      NextTurns(w, e);
      TurnsIsPrefixes(Next(w, e));
    } else {
      var k :| 0 <= k < |w.subs| && Passes(w, e.i, k);
      assert w.subs[k].open && |w.subs[k].queue| < w.subs[k].cap by { PassesOpen(w, e.i, k); }
      PassingSkips(w, e.i, k);
      assert |Next(w, e).subs| == |w.subs| by { SameSubs(w, e.i); }
    }
  }

  lemma PassesOpen(w: Feed, i: nat, k: nat)
    requires i < |w.pending| && k < |w.subs| && Passes(w, i, k)
    ensures w.subs[k].open && |w.subs[k].queue| < w.subs[k].cap
  {
  }

  lemma SameSubs(w: Feed, i: nat)
    ensures |Next(w, Delivers(i)).subs| == |w.subs|
  {
  }

  /** Frames are complete and nothing is pruned. */
  predicate Unpruned(events: seq<Event>) {
    forall i :: 0 <= i < |events| ==> WellFormed(events[i]) && !events[i].Prunes?
  }

  /** At no broadcast of the run is an older frame still owed to somebody it reaches. */
  predicate AlwaysClear(w: Feed, events: seq<Event>)
    decreases |events|
  {
    events == [] || (Clear(w, events[0]) && AlwaysClear(Next(w, events[0]), events[1..]))
  }

  /** All along the run, every subscriber has a first part of what it wants. */
  predicate AlwaysPrefixes(w: Feed, events: seq<Event>)
    decreases |events|
  {
    AllPrefixes(w) && (events == [] || AlwaysPrefixes(Next(w, events[0]), events[1..]))
  }

  lemma {:induction false} ClearRuns(w: Feed, events: seq<Event>)
    requires Turns(w) && Unpruned(events)
    ensures AlwaysClear(w, events) <==> AlwaysPrefixes(w, events)
    ensures AlwaysClear(w, events) ==> Turns(Run(w, events))
    decreases |events|
  {
    hide Turns, Next, Clear, AllPrefixes, WellFormed;
    TurnsIsPrefixes(w);
    if events != [] {
      ClearIsExact(w, events[0]);
      if Clear(w, events[0]) {
        ClearRuns(Next(w, events[0]), events[1..]);
      } else {
        assert !AllPrefixes(Next(w, events[0]));
      }
    }
  }

  /** Replay joins live delivery: while nothing is pruned, every subscriber has a
      prefix of its game's frames past its cursor all along a run exactly when no
      broadcast of the run reaches somebody whom an older frame of the game has not
      reached; and then an open one has all of them but those still to be broadcast. */
  lemma HandedIsAPrefix(events: seq<Event>)
    requires Unpruned(events)
    ensures AlwaysClear(EMPTY, events) <==> AlwaysPrefixes(EMPTY, events)
    ensures AlwaysClear(EMPTY, events) ==>
      var w := Run(EMPTY, events);
      forall k :: 0 <= k < |w.subs| ==>
        var s := w.subs[k];
        && s.handed <= Wanted(w, s)
        && (s.open ==> s.handed + Owed(w.pending, s.game, s.last) == Wanted(w, s))
  {
    hide Run, AlwaysClear, AlwaysPrefixes, Owed, Wanted;
    ClearRuns(EMPTY, events);
    if AlwaysClear(EMPTY, events) {
      var w := Run(EMPTY, events);
      forall k | 0 <= k < |w.subs| ensures UpToDate(w, w.subs[k]) && w.subs[k].handed <= Wanted(w, w.subs[k]) {
        TurnsOf(w, k);
      }
    }
  }

  /** Each broadcast is of the oldest waiting frame of its game. */
  predicate InTurn(w: Feed, events: seq<Event>)
    decreases |events|
  {
    events == [] || (
      && (events[0].Delivers? && events[0].i < |w.pending| ==>
            forall j :: 0 <= j < events[0].i ==> w.pending[j].game != w.pending[events[0].i].game)
      && InTurn(Next(w, events[0]), events[1..]))
  }

  /** Broadcasting each game's frames in the order they were persisted is enough,
      however intakes of different games, or of one game, overlap. */
  lemma {:induction false} InTurnIsClear(w: Feed, events: seq<Event>)
    requires InTurn(w, events)
    ensures AlwaysClear(w, events)
    decreases |events|
  {
    hide Next;
    if events != [] {
      InTurnIsClear(Next(w, events[0]), events[1..]);
    }
  }

  /** Without turns a frame can be lost to a subscriber for good: two intakes that
      persist in one order and broadcast in the other leave the first one skipped. */
  lemma OutOfTurnSkips(s: Sub, first: Frame, second: Frame)
    requires s.open && first.game == second.game == s.game && |s.queue| < s.cap
    requires s.last < first.number < second.number
    ensures Offer(Offer(s, second), first).handed == s.handed + [second]
    ensures Offer(Offer(s, first), second).handed ==
      s.handed + if |s.queue| + 1 < s.cap then [first, second] else [first]
  {
    assert s.handed + [first] + [second] == s.handed + [first, second];
  }

  // ---- The hub ----

  method CollectBacklog(frames: seq<Frame>, after: nat) returns (backlog: seq<Frame>)
    ensures backlog == Backlog(frames, after)
  {
    hide Backlog;
    EmptyBacklog(after);
    backlog := [];
    for i := 0 to |frames|
      invariant backlog == Backlog(frames[..i], after)
    {
      assert frames[..i + 1] == frames[..i] + [frames[i]];
      BacklogAppends(frames[..i], frames[i], after);
      if frames[i].number > after && !frames[i].financial {
        backlog := backlog + [frames[i]];
      }
    }
    assert frames[..|frames|] == frames;
  }

  lemma EmptyBacklog(after: nat)
    ensures Backlog([], after) == []
  {
  }

  /** Queues a backlog on a channel made with room for all of it. */
  method Queued(game: Bytes, after: nat, buf: nat, backlog: seq<Frame>) returns (s: Sub)
    requires buf > 0
    ensures s == Joined(game, after, buf, backlog)
  {
    s := Sub(game, buf + |backlog|, [], after, true, after, []);
    for i := 0 to |backlog|
      invariant s == Sub(game, buf + |backlog|, backlog[..i],
        if i == 0 then after else backlog[i - 1].number, true, after, backlog[..i])
    {
      assert |s.queue| < s.cap;
      s := s.(queue := s.queue + [backlog[i]], last := backlog[i].number, handed := s.handed + [backlog[i]]);
    }
    assert backlog[..|backlog|] == backlog;
  }

  /** The listeners' registry, their channels filled and closed in place. */
  class Hub {
    var subs: seq<Sub>

    constructor ()
      ensures subs == []
    {
      subs := [];
    }

    /** Registers a listener with everything past its cursor already queued. The
        channel is made large enough, so queuing never waits. When the inbox cannot
        be read, the channel comes back closed and nobody is registered. */
    method SubscribeFrom(frames: Option<seq<Frame>>, game: Bytes, after: nat, buf: nat) returns (s: Sub)
      modifies this
      ensures frames.None? ==> subs == old(subs) && !s.open && s.queue == []
      ensures frames.Some? ==>
        s == Joined(game, after, buf, Backlog(frames.value, after)) && subs == old(subs) + [s]
      ensures frames.Some? ==>
        && s.open && s.game == game && s.after == after && s.queue == s.handed == Backlog(frames.value, after)
        && s.cap == |s.queue| + (if buf == 0 then 64 else buf)
    {
      if frames.None? {
        return Sub(game, 0, [], after, false, after, []);
      }
      var backlog := CollectBacklog(frames.value, after);
      s := Queued(game, after, if buf == 0 then DEFAULT_BUFFER else buf, backlog);
      subs := subs + [s];
    }

    /** Delivers a frame to every listener of its game; one that is not draining is
        closed, never made to lose a frame. */
    method BroadcastFrame(f: Frame)
      modifies this
      ensures subs == Broadcast(old(subs), f)
    {
      for i := 0 to |subs|
        invariant |subs| == |old(subs)|
        invariant forall j :: 0 <= j < i ==> subs[j] == Offer(old(subs)[j], f)
        invariant forall j :: i <= j < |subs| ==> subs[j] == old(subs)[j]
      {
        var s := subs[i];
        if !s.open || s.game != f.game || f.number <= s.last {
          continue;
        }
        if |s.queue| < s.cap {
          subs := subs[i := s.(queue := s.queue + [f], last := f.number, handed := s.handed + [f])];
        } else {
          subs := subs[i := s.(open := false)];
        }
      }
    }
  }
}
