/** The caps over whole runs: with caps that stay as they are and a clock that
    does not go back, no reachable log passes a game's day, a table's total or
    the ceiling on unanswered requests. */
module Caps {
  import opened ByteStrings
  import opened Cashier
  import opened Payments

  /** Times never go back. */
  predicate Timely(events: seq<Event>, clock: int)
    decreases |events|
  {
    events == [] ||
    match TimeOf(events[0])
    case None => Timely(events[1..], clock)
    case Some(t) => clock <= t && Timely(events[1..], t)
  }

  function LastTime(events: seq<Event>, clock: int): int
    decreases |events|
  {
    if events == [] then clock else LastTime(events[1..], TimeOf(events[0]).GetOr(clock))
  }

  datatype Cap = Cap(game: Bytes, day: int, table: int)

  predicate ValidCap(c: Cap) { 0 < c.day <= MAX_INT64 && 0 < c.table <= MAX_INT64 }

  /** Every request of the game is judged under these caps. */
  predicate Fixed(events: seq<Event>, c: Cap) {
    forall i :: 0 <= i < |events| ==> FixedAt(events[i], c)
  }

  predicate FixedAt(e: Event, c: Cap) {
    e.Requests? && c.game in e.settings.policies ==>
      e.settings.policies[c.game].dayCap == c.day && e.settings.policies[c.game].tableCap == c.table
  }

  ghost predicate Capped(log: Log, c: Cap, clock: int) {
    && AllPositive(log)
    && Sum(log, DayCounted(c.game, clock, None)) <= c.day
    && (forall t :: t != [] ==> Sum(log, TableCounted(c.game, t, None)) <= c.table)
    && CountOutstanding(log, c.game) <= MAX_OUTSTANDING
  }

  // ---- Sums ----

  lemma {:induction false} SumShrinks(log: Log, out: Log, before: Entry -> bool, after: Entry -> bool)
    requires AllPositive(log) && |out| == |log|
    requires forall i :: 0 <= i < |log| ==> out[i].atoms == log[i].atoms && (after(out[i]) ==> before(log[i]))
    ensures 0 <= Sum(out, after) <= Sum(log, before)
  {
    if log != [] {
      SumShrinks(log[1..], out[1..], before, after);
    }
  }

  lemma {:induction false} SumAgrees(log: Log, some: Entry -> bool, counted: Entry -> bool)
    requires forall e :: e in log ==> some(e) == counted(e)
    ensures Sum(log, some) == Sum(log, counted)
  {
    if log != [] {
      assert log[0] in log;
      SumAgrees(log[1..], some, counted);
    }
  }

  lemma {:induction false} OutstandingShrinks(log: Log, out: Log, game: Bytes)
    requires |out| == |log|
    requires forall i :: 0 <= i < |log| ==> out[i].game == log[i].game && (Outstanding(out[i]) ==> Outstanding(log[i]))
    ensures CountOutstanding(out, game) <= CountOutstanding(log, game)
  {
    if log != [] {
      OutstandingShrinks(log[1..], out[1..], game);
    }
  }

  lemma {:induction false} SumAppends(log: Log, e: Entry, counted: Entry -> bool)
    ensures Sum(log + [e], counted) == Sum(log, counted) + (if counted(e) then e.atoms else 0)
  {
    if log == [] {
      assert log + [e] == [e];
    } else {
      SumAppends(log[1..], e, counted);
      assert (log + [e])[1..] == log[1..] + [e];
    }
  }

  lemma {:induction false} OutstandingAppends(log: Log, e: Entry, game: Bytes)
    ensures CountOutstanding(log + [e], game) ==
      CountOutstanding(log, game) + (if e.game == game && Outstanding(e) then 1 else 0)
  {
    if log == [] {
      assert log + [e] == [e];
    } else {
      OutstandingAppends(log[1..], e, game);
      assert (log + [e])[1..] == log[1..] + [e];
    }
  }

  lemma {:induction false} DropShrinks(log: Log, n: nat, now: int, counted: Entry -> bool, game: Bytes)
    requires AllPositive(log)
    ensures AllPositive(Drop(log, n, now))
    ensures 0 <= Sum(Drop(log, n, now), counted) <= Sum(log, counted)
    ensures CountOutstanding(Drop(log, n, now), game) <= CountOutstanding(log, game)
  {
    if log != [] {
      if n > 0 && !Counts(log[0], now) {
        DropShrinks(log[1..], n - 1, now, counted, game);
      } else {
        DropShrinks(log[1..], n, now, counted, game);
        assert Drop(log, n, now)[1..] == Drop(log[1..], n, now);
      }
    }
  }

  /** A total under the greatest number is the sum itself. */
  lemma TotalBounds(log: Log, counted: Entry -> bool, cap: int, atoms: int)
    requires AllPositive(log) && 0 < cap <= MAX_INT64 && 0 < atoms && Within(cap, atoms, Total(log, counted))
    ensures Sum(log, counted) + atoms <= cap
  {
  }

  // ---- Each step ----

  /** Entries that only leave what is counted. */
  predicate Settles(was: Entry, now: Entry) {
    && now.game == was.game && now.table == was.table && now.atoms == was.atoms && now.id == was.id
    && (Outstanding(now) ==> Outstanding(was))
    && (now.state == Approved ==> (was.state == Approved && now.decidedAt == was.decidedAt) || Outstanding(was))
  }

  lemma PointwiseStaysCapped(log: Log, out: Log, c: Cap, clock: int, now: int)
    requires Capped(log, c, clock) && clock <= now && |out| == |log|
    requires forall i :: 0 <= i < |log| ==> Settles(log[i], out[i])
    ensures Capped(out, c, now)
  {
    SumShrinks(log, out, DayCounted(c.game, clock, None), DayCounted(c.game, now, None));
    OutstandingShrinks(log, out, c.game);
    forall t | t != [] ensures Sum(out, TableCounted(c.game, t, None)) <= c.table {
      SumShrinks(log, out, TableCounted(c.game, t, None), TableCounted(c.game, t, None));
    }
  }

  lemma AdmittedStaysCapped(log: Log, c: Cap, s: Settings, want: Entry, funded: bool, now: int)
    requires Capped(log, c, now) && ValidCap(c) && Admits(s, log, want, funded, now)
    requires c.game in s.policies ==> s.policies[c.game].dayCap == c.day && s.policies[c.game].tableCap == c.table
    ensures Capped(log + [Filed(want)], c, now)
  {
    hide Total;
    var e := Filed(want);
    OutstandingAppends(log, e, c.game);
    SumAppends(log, e, DayCounted(c.game, now, None));
    if want.game == c.game {
      TotalBounds(log, DayCounted(c.game, now, None), c.day, want.atoms);
    }
    forall t | t != [] ensures Sum(log + [e], TableCounted(c.game, t, None)) <= c.table {
      SumAppends(log, e, TableCounted(c.game, t, None));
      if want.game == c.game && want.table == t {
        TotalBounds(log, TableCounted(c.game, t, None), c.table, want.atoms);
      }
    }
  }

  lemma TrimStaysCapped(log: Log, c: Cap, now: int)
    requires Capped(log, c, now)
    ensures Capped(TrimLog(log, now), c, now)
  {
    if |log| > MAX_LOG {
      DropShrinks(log, |log| - MAX_LOG, now, DayCounted(c.game, now, None), c.game);
      forall t | t != [] ensures Sum(TrimLog(log, now), TableCounted(c.game, t, None)) <= c.table {
        DropShrinks(log, |log| - MAX_LOG, now, TableCounted(c.game, t, None), c.game);
      }
    }
  }

  lemma ExpireStaysCapped(log: Log, c: Cap, clock: int, now: int)
    requires Capped(log, c, clock) && clock <= now
    ensures Capped(Expire(log, now), c, now)
  {
    PointwiseStaysCapped(log, Expire(log, now), c, clock, now);
  }

  lemma RewriteStaysCapped(w: World, e: Event, c: Cap, clock: int)
    requires Capped(w.log, c, clock) && ValidCap(c) && FixedAt(e, c) && Possible(w, e)
    requires Rewrites(w, e).Some? && TimeOf(e).Some? && clock <= TimeOf(e).value
    ensures Capped(Rewrites(w, e).value, c, TimeOf(e).value)
  {
    hide Capped, Admits, RequestCarried;
    var now := TimeOf(e).value;
    var out := Rewrites(w, e).value;
    if e.Requests? {
      var log := Expire(w.log, now);
      ExpireStaysCapped(w.log, c, clock, now);
      if Admits(e.settings, log, e.want, e.funded, now) {
        AdmittedStaysCapped(log, c, e.settings, e.want, e.funded, now);
      }
    } else {
      PointwiseStaysCapped(w.log, out, c, clock, now);
    }
  }

  lemma NextStaysCapped(w: World, e: Event, c: Cap, clock: int)
    requires Capped(w.log, c, clock) && ValidCap(c) && FixedAt(e, c) && Possible(w, e)
    requires TimeOf(e).Some? ==> clock <= TimeOf(e).value
    ensures Capped(Next(w, e).log, c, TimeOf(e).GetOr(clock))
  {
    hide Capped, Rewrites, TrimLog, Calls, Possible, FixedAt;
    RewritesHaveTimes(w, e);
    if TimeOf(e).Some? {
      var now := TimeOf(e).value;
      if Rewrites(w, e).Some? {
        RewriteStaysCapped(w, e, c, clock);
        TrimStaysCapped(Rewrites(w, e).value, c, now);
      }
      WaitingStaysCapped(w.log, c, clock, now);
    }
  }

  lemma RewritesHaveTimes(w: World, e: Event)
    ensures Rewrites(w, e).Some? ==> TimeOf(e).Some?
  {
    hide Admits, RequestCarried, Expire, Stands;
  }

  lemma WaitingStaysCapped(log: Log, c: Cap, clock: int, now: int)
    requires Capped(log, c, clock) && clock <= now
    ensures Capped(log, c, now)
  {
    PointwiseStaysCapped(log, log, c, clock, now);
  }

  lemma {:induction false} RunsStayCapped(w: World, events: seq<Event>, end: World, c: Cap, clock: int)
    requires Capped(w.log, c, clock) && ValidCap(c) && Fixed(events, c) && Timely(events, clock) &&
      Leads(w, events, end)
    ensures Capped(end.log, c, LastTime(events, clock))
    ensures LastTime(events, clock) >= clock
    decreases |events|
  {
    hide Capped, Next, Possible, FixedAt;
    if events != [] {
      NextStaysCapped(w, events[0], c, clock);
      RunsStayCapped(Next(w, events[0]), events[1..], end, c, TimeOf(events[0]).GetOr(clock));
    }
  }

  /** Awaiting an answer, or approved and being handed to the network. */
  predicate InFlight(e: Entry, game: Bytes) { e.game == game && (e.state == Pending || e.state == Publishing) }

  /** What a game has moved in the day before a time, or still may. */
  predicate OfTheDay(e: Entry, game: Bytes, now: int) {
    InFlight(e, game) || (e.game == game && e.state == Approved && now - e.decidedAt < 86_400)
  }

  /** What it has paid at a table, of any age, or still may. */
  predicate OfTheTable(e: Entry, game: Bytes, table: Bytes) {
    e.table == table && (InFlight(e, game) || (e.game == game && e.state == Approved))
  }

  lemma InFlightIs(e: Entry, game: Bytes)
    ensures InFlight(e, game) <==> e.game == game && Outstanding(e)
  {
  }

  lemma {:induction false} OutstandingAreInFlight(log: Log, game: Bytes)
    ensures CountOutstanding(log, game) == |set i | 0 <= i < |log| && InFlight(log[i], game)|
  {
    var all := set i | 0 <= i < |log| && InFlight(log[i], game);
    if log != [] {
      hide InFlight, CountOutstanding;
      var last := |log| - 1;
      var fewer := set i | 0 <= i < |log[..last]| && InFlight(log[..last][i], game);
      OutstandingAreInFlight(log[..last], game);
      OutstandingAppends(log[..last], log[last], game);
      InFlightIs(log[last], game);
      assert log[..last] + [log[last]] == log;
      assert all == if InFlight(log[last], game) then fewer + {last} else fewer;
    }
  }

  /** The caps hold over every run: in every reachable log and at every later time, what a
      game moved in the last day or still may is within its day's cap, what it has paid
      at a named table or still may is within the table cap, and at most eight of its
      requests are in flight; and the totals the code reckons are those. */
  lemma CapsHold(events: seq<Event>, end: World, c: Cap, clock: int, later: int, table: Bytes)
    requires ValidCap(c) && Fixed(events, c) && Timely(events, clock) && Leads(EMPTY, events, end)
    requires LastTime(events, clock) <= later && table != []
    ensures Sum(end.log, e => OfTheDay(e, c.game, later)) == DayTotal(end.log, c.game, later, None) <= c.day
    ensures Sum(end.log, e => OfTheTable(e, c.game, table)) == TableTotal(end.log, c.game, table, None) <= c.table
    ensures |set i | 0 <= i < |end.log| && InFlight(end.log[i], c.game)| == CountOutstanding(end.log, c.game) <= 8
  {
    hide Leads, Sum, CountOutstanding;
    assert Capped(EMPTY.log, c, clock) by { NothingIsCapped(c, clock); }
    RunsStayCapped(EMPTY, events, end, c, clock);
    WaitingStaysCapped(end.log, c, LastTime(events, clock), later);
    SumAgrees(end.log, e => OfTheDay(e, c.game, later), DayCounted(c.game, later, None));
    SumAgrees(end.log, e => OfTheTable(e, c.game, table), TableCounted(c.game, table, None));
    OutstandingAreInFlight(end.log, c.game);
  }

  lemma NothingIsCapped(c: Cap, clock: int)
    requires ValidCap(c)
    ensures Capped([], c, clock)
  {
  }

  // ---- What the trim forgets ----

  lemma {:induction false} NothingDropped(log: Log, now: int)
    ensures Drop(log, 0, now) == log
  {
    if log != [] {
      NothingDropped(log[1..], now);
    }
  }

  lemma {:induction false} NothingCounted(log: Log, counted: Entry -> bool)
    requires forall i :: 0 <= i < |log| ==> !counted(log[i])
    ensures Sum(log, counted) == 0
  {
    if log != [] {
      NothingCounted(log[1..], counted);
    }
  }

  /** The trim keeps every day's total and not every table's: an approved payment
      more than a day old, at the head of a log with five hundred other entries none
      of which counts at its table, leaves its table's total with it. */
  lemma TrimForgetsAnOldTable(paid: Entry, rest: Log, now: int)
    requires paid.state == Approved && paid.table != [] && 0 < paid.atoms <= MAX_INT64 && now - paid.decidedAt >= DAY
    requires |rest| == MAX_LOG
    requires forall i :: 0 <= i < |rest| ==> !AtTable(rest[i], paid.game, paid.table, None)
    ensures TableTotal([paid] + rest, paid.game, paid.table, None) == paid.atoms
    ensures TrimLog([paid] + rest, now) == rest
    ensures TableTotal(rest, paid.game, paid.table, None) == 0
  {
    var log := [paid] + rest;
    var counted := TableCounted(paid.game, paid.table, None);
    assert log[1..] == rest;
    NothingCounted(rest, counted);
    NothingDropped(rest, now);
    assert Sum(log, counted) == paid.atoms;
    assert forall i :: 1 <= i < |log| ==> log[i] == rest[i - 1];
  }
}
