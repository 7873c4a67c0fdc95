/** All that is ever paid at a table: what the log holds and what its trims have
    dropped, and when the cap on the table is a cap on all of it. */
module TableHistory {
  import opened ByteStrings
  import opened Cashier
  import opened Payments
  import opened Caps

  /** What one step drops from the log for good. */
  function DroppedBy(w: World, e: Event): Log {
    if Rewrites(w, e).None? || TimeOf(e).None? || WriteOf(e) == Lost then []
    else Trimmed(Rewrites(w, e).value, TimeOf(e).value)
  }

  /** Everything a run drops. */
  function Gone(w: World, events: seq<Event>): Log
    decreases |events|
  {
    if events == [] then [] else DroppedBy(w, events[0]) + Gone(Next(w, events[0]), events[1..])
  }

  /** Whether a write drops no payment approved at the table: of the entries it trims,
      the oldest that no longer count, none is one. */
  predicate Spares(w: World, e: Event, game: Bytes, table: Bytes) {
    forall x :: x in DroppedBy(w, e) ==> !PaidAt(x, game, table)
  }

  predicate AlwaysSpares(w: World, events: seq<Event>, game: Bytes, table: Bytes)
    decreases |events|
  {
    events == [] || (Spares(w, events[0], game, table) && AlwaysSpares(Next(w, events[0]), events[1..], game, table))
  }

  /** The atoms of every payment a run has recorded as approved at a table and not
      recorded as failed since, whether the log still holds it or not. */
  function PaidEver(w: World, events: seq<Event>, end: World, game: Bytes, table: Bytes): int {
    Sum(Gone(w, events) + end.log, e => PaidAt(e, game, table))
  }

  lemma {:induction false} SumJoins(a: Log, b: Log, counted: Entry -> bool)
    ensures Sum(a + b, counted) == Sum(a, counted) + Sum(b, counted)
  {
    if a == [] {
      assert a + b == b;
    } else {
      assert (a + b)[1..] == a[1..] + b;
      SumJoins(a[1..], b, counted);
    }
  }

  /** A part of what a total counts is no more than the total. */
  lemma {:induction false} SumOfPart(log: Log, some: Entry -> bool, counted: Entry -> bool)
    requires AllPositive(log) && forall e :: some(e) ==> counted(e)
    ensures Sum(log, some) <= Sum(log, counted)
  {
    if log != [] {
      SumOfPart(log[1..], some, counted);
    }
  }

  /** What one step drops is worth something at a table exactly when it drops a payment
      approved there. */
  lemma DroppedIsPaid(w: World, e: Event, c: Cap, clock: int, table: Bytes)
    requires Capped(w.log, c, clock) && ValidCap(c) && FixedAt(e, c) && Possible(w, e)
    requires TimeOf(e).Some? ==> clock <= TimeOf(e).value
    ensures
      var counted := TableCounted(c.game, table, None);
      && Sum(DroppedBy(w, e), counted) >= 0
      && (Sum(DroppedBy(w, e), counted) == 0 <==> Spares(w, e, c.game, table))
      && Sum(DroppedBy(w, e), counted) == Sum(DroppedBy(w, e), x => PaidAt(x, c.game, table))
  {
    hide Rewrites, Trimmed, Possible, FixedAt, TimeOf, WriteOf, Sum;
    var counted, gone := TableCounted(c.game, table, None), DroppedBy(w, e);
    assert AllPositive(gone) && forall x :: x in gone ==> (counted(x) <==> PaidAt(x, c.game, table)) by {
      if gone != [] {
        var out, now := Rewrites(w, e).value, TimeOf(e).value;
        RewriteStaysCapped(w, e, c, clock);
        TrimmedIsPositive(out, now);
        TrimParts(out, now, counted);
      }
    }
    NoSumIsNone(gone, counted);
    SumAgrees(gone, counted, x => PaidAt(x, c.game, table));
  }

  /** Over a run, what the trims drop is worth something at a table exactly when some
      write drops a payment approved there. */
  lemma {:induction false} GoneIsPaid(w: World, events: seq<Event>, end: World, c: Cap, clock: int, table: Bytes)
    requires Capped(w.log, c, clock) && ValidCap(c) && Fixed(events, c) && Timely(events, clock)
    requires Leads(w, events, end)
    ensures
      var counted := TableCounted(c.game, table, None);
      && Sum(Gone(w, events), counted) >= 0
      && (Sum(Gone(w, events), counted) == 0 <==> AlwaysSpares(w, events, c.game, table))
      && Sum(Gone(w, events), counted) == Sum(Gone(w, events), x => PaidAt(x, c.game, table))
    decreases |events|
  {
    hide Capped, Next, Possible, FixedAt, DroppedBy, Spares, Sum, TimeOf;
    var counted := TableCounted(c.game, table, None);
    if events == [] {
      NoSum(counted);
      NoSum(x => PaidAt(x, c.game, table));
    } else {
      var e, rest := events[0], Gone(Next(w, events[0]), events[1..]);
      assert FixedAt(e, c) by { FirstIsFixed(events, c); }
      DroppedIsPaid(w, e, c, clock, table);
      NextStaysCapped(w, e, c, clock);
      GoneIsPaid(Next(w, e), events[1..], end, c, TimeOf(e).GetOr(clock), table);
      SumJoins(DroppedBy(w, e), rest, counted);
      SumJoins(DroppedBy(w, e), rest, x => PaidAt(x, c.game, table));
    }
  }

  lemma NoSum(counted: Entry -> bool)
    ensures Sum([], counted) == 0
  {
  }

  lemma FirstIsFixed(events: seq<Event>, c: Cap)
    requires Fixed(events, c) && events != []
    ensures FixedAt(events[0], c) && Fixed(events[1..], c)
  {
    hide FixedAt;
    assert forall i :: 0 <= i < |events[1..]| ==> events[1..][i] == events[i + 1];
  }

  /** When the cap on a table is a cap on all history: with caps that stay as they are
      and a clock that does not go back, the log's total still counts everything ever
      recorded approved at the table, exactly when no write of the run drops a payment
      approved there; and then all that was ever recorded approved there and not failed
      since is within the cap. */
  lemma TableCapHoldsOfHistory(events: seq<Event>, end: World, c: Cap, clock: int, table: Bytes)
    requires ValidCap(c) && Fixed(events, c) && Timely(events, clock) && Leads(EMPTY, events, end) && table != []
    ensures
      PaidEver(EMPTY, events, end, c.game, table) == Sum(end.log, e => PaidAt(e, c.game, table)) <==>
      AlwaysSpares(EMPTY, events, c.game, table)
    ensures AlwaysSpares(EMPTY, events, c.game, table) ==> PaidEver(EMPTY, events, end, c.game, table) <= c.table
  {
    hide Leads, AlwaysSpares, Gone, Sum;
    assert Capped(EMPTY.log, c, clock) by { NothingIsCapped(c, clock); }
    RunsStayCapped(EMPTY, events, end, c, clock);
    GoneIsPaid(EMPTY, events, end, c, clock, table);
    var paid := (e: Entry) => PaidAt(e, c.game, table);
    SumJoins(Gone(EMPTY, events), end.log, paid);
    SumOfPart(end.log, paid, TableCounted(c.game, table, None));
    assert PaidEver(EMPTY, events, end, c.game, table) == Sum(Gone(EMPTY, events) + end.log, paid);
  }
}
