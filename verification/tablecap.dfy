/** How far the cap on a table reaches: it holds of the log, and a run of the
    bridge's own operations gets past it over all history, once five hundred later
    requests have pushed a day-old payment out of the log. */
module TableCap {
  import opened ByteStrings
  import opened Cashier
  import opened Payments
  import Caps

  /** A game with one cap for its days and its tables, and who is paid. */
  datatype Till = Till(game: Bytes, table: Bytes, cap: int, address: Bytes)

  predicate ValidTill(x: Till) { x.table != [] && 0 < x.cap <= SUPPLY && x.address != [] }

  function SettingsOf(x: Till): Settings { Settings(true, map[x.game := Policy(true, x.cap, x.cap)]) }

  /** Request n: a deposit of its own, at this table or at none. */
  function Want(x: Till, n: nat, table: Bytes, atoms: int): Entry
    requires n < 0x1_0000_0000
  {
    Entry(BE(n, 4), x.game, table, BE(n, 4), x.address, atoms, Pending, [], [], 0, 2 * DAY)
  }

  /** Nothing in the log counts any more, or waits for an answer. */
  predicate Quiet(log: Log, now: int) { forall i :: 0 <= i < |log| ==> !Counts(log[i], now) }

  /** Where requests are numbered below n and none is under way. */
  predicate Ready(w: World, n: nat, now: int) {
    && w.calls == map[] && Quiet(w.log, now) && |w.log| <= MAX_LOG && Ids(w.log) <= w.seen
    && Refusals(w.log) <= w.refused
    && (forall i :: 0 <= i < |w.log| ==> w.log[i].id == w.log[i].deposit)
    && forall m: nat :: n <= m < 0x1_0000_0000 ==> BE(m, 4) !in w.seen
  }

  /** The log with room for one more. */
  function Room(log: Log): Log { if |log| == MAX_LOG then log[1..] else log }

  lemma QuietIsStill(log: Log, game: Bytes, now: int)
    requires Quiet(log, now)
    ensures Expire(log, now) == log && CountOutstanding(log, game) == 0 && DayTotal(log, game, now, None) == 0
  {
    assert forall i :: 0 <= i < |log| ==> ExpireOne(log[i], now) == log[i];
    Caps.NothingCounted(log, DayCounted(game, now, None));
    NoneOutstanding(log, game);
  }

  lemma {:induction false} NoneOutstanding(log: Log, game: Bytes)
    requires forall i :: 0 <= i < |log| ==> !Outstanding(log[i])
    ensures CountOutstanding(log, game) == 0
  {
    if log != [] {
      NoneOutstanding(log[1..], game);
    }
  }

  lemma TrimMakesRoom(log: Log, e: Entry, now: int)
    requires Quiet(log, now) && |log| <= MAX_LOG
    ensures TrimLog(log + [e], now) == Room(log) + [e]
  {
    hide Counts;
    if |log| == MAX_LOG {
      assert (log + [e])[1..] == log[1..] + [e];
      assert (log + [e])[0] == log[0];
      Caps.NothingDropped(log[1..] + [e], now);
    }
  }

  lemma LastIndex(log: Log, e: Entry)
    requires forall i :: 0 <= i < |log| ==> log[i].id != e.id
    ensures Index(log + [e], e.id) == |log|
  {
    assert (log + [e])[|log|] == e;
  }

  /** A request the caps leave room for is filed at the end. */
  lemma Request(x: Till, w: World, n: nat, table: Bytes, atoms: int, now: int) returns (v: World)
    requires ValidTill(x) && Ready(w, n, now) && n < 0x1_0000_0000 && 0 < atoms <= x.cap
    requires TableTotal(w.log, x.game, table, None) == 0
    ensures
      var e := Requests(SettingsOf(x), Want(x, n, table, atoms), true, now, Saved);
      Possible(w, e) && v == Next(w, e)
    ensures v.log == Room(w.log) + [Want(x, n, table, atoms)]
    ensures v.calls == map[] && v.published == w.published && v.seen == w.seen + {BE(n, 4)}
    ensures Ids(v.log) <= v.seen && Refusals(v.log) <= v.refused
    ensures forall i :: 0 <= i < |Room(w.log)| ==> Room(w.log)[i] in w.log && Room(w.log)[i].id != BE(n, 4)
  {
    hide TableTotal, DayTotal, CountOutstanding, Expire, Counts, TrimLog, Calls;
    var want := Want(x, n, table, atoms);
    var e := Requests(SettingsOf(x), want, true, now, Saved);
    QuietIsStill(w.log, x.game, now);
    assert forall i :: 0 <= i < |w.log| ==> w.log[i].id in Ids(w.log);
    assert Admits(SettingsOf(x), w.log, want, true, now);
    assert Filed(want) == want;
    TrimMakesRoom(w.log, want, now);
    assert Ids(w.log + [want]) == Ids(w.log) + {want.id};
    SeenAgain(w, w.(seen := w.seen + {want.id}), n, now, want);
    assert Calls(w, e) == w.calls by { OnlyItsOwn(w, e); }
    v := Next(w, e);
  }

  lemma OnlyItsOwn(w: World, e: Event)
    requires e.Requests? || e.Denies?
    ensures Calls(w, e) == w.calls
  {
  }

  /** The log of a request answered in its place. */
  lemma Answer(log: Log, e: Entry, now: int)
    requires Quiet(log, now) && |log| < MAX_LOG && e.state == Pending && now < e.expiresAt
    requires forall i :: 0 <= i < |log| ==> log[i].id != e.id
    ensures Expire(log + [e], now) == log + [e] && Index(log + [e], e.id) == |log|
    ensures forall f: Entry :: (log + [e])[|log| := f] == log + [f] && TrimLog(log + [f], now) == log + [f]
  {
    LastIndex(log, e);
    var all := log + [e];
    forall i | 0 <= i < |all| ensures ExpireOne(all[i], now) == all[i] {
      assert i < |log| ==> all[i] == log[i];
    }
  }

  lemma RoomIsQuiet(log: Log, now: int)
    requires Quiet(log, now) && |log| <= MAX_LOG
    ensures Quiet(Room(log), now) && |Room(log)| < MAX_LOG
    ensures forall i :: 0 <= i < |Room(log)| ==> Room(log)[i] in log
  {
    hide Counts;
  }

  lemma OneMoreReady(w: World, v: World, last: Entry, n: nat, now: int)
    requires Ready(w, n, now) && n < 0x1_0000_0000 && last.id == BE(n, 4) == last.deposit && !Counts(last, now)
    requires v.log == Room(w.log) + [last] && v.calls == map[] && v.seen == w.seen + {BE(n, 4)}
    requires Refusals(v.log) <= v.refused
    ensures Ready(v, n + 1, now)
  {
    hide Counts;
    RoomIsQuiet(w.log, now);
    forall m: nat | n + 1 <= m < 0x1_0000_0000 ensures BE(m, 4) !in v.seen {
      if BE(m, 4) == BE(n, 4) {
        BEInjective(n, m, 4);
      }
    }
    forall i | 0 <= i < |v.log| ensures v.log[i].id == v.log[i].deposit && !Counts(v.log[i], now) {
      if i < |Room(w.log)| {
        assert v.log[i] == Room(w.log)[i];
        assert v.log[i] in w.log;
      }
    }
  }

  lemma LeadsOne(w: World, e: Event, rest: seq<Event>, end: World)
    requires Possible(w, e) && Leads(Next(w, e), rest, end)
    ensures Leads(w, [e] + rest, end)
  {
    hide Possible, Next;
    assert ([e] + rest)[1..] == rest;
  }

  lemma LeadsNowhere(w: World)
    ensures Leads(w, [], w)
  {
  }

  lemma {:induction false} LeadsJoin(w: World, a: seq<Event>, v: World, b: seq<Event>, end: World)
    requires Leads(w, a, v) && Leads(v, b, end)
    ensures Leads(w, a + b, end)
    decreases |a|
  {
    hide Possible, Next;
    if a == [] {
      assert a + b == b;
    } else {
      LeadsJoin(Next(w, a[0]), a[1..], v, b, end);
      assert a + b == [a[0]] + (a[1..] + b);
      LeadsOne(w, a[0], a[1..] + b, end);
    }
  }

  // ---- A request refused, and a payment made ----

  function Asks(x: Till, n: nat, table: Bytes, atoms: int, now: int): Event
    requires n < 0x1_0000_0000
  {
    Requests(SettingsOf(x), Want(x, n, table, atoms), true, now, Saved)
  }

  function Refusal(x: Till, n: nat, now: int): seq<Event>
    requires n < 0x1_0000_0000
  {
    [Asks(x, n, [], 1, now)] + [Denies(BE(n, 4), now, Saved)]
  }

  function Refused(x: Till, n: nat, now: int): Entry
    requires n < 0x1_0000_0000
  {
    Want(x, n, [], 1).(state := Denied, decidedAt := now)
  }

  lemma Refuse(x: Till, w: World, n: nat, now: int) returns (v: World)
    requires ValidTill(x) && Ready(w, n, now) && n < 0x1_0000_0000 && now < 2 * DAY
    ensures Leads(w, Refusal(x, n, now), v) && Ready(v, n + 1, now)
    ensures v.log == Room(w.log) + [Refused(x, n, now)] && v.published == w.published
  {
    hide Ready, Rewrites, TrimLog, Leads, Calls, Expire;
    assert TableTotal(w.log, x.game, [], None) == 0;
    var u := Request(x, w, n, [], 1, now) by { assert Ready(w, n, now); }
    var e := Denies(BE(n, 4), now, Saved);
    var log, want := Room(w.log), Want(x, n, [], 1);
    assert Quiet(log, now) && |log| < MAX_LOG by { IsReady(w, n, now); RoomIsQuiet(w.log, now); }
    Answer(log, want, now);
    v := Next(u, e);
    OnlyItsOwn(u, e);
    assert Rewrites(u, e) == Some(log + [Refused(x, n, now)]) by { DenyRewrites(u, log, want, now); }
    assert Ids(log + [Refused(x, n, now)]) <= u.seen by { SeenAgain(w, u, n, now, Refused(x, n, now)); }
    assert v.seen == u.seen;
    OneMoreReady(w, v, Refused(x, n, now), n, now);
    LeadsNowhere(v);
    LeadsOne(u, e, [], v);
    assert [e] + [] == [e];
    LeadsOne(w, Asks(x, n, [], 1, now), [e], v);
  }

  lemma IsReady(w: World, n: nat, now: int)
    requires Ready(w, n, now)
    ensures w.calls == map[] && Quiet(w.log, now) && |w.log| <= MAX_LOG && Ids(w.log) <= w.seen
  {
  }

  lemma DenyRewrites(u: World, log: Log, want: Entry, now: int)
    requires u.log == log + [want] && Expire(u.log, now) == u.log && Index(u.log, want.id) == |log|
    requires want.state == Pending && want.id !in u.calls
    ensures Rewrites(u, Denies(want.id, now, Saved)) == Some(log + [want.(state := Denied, decidedAt := now)])
  {
    hide Expire, Index;
    assert u.log[|log| := want.(state := Denied, decidedAt := now)] == log + [want.(state := Denied, decidedAt := now)];
  }

  lemma SeenAgain(w: World, u: World, n: nat, now: int, last: Entry)
    requires Ready(w, n, now) && u.seen == w.seen + {last.id}
    ensures Ids(Room(w.log) + [last]) <= u.seen
  {
    hide Counts;
    forall e | e in Room(w.log) + [last] ensures e.id in u.seen {
      if e in Room(w.log) {
        assert e in w.log && e.id in Ids(w.log);
      }
    }
  }

  function Payment(x: Till, n: nat, now: int): seq<Event>
    requires n < 0x1_0000_0000
  {
    var id := BE(n, 4);
    [Asks(x, n, x.table, x.cap, now)]
    + ([Begins(SettingsOf(x), id, now)]
       + ([Marks(id, now, Saved)] + ([Publishes(id)] + [Records(id, Approved, id, [], now, Saved)])))
  }

  function Paid(x: Till, n: nat, now: int): Entry
    requires n < 0x1_0000_0000
  {
    Want(x, n, x.table, x.cap).(state := Approved, txid := BE(n, 4), decidedAt := now)
  }

  predicate NoneAtTable(log: Log, x: Till) { forall i :: 0 <= i < |log| ==> !AtTable(log[i], x.game, x.table, None) }

  /** An approval that runs to its end. */
  lemma Approve(x: Till, u: World, log: Log, n: nat, now: int) returns (v: World)
    requires ValidTill(x) && n < 0x1_0000_0000 && now < 2 * DAY && u.calls == map[]
    requires Quiet(log, now) && |log| < MAX_LOG && NoneAtTable(log, x)
    requires Ids(u.log) <= u.seen && Refusals(u.log) <= u.refused
    requires u.log == log + [Want(x, n, x.table, x.cap)]
    requires forall i :: 0 <= i < |log| ==> log[i].id != BE(n, 4)
    ensures v.log == log + [Paid(x, n, now)] && v.calls == map[] && v.seen == u.seen
    ensures v.published == u.published + [BE(n, 4)]
    ensures Leads(u, Payment(x, n, now)[1..], v)
  {
    hide Rewrites, TrimLog, Leads, Calls, Expire, Quiet, NoneAtTable, MayBegin, Index;
    var id, want := BE(n, 4), Want(x, n, x.table, x.cap);
    assert Refusals(log) <= u.refused by { assert forall e :: e in log ==> e in u.log; }
    Answer(log, want, now);
    var begins, marks, publishes := Begins(SettingsOf(x), id, now), Marks(id, now, Saved), Publishes(id);
    var records := Records(id, Approved, id, [], now, Saved);
    var a := u.(calls := map[id := Signing]);
    assert MayBegin(u, SettingsOf(x), id, now) by { BeginsHere(x, u, log, n, now); }
    assert Next(u, begins) == a by { StepBegins(u, SettingsOf(x), id, now); }
    var b := a.(log := log + [want.(state := Publishing)], calls := map[id := Marked]);
    assert Next(a, marks) == b by { StepMarks(a, log, want, now); }
    var c := b.(calls := map[id := Out], published := u.published + [id]);
    assert Next(b, publishes) == c by { StepPublishes(b, id); }
    v := c.(log := log + [Paid(x, n, now)], calls := map[]);
    assert Next(c, records) == v by { StepRecords(c, log, want.(state := Publishing), now); }
    LeadsNowhere(v);
    LeadsOne(c, records, [], v);
    assert [records] + [] == [records];
    LeadsOne(b, publishes, [records], v);
    LeadsOne(a, marks, [publishes] + [records], v);
    LeadsOne(u, begins, [marks] + ([publishes] + [records]), v);
    assert Payment(x, n, now)[1..] == [begins] + ([marks] + ([publishes] + [records]));
  }

  lemma BeginsHere(x: Till, u: World, log: Log, n: nat, now: int)
    requires ValidTill(x) && n < 0x1_0000_0000 && u.calls == map[]
    requires Quiet(log, now) && NoneAtTable(log, x)
    requires u.log == log + [Want(x, n, x.table, x.cap)] && Expire(u.log, now) == u.log
    requires Index(u.log, BE(n, 4)) == |log|
    ensures MayBegin(u, SettingsOf(x), BE(n, 4), now)
  {
    hide Expire, Index;
    var id := BE(n, 4);
    forall i | 0 <= i < |u.log|
      ensures !InDay(u.log[i], x.game, now, Some(id)) && !AtTable(u.log[i], x.game, x.table, Some(id))
    {
      assert i < |log| ==> u.log[i] == log[i];
    }
    Caps.NothingCounted(u.log, DayCounted(x.game, now, Some(id)));
    Caps.NothingCounted(u.log, TableCounted(x.game, x.table, Some(id)));
  }

  lemma StepBegins(u: World, s: Settings, id: Bytes, now: int)
    requires u.calls == map[] && MayBegin(u, s, id, now)
    ensures Next(u, Begins(s, id, now)) == u.(calls := map[id := Signing])
  {
    hide MayBegin;
    assert u.calls[id := Signing] == map[id := Signing];
  }

  lemma StillThere(w: World, log: Log, was: Entry, now: Entry)
    requires w.log == log + [was] && Ids(w.log) <= w.seen && now.id == was.id
    requires Refusals(log) <= w.refused && now.state !in {Denied, Expired}
    ensures w.seen + Ids(log + [now]) == w.seen && w.refused + Refusals(log + [now]) == w.refused
  {
    forall e | e in log + [now] ensures e.id in w.seen && (e.state in {Denied, Expired} ==> e.id in w.refused) {
      if e in log {
        assert e in w.log && e.id in Ids(w.log);
        assert e.state in {Denied, Expired} ==> e.id in Refusals(log);
      } else {
        assert was in w.log && was.id in Ids(w.log);
      }
    }
  }

  lemma StepMarks(a: World, log: Log, want: Entry, now: int)
    requires a.log == log + [want] && a.calls == map[want.id := Signing] && want.state == Pending
    requires Expire(a.log, now) == a.log && Index(a.log, want.id) == |log|
    requires Ids(a.log) <= a.seen && Refusals(log) <= a.refused
    requires |log| < MAX_LOG
    ensures Next(a, Marks(want.id, now, Saved)) ==
      a.(log := log + [want.(state := Publishing)], calls := map[want.id := Marked])
  {
    hide Expire, Index;
    var out := log + [want.(state := Publishing)];
    assert a.log[|log| := want.(state := Publishing)] == out;
    assert a.calls[want.id := Marked] == map[want.id := Marked];
    StillThere(a, log, want, want.(state := Publishing));
  }

  lemma StepPublishes(b: World, id: Bytes)
    requires b.calls == map[id := Marked]
    ensures Next(b, Publishes(id)) == b.(calls := map[id := Out], published := b.published + [id])
  {
    assert b.calls[id := Out] == map[id := Out];
  }

  lemma StepRecords(c: World, log: Log, out: Entry, now: int)
    requires c.log == log + [out] && c.calls == map[out.id := Out] && out.state == Publishing
    requires Ids(c.log) <= c.seen && Refusals(log) <= c.refused
    requires |log| < MAX_LOG
    requires forall i :: 0 <= i < |log| ==> log[i].id != out.id
    ensures Next(c, Records(out.id, Approved, out.id, [], now, Saved)) ==
      c.(log := log + [out.(state := Approved, txid := out.id, error := [], decidedAt := now)], calls := map[])
  {
    hide Index;
    LastIndex(log, out);
    var last := out.(state := Approved, txid := out.id, error := [], decidedAt := now);
    assert c.log[|log| := last] == log + [last];
    assert c.calls - {out.id} == map[];
    StillThere(c, log, out, last);
  }

  // ---- The run ----

  /** Requests 1 to k, each refused a day later. */
  function Fillers(x: Till, k: nat): seq<Event>
    requires k <= MAX_LOG
  {
    if k == 0 then [] else Fillers(x, k - 1) + Refusal(x, k, DAY)
  }

  /** After the fillers the payment is still at the head of the log, or has just been
      pushed out of it. */
  ghost predicate Filled(x: Till, w: World, k: nat) {
    && Ready(w, k + 1, DAY) && |w.log| == (if k < MAX_LOG then k + 1 else MAX_LOG)
    && forall i :: (if k < MAX_LOG then 1 else 0) <= i < |w.log| ==> !AtTable(w.log[i], x.game, x.table, None)
  }

  lemma {:induction false} Fill(x: Till, w: World, k: nat) returns (v: World)
    requires ValidTill(x) && Filled(x, w, 0) && k <= MAX_LOG
    ensures Leads(w, Fillers(x, k), v) && Filled(x, v, k) && v.published == w.published
  {
    hide Leads, Refusal, Ready;
    if k == 0 {
      LeadsNowhere(w);
      v := w;
    } else {
      var u := Fill(x, w, k - 1);
      v := Refuse(x, u, k, DAY);
      LeadsJoin(w, Fillers(x, k - 1), u, Refusal(x, k, DAY), v);
      assert v.log == Room(u.log) + [Refused(x, k, DAY)];
    }
  }

  /** Events of this game's one policy, at one time. */
  predicate Ours(events: seq<Event>, x: Till, now: int) {
    forall e :: e in events ==>
      (e.Requests? ==> e.settings == SettingsOf(x)) && (TimeOf(e) == None || TimeOf(e) == Some(now))
  }

  lemma {:induction false} FillersAreOurs(x: Till, k: nat)
    requires k <= MAX_LOG
    ensures Ours(Fillers(x, k), x, DAY)
  {
    if k > 0 {
      FillersAreOurs(x, k - 1);
    }
  }

  lemma PaymentsAreOurs(x: Till, n: nat, now: int)
    requires n < 0x1_0000_0000
    ensures Ours(Payment(x, n, now), x, now)
  {
  }

  lemma {:induction false} TimelyLater(events: seq<Event>, clock: int, later: int)
    requires Caps.Timely(events, later) && clock <= later
    ensures Caps.Timely(events, clock)
  {
    if events != [] {
      if TimeOf(events[0]).None? {
        TimelyLater(events[1..], clock, later);
      }
    }
  }

  lemma {:induction false} OursAreTimely(a: seq<Event>, x: Till, now: int, b: seq<Event>, clock: int)
    requires Ours(a, x, now) && clock <= now && Caps.Timely(b, now)
    ensures Caps.Timely(a + b, clock)
  {
    if a == [] {
      assert a + b == b;
      TimelyLater(b, clock, now);
    } else {
      var e := a[0];
      assert (a + b)[0] == e && (a + b)[1..] == a[1..] + b;
      OursAreTimely(a[1..], x, now, b, if TimeOf(e).Some? then now else clock);
    }
  }

  lemma OursAreFixed(events: seq<Event>, x: Till, now: int)
    requires Ours(events, x, now)
    ensures Caps.Fixed(events, Caps.Cap(x.game, x.cap, x.cap))
  {
  }

  lemma FirstPaid(x: Till) returns (v: World)
    requires ValidTill(x)
    ensures Leads(EMPTY, Payment(x, 0, 0), v) && Filled(x, v, 0) && v.published == [BE(0, 4)]
  {
    hide Leads, Possible, Next;
    var u := Request(x, EMPTY, 0, x.table, x.cap, 0);
    assert u.log == [] + [Want(x, 0, x.table, x.cap)];
    v := Approve(x, u, [], 0, 0);
    assert Payment(x, 0, 0) == [Asks(x, 0, x.table, x.cap, 0)] + Payment(x, 0, 0)[1..];
    LeadsOne(EMPTY, Asks(x, 0, x.table, x.cap, 0), Payment(x, 0, 0)[1..], v);
    var paid := Paid(x, 0, 0);
    assert v.log == [paid];
    assert Refusals([paid]) == {};
    OneMoreReady(EMPTY, v, paid, 0, DAY);
  }

  lemma PaidAgain(x: Till, w: World) returns (v: World)
    requires ValidTill(x) && Filled(x, w, MAX_LOG)
    ensures Leads(w, Payment(x, MAX_LOG + 1, DAY), v) && v.published == w.published + [BE(MAX_LOG + 1, 4)]
  {
    hide Leads, Possible, Next;
    var n := MAX_LOG + 1;
    Caps.NothingCounted(w.log, TableCounted(x.game, x.table, None));
    var u := Request(x, w, n, x.table, x.cap, DAY);
    var log := Room(w.log);
    RoomIsQuiet(w.log, DAY);
    v := Approve(x, u, log, n, DAY);
    assert Payment(x, n, DAY) == [Asks(x, n, x.table, x.cap, DAY)] + Payment(x, n, DAY)[1..];
    LeadsOne(w, Asks(x, n, x.table, x.cap, DAY), Payment(x, n, DAY)[1..], v);
  }

  /** The cap on a table is not a cap on all that is ever paid at it: under caps that
      stay as they are and a clock that does not go back, a run from the empty log
      pays a table its whole cap, and a day and five hundred refused requests later
      pays it the whole cap again. */
  lemma TableIsPaidTwice(x: Till) returns (events: seq<Event>, end: World)
    requires ValidTill(x)
    ensures Leads(EMPTY, events, end)
    ensures Caps.Fixed(events, Caps.Cap(x.game, x.cap, x.cap)) && Caps.Timely(events, 0)
    ensures Asks(x, 0, x.table, x.cap, 0) in events && Asks(x, MAX_LOG + 1, x.table, x.cap, DAY) in events
    ensures end.published == [BE(0, 4), BE(MAX_LOG + 1, 4)] && BE(0, 4) != BE(MAX_LOG + 1, 4)
  {
    hide Leads, Filled, Caps.Timely, Ours, Caps.Fixed;
    var first, again := Payment(x, 0, 0), Payment(x, MAX_LOG + 1, DAY);
    var v := FirstPaid(x);
    var w := Fill(x, v, MAX_LOG);
    end := PaidAgain(x, w);
    var day := Fillers(x, MAX_LOG) + again;
    events := first + day;
    LeadsJoin(v, Fillers(x, MAX_LOG), w, again, end);
    LeadsJoin(EMPTY, first, v, day, end);
    PaymentsAreOurs(x, 0, 0);
    PaymentsAreOurs(x, MAX_LOG + 1, DAY);
    FillersAreOurs(x, MAX_LOG);
    assert Ours(day, x, DAY) by { OursJoin(Fillers(x, MAX_LOG), again, x, DAY); }
    assert day + [] == day;
    assert Caps.Timely([], DAY) by { NothingIsTimely(); }
    OursAreTimely(day, x, DAY, [], 0);
    OursAreTimely(day, x, DAY, [], DAY);
    OursAreTimely(first, x, 0, day, 0);
    OursAreFixed(first, x, 0);
    OursAreFixed(day, x, DAY);
    FixedJoin(first, day, Caps.Cap(x.game, x.cap, x.cap));
    PowersOf256();
    if BE(0, 4) == BE(MAX_LOG + 1, 4) {
      BEInjective(0, MAX_LOG + 1, 4);
    }
    assert first[0] == Asks(x, 0, x.table, x.cap, 0) && again[0] == Asks(x, MAX_LOG + 1, x.table, x.cap, DAY);
    assert again[0] in again && again[0] in day;
  }

  lemma NothingIsTimely()
    ensures Caps.Timely([], DAY)
  {
  }

  lemma OursJoin(a: seq<Event>, b: seq<Event>, x: Till, now: int)
    requires Ours(a, x, now) && Ours(b, x, now)
    ensures Ours(a + b, x, now)
  {
  }

  lemma FixedJoin(a: seq<Event>, b: seq<Event>, c: Caps.Cap)
    requires Caps.Fixed(a, c) && Caps.Fixed(b, c)
    ensures Caps.Fixed(a + b, c)
  {
  }
}
