/** What an operator's settings decide: exactly which requests are filed and which
    approvals may start, reckoned in atoms and not in the totals the code keeps. */
module Policy {
  import opened ByteStrings
  import opened Cashier
  import opened Payments
  import opened Caps
  import Lifecycle

  /** A game the operator has switched on, registered and bound an account for may ask
      for this much at this address. */
  predicate MayAsk(s: Settings, game: Bytes, address: Bytes, atoms: int) {
    && s.enabled && game in s.policies && s.policies[game].bound && address != []
    && 1 <= atoms <= 21_000_000 * 100_000_000
    && !(0 < s.policies[game].tableCap < atoms)
  }

  /** There is room in the day's cap, and at a named table in the table's, with all but
      one request counted. */
  predicate HasRoom(p: Cashier.Policy, log: Log, game: Bytes, table: Bytes, atoms: int, now: int, but: Option<Bytes>) {
    && (p.dayCap > 0 ==> Sum(log, e => OfTheDay(e, game, now) && Some(e.id) != but) + atoms <= p.dayCap)
    && (p.tableCap > 0 ==>
          atoms + (if table == [] then 0 else Sum(log, e => OfTheTable(e, game, table) && Some(e.id) != but))
            <= p.tableCap)
  }

  lemma WithinIsRoom(log: Log, counted: Entry -> bool, cap: int, atoms: int)
    requires AllPositive(log) && cap <= MAX_INT64 && atoms > 0
    ensures Within(cap, atoms, Total(log, counted)) <==> cap <= 0 || Sum(log, counted) + atoms <= cap
  {
    hide Sum;
    SumIsNotNegative(log, counted);
  }

  lemma {:induction false} SumIsNotNegative(log: Log, counted: Entry -> bool)
    requires AllPositive(log)
    ensures Sum(log, counted) >= 0
  {
    if log != [] {
      SumIsNotNegative(log[1..], counted);
    }
  }

  /** The caps as the code reckons them leave exactly the room there is. */
  lemma CapsLeaveTheRoom(s: Settings, log: Log, game: Bytes, table: Bytes, atoms: int, now: int, but: Option<Bytes>)
    requires game in s.policies && AllPositive(log) && atoms > 0
    requires s.policies[game].dayCap <= MAX_INT64 && s.policies[game].tableCap <= MAX_INT64
    ensures CapsCarry(s, log, game, table, atoms, now, but) <==>
      HasRoom(s.policies[game], log, game, table, atoms, now, but)
  {
    hide Sum, Total, Within, AllPositive;
    var p := s.policies[game];
    WithinIsRoom(log, DayCounted(game, now, but), p.dayCap, atoms);
    WithinIsRoom(log, TableCounted(game, table, but), p.tableCap, atoms);
    SumAgrees(log, e => OfTheDay(e, game, now) && Some(e.id) != but, DayCounted(game, now, but));
    SumAgrees(log, e => OfTheTable(e, game, table) && Some(e.id) != but, TableCounted(game, table, but));
    if table == [] {
      NothingUsed(p.tableCap, atoms);
    }
  }

  lemma NothingUsed(cap: int, atoms: int)
    ensures Within(cap, atoms, 0) <==> cap <= 0 || atoms <= cap
  {
  }

  lemma AskingIsCarried(s: Settings, game: Bytes, address: Bytes, atoms: int)
    ensures RequestCarried(s, game, address, atoms) <==> MayAsk(s, game, address, atoms)
  {
  }

  lemma ExpireKeepsAmounts(log: Log, now: int)
    requires AllPositive(log)
    ensures AllPositive(Expire(log, now))
  {
    forall i | 0 <= i < |log| ensures Expire(log, now)[i].atoms > 0 {
      assert Expire(log, now)[i] == ExpireOne(log[i], now);
    }
  }

  // ---- Over runs ----

  lemma WrittenAmounts(w: World, e: Event)
    requires AllPositive(w.log) && Possible(w, e) && Rewrites(w, e).Some? && TimeOf(e).Some?
    ensures AllPositive(Rewrites(w, e).value)
  {
    hide Rewrites, Possible, Lifecycle.MayBecome;
    var out := Rewrites(w, e).value;
    forall i | 0 <= i < |out| ensures out[i].atoms > 0 {
      if i < |w.log| {
        Lifecycle.RewriteSteps(w, e, i);
      } else {
        NewAmount(w, e, i);
      }
    }
  }

  lemma NewAmount(w: World, e: Event, i: nat)
    requires Rewrites(w, e).Some? && |w.log| <= i < |Rewrites(w, e).value|
    ensures Rewrites(w, e).value[i].atoms > 0
  {
    hide CapsCarry;
  }

  lemma NextKeepsAmounts(w: World, e: Event)
    requires AllPositive(w.log) && Possible(w, e)
    ensures AllPositive(Next(w, e).log)
  {
    hide Calls, Rewrites, Possible, Drop;
    if Rewrites(w, e).Some? && WriteOf(e) != Lost {
      Lifecycle.WritesAreTimed(w, e);
      WrittenAmounts(w, e);
      var out := Rewrites(w, e).value;
      if |out| > MAX_LOG {
        DropShrinks(out, |out| - MAX_LOG, TimeOf(e).value, x => true, []);
      }
    }
  }

  lemma {:induction false} AmountsArePositive(w: World, events: seq<Event>, end: World)
    requires AllPositive(w.log) && Leads(w, events, end)
    ensures AllPositive(end.log)
    decreases |events|
  {
    hide AllPositive, Next, Possible;
    if events != [] {
      NextKeepsAmounts(w, events[0]);
      AmountsArePositive(Next(w, events[0]), events[1..], end);
    }
  }

  lemma ReachedIsOrdinary(events: seq<Event>, w: World)
    requires Leads(EMPTY, events, w)
    ensures AllPositive(w.log) && DistinctIds(w.log)
  {
    hide Leads;
    AmountsArePositive(EMPTY, events, w);
    RunsKeep(EMPTY, events, w);
  }

  /** In every state a run reaches, an approval starts exactly for a request that is pending in time, that nobody is
      approving, and that the settings as they are now would carry, itself left out of
      the totals it is judged against. */
  lemma ApprovalStartsExactly(events: seq<Event>, w: World, s: Settings, id: Bytes, now: int, i: nat)
    requires Leads(EMPTY, events, w) && i < |w.log| && w.log[i].id == id
    requires w.log[i].game in s.policies ==>
      s.policies[w.log[i].game].dayCap <= MAX_INT64 && s.policies[w.log[i].game].tableCap <= MAX_INT64
    ensures
      var e := w.log[i];
      MayBegin(w, s, id, now) <==>
        && e.state == Pending && now < e.expiresAt && id !in w.calls
        && MayAsk(s, e.game, e.address, e.atoms)
        && HasRoom(s.policies[e.game], Expire(w.log, now), e.game, e.table, e.atoms, now, Some(id))
  {
    hide Leads, Sum, CapsCarry, RequestCarried, MayAsk, HasRoom, AllPositive;
    ReachedIsOrdinary(events, w);
    var log := Expire(w.log, now);
    var e := w.log[i];
    assert log[i] == ExpireOne(e, now);
    Lifecycle.FirstIs(w.log, log, id, i);
    ExpireKeepsAmounts(w.log, now);
    AskingIsCarried(s, e.game, e.address, e.atoms);
    if MayAsk(s, e.game, e.address, e.atoms) {
      AskedIsSome(s, e.game, e.address, e.atoms);
      CapsLeaveTheRoom(s, log, e.game, e.table, e.atoms, now, Some(id));
    }
  }

  lemma AskedIsSome(s: Settings, game: Bytes, address: Bytes, atoms: int)
    requires MayAsk(s, game, address, atoms)
    ensures game in s.policies && atoms > 0
  {
  }

  /** And a request for a deposit that has no entry is filed exactly when its game may ask for
      that much, has fewer than eight requests in flight, and there is room in both
      caps. */
  lemma RequestIsFiledExactly(events: seq<Event>, w: World, s: Settings, want: Entry, funded: bool, now: int)
    requires Leads(EMPTY, events, w) && forall i :: 0 <= i < |w.log| ==> w.log[i].deposit != want.deposit
    requires want.game in s.policies ==>
      s.policies[want.game].dayCap <= MAX_INT64 && s.policies[want.game].tableCap <= MAX_INT64
    ensures
      var log := Expire(w.log, now);
      Admits(s, log, want, funded, now) <==>
        && MayAsk(s, want.game, want.address, want.atoms)
        && |set i | 0 <= i < |log| && InFlight(log[i], want.game)| < 8
        && HasRoom(s.policies[want.game], log, want.game, want.table, want.atoms, now, None)
  {
    hide Leads, Sum, CapsCarry, RequestCarried, MayAsk, HasRoom, AllPositive, CountOutstanding;
    ReachedIsOrdinary(events, w);
    var log := Expire(w.log, now);
    forall i | 0 <= i < |log| ensures !Stands(log[i], want.deposit, funded) {
      assert log[i] == ExpireOne(w.log[i], now);
    }
    ExpireKeepsAmounts(w.log, now);
    OutstandingAreInFlight(log, want.game);
    AskingIsCarried(s, want.game, want.address, want.atoms);
    if MayAsk(s, want.game, want.address, want.atoms) {
      AskedIsSome(s, want.game, want.address, want.atoms);
      CapsLeaveTheRoom(s, log, want.game, want.table, want.atoms, now, None);
    }
  }
}
