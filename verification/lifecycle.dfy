/** The life of a request at the bridge: what any step may make of an entry of the spend
    log, said entry by entry and not step by step. */
module Lifecycle {
  import opened ByteStrings
  import opened Cashier
  import opened Payments

  /** What a request is for never changes. */
  predicate SameRequest(was: Entry, e: Entry) {
    && e.id == was.id && e.game == was.game && e.table == was.table && e.deposit == was.deposit
    && e.address == was.address && e.atoms == was.atoms && e.expiresAt == was.expiresAt
  }

  /** A step from one state of a request to another: a pending one is answered by its
      time running out, by settings changing under it, by a person's no, or by a payment
      on its way; only a payment on its way, or one the chain has shown, is approved; and
      only one that may have been paid can fail. */
  predicate MayBecome(was: Entry, e: Entry, event: Event, now: int) {
    match e.state
    case Pending => false
    case Expired =>
      && was.state == Pending && e.txid == was.txid && e.decidedAt == now
      && (if now >= was.expiresAt then e.error == was.error
          else event.Invalidates? && was.game in event.games && e.error == event.reason)
    case Denied =>
      && was.state == Pending && now < was.expiresAt && event.Denies? && event.id == was.id
      && e.decidedAt == now && e.txid == was.txid && e.error == was.error
    case Publishing =>
      if event.Marks?
      then was.state == Pending && now < was.expiresAt && event.id == was.id && e == was.(state := Publishing)
      else
        && event.Records? && event.id == was.id && was.state == Publishing && event.outcome == Publishing
        && e.txid == event.txid && e.error == event.error && e.decidedAt == now
    case Approved =>
      && e.decidedAt == now
      && if event.Records?
         then event.id == was.id && was.state == Publishing && e.txid == event.txid && e.error == event.error
         else
           && event.Reconciles? && was.id in event.ids && event.outcome == Approved
           && was.state in {Publishing, Pending} && e.txid == event.txid && e.error == []
    case Failed =>
      && event.Reconciles? && was.id in event.ids && event.outcome == Failed && e.decidedAt == now
      && was.state in {Publishing, Pending, Approved} && e.txid == was.txid && e.error == event.error
  }

  /** An entry goes on from one that was there: as it was, or a step further. */
  predicate GoesOn(log: Log, e: Entry, event: Event, now: int) {
    exists i :: 0 <= i < |log| && (e == log[i] || (SameRequest(log[i], e) && MayBecome(log[i], e, event, now)))
  }

  /** An entry begins as asked for: pending, with no transaction, error or decision. */
  predicate Begins(e: Entry, event: Event) {
    && event.Requests? && SameRequest(event.want, e)
    && e.state == Pending && e.txid == [] && e.error == [] && e.decidedAt == 0
  }

  /** As it was, or one lawful step on. */
  predicate Steps(was: Entry, e: Entry, event: Event, now: int) {
    e == was || (SameRequest(was, e) && MayBecome(was, e, event, now))
  }

  lemma ExpiredSteps(was: Entry, event: Event, now: int)
    ensures Steps(was, ExpireOne(was, now), event, now)
  {
  }

  lemma InvalidSteps(was: Entry, event: Event, now: int)
    requires event.Invalidates?
    ensures Steps(was, Invalid(ExpireOne(was, now), event.games, now, event.reason), event, now)
  {
  }

  lemma ReconciledSteps(was: Entry, event: Event, now: int)
    requires event.Reconciles?
    ensures Steps(was, Reconcile(was, event.ids, event.outcome, event.txid, event.error, now), event, now)
  {
  }

  lemma StepGoesOn(log: Log, i: nat, e: Entry, event: Event, now: int)
    requires i < |log| && Steps(log[i], e, event, now)
    ensures GoesOn(log, e, event, now)
  {
    hide MayBecome, SameRequest;
  }

  /** What a step may write of the entry at one place. */
  lemma RewriteSteps(w: World, event: Event, i: nat)
    requires Possible(w, event) && Rewrites(w, event).Some? && TimeOf(event).Some? && i < |w.log|
    ensures |Rewrites(w, event).value| >= |w.log|
    ensures Steps(w.log[i], Rewrites(w, event).value[i], event, TimeOf(event).value)
  {
    hide Admits, RequestCarried, CapsCarry, Steps, Reconcile, Invalid, ExpireOne, Filed;
    var now := TimeOf(event).value;
    ExpiredSteps(w.log[i], event, now);
    match event
    case Invalidates(games, reason, _, _) => InvalidSteps(w.log[i], event, now);
    case Denies(id, _, _) => DeniedSteps(w, event, i);
    case Marks(id, _, _) => MarkedSteps(w, event, i);
    case Records(id, outcome, txid, error, _, _) => RecordedSteps(w, event, i);
    case Reconciles(_, _, _, _, _, _) => ReconciledSteps(w.log[i], event, now);
    case _ =>
  }

  lemma DeniedSteps(w: World, event: Event, i: nat)
    requires event.Denies? && Rewrites(w, event).Some? && i < |w.log|
    ensures |Rewrites(w, event).value| == |w.log|
    ensures Steps(w.log[i], Rewrites(w, event).value[i], event, event.now)
  {
    assert Expire(w.log, event.now)[i] == ExpireOne(w.log[i], event.now);
  }

  lemma MarkedSteps(w: World, event: Event, i: nat)
    requires event.Marks? && Rewrites(w, event).Some? && i < |w.log|
    ensures |Rewrites(w, event).value| == |w.log|
    ensures Steps(w.log[i], Rewrites(w, event).value[i], event, event.now)
  {
    assert Expire(w.log, event.now)[i] == ExpireOne(w.log[i], event.now);
  }

  lemma RecordedSteps(w: World, event: Event, i: nat)
    requires event.Records? && Possible(w, event) && Rewrites(w, event).Some? && i < |w.log|
    ensures |Rewrites(w, event).value| == |w.log|
    ensures Steps(w.log[i], Rewrites(w, event).value[i], event, event.now)
  {
  }

  lemma RequestBegins(w: World, event: Event, i: nat)
    requires Rewrites(w, event).Some? && TimeOf(event).Some? && |w.log| <= i < |Rewrites(w, event).value|
    ensures Begins(Rewrites(w, event).value[i], event)
  {
    hide Admits, RequestCarried, CapsCarry;
  }

  lemma RewriteGoesOn(w: World, event: Event, e: Entry)
    requires Possible(w, event) && Rewrites(w, event).Some? && e in Rewrites(w, event).value && TimeOf(event).Some?
    ensures Begins(e, event) || GoesOn(w.log, e, event, TimeOf(event).value)
  {
    hide Rewrites, Begins, GoesOn, Possible, Steps;
    var out := Rewrites(w, event).value;
    var i :| 0 <= i < |out| && out[i] == e;
    if i < |w.log| {
      RewriteSteps(w, event, i);
      StepGoesOn(w.log, i, e, event, TimeOf(event).value);
    } else {
      RequestBegins(w, event, i);
    }
  }

  /** So every entry of the log, after any step at all, is one that was there, as it was
      or one lawful step on, or a request just asked for. */
  lemma EntriesGoOn(w: World, event: Event, e: Entry)
    requires Possible(w, event) && e in Next(w, event).log
    ensures e in w.log || (TimeOf(event).Some? && (Begins(e, event) || GoesOn(w.log, e, event, TimeOf(event).value)))
  {
    hide Rewrites, Begins, GoesOn, Possible, Drop;
    if Rewrites(w, event).Some? && WriteOf(event) != Lost {
      var out, now := Rewrites(w, event).value, TimeOf(event).GetOr(0);
      if |out| > MAX_LOG {
        DropIsPart(out, |out| - MAX_LOG, now);
      }
      assert e in out;
      assert TimeOf(event).Some? by { WritesAreTimed(w, event); }
      RewriteGoesOn(w, event, e);
    }
  }

  lemma WritesAreTimed(w: World, event: Event)
    requires WriteOf(event) != Lost
    ensures TimeOf(event).Some?
  {
  }

  // ---- What a step that is written down does do ----

  /** No request outlives its time as pending in what is written, and none of a game whose
      settings changed stays pending. */
  lemma NothingStaysPending(w: World, event: Event, e: Entry)
    requires event.Polls? || event.Invalidates?
    requires event.how != Lost && e in Next(w, event).log && e.state == Pending
    ensures event.now < e.expiresAt && (event.Invalidates? ==> e.game !in event.games)
  {
    hide Drop;
    var log := Expire(w.log, event.now);
    var out := if event.Polls? then log else Invalidate(log, event.games, event.now, event.reason);
    if |out| > MAX_LOG {
      DropIsPart(out, |out| - MAX_LOG, event.now);
    }
    assert e in out;
    var i :| 0 <= i < |out| && out[i] == e;
    assert log[i] == ExpireOne(w.log[i], event.now);
  }

  /** A no that is written down stands; a payment on its way is marked before it goes; and
      what the network said of it stands. */
  lemma DecisionsStand(w: World, event: Event, i: nat)
    requires event.Denies? || event.Marks? || event.Records?
    requires event.how != Lost && i < |w.log| <= MAX_LOG && DistinctIds(w.log) && w.log[i].id == event.id
    requires event.Denies? ==> w.log[i].state == Pending && event.now < w.log[i].expiresAt && event.id !in w.calls
    requires event.Marks? ==>
      && w.log[i].state == Pending && event.now < w.log[i].expiresAt
      && event.id in w.calls && w.calls[event.id] == Signing
    requires event.Records? ==> w.log[i].state == Publishing && event.id in w.calls && w.calls[event.id] == Out
    ensures |Next(w, event).log| == |w.log|
    ensures Next(w, event).log[i] ==
      match event
      case Denies(_, now, _) => w.log[i].(state := Denied, decidedAt := now)
      case Marks(_, _, _) => w.log[i].(state := Publishing)
      case Records(_, outcome, txid, error, now, _) =>
        w.log[i].(state := outcome, txid := txid, error := error, decidedAt := now)
  {
    hide Drop, Calls, DistinctIds;
    var log := Expire(w.log, event.now);
    FirstIs(w.log, log, event.id, i);
    FirstIs(w.log, w.log, event.id, i);
    assert log[i] == ExpireOne(w.log[i], event.now);
  }

  lemma FirstIs(log: Log, out: Log, id: Bytes, i: nat)
    requires DistinctIds(log) && |out| == |log| && i < |log| && log[i].id == id
    requires forall j :: 0 <= j < |log| ==> out[j].id == log[j].id
    ensures Index(out, id) == i
  {
  }

  /** What the chain has answered is written of every request it is about. */
  lemma ChainAnswersStand(w: World, event: Event, i: nat)
    requires event.Reconciles? && event.how != Lost && i < |w.log| <= MAX_LOG && w.log[i].id in event.ids
    requires event.outcome == Approved ==> w.log[i].state in {Publishing, Pending}
    requires event.outcome == Failed ==> w.log[i].state in {Publishing, Pending, Approved}
    ensures |Next(w, event).log| == |w.log|
    ensures event.outcome == Approved ==>
      Next(w, event).log[i] == w.log[i].(state := Approved, txid := event.txid, error := [], decidedAt := event.now)
    ensures event.outcome == Failed ==>
      Next(w, event).log[i] == w.log[i].(state := Failed, error := event.error, decidedAt := event.now)
  {
    hide Drop, Calls;
  }
}
