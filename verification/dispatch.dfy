/** The game's book and the bridge's log put together: from a payment asked for to
    the requests handed to the network, at most one for each table, purpose and seat. */
module Dispatch {
  import opened ByteStrings
  import Cashier
  import Payments
  import Spend

  /** One attempt at one payment. */
  type Attempt = (Spend.Key, nat)

  /** The game with its book, the bridge with its log, the attempt each of the bridge's
      identifiers was filed for, and the attempts that have reached the bridge. */
  datatype World = World(game: Spend.World, bridge: Payments.World, filed: map<Bytes, Attempt>, arrived: set<Attempt>)

  datatype Event =
    | OfGame(game: Spend.Event)
    | Arrives(attempt: Attempt, settings: Cashier.Settings, want: Cashier.Entry, funded: bool, now: int, how: Write)
    | OfBridge(bridge: Payments.Event)

  function Request(e: Event): Payments.Event
    requires e.Arrives?
  {
    Payments.Requests(e.settings, e.want, e.funded, e.now, e.how)
  }

  /** Whether an arriving request becomes an entry of the bridge's log. */
  predicate Files(w: World, e: Event) {
    && e.Arrives? && e.how != Lost
    && Cashier.Admits(e.settings, Cashier.Expire(w.bridge.log, e.now), e.want, e.funded, e.now)
  }

  /** The name a waiting request is given is the one it was filed under. */
  ghost predicate NamesRightly(w: World, e: Spend.Event) {
    e.Adopts? && Spend.Adoptable(w.game.book.live, e.table, e.purpose, e.id) ==>
      var r := Spend.Waiting(w.game.book.live, e.table, e.purpose);
      e.id in w.filed && w.filed[e.id] == (Spend.KeyOf(r), r.attempt)
  }

  predicate SaysRefused(a: Spend.Answer) { a.Says? && a.verdict in {Spend.SaysDenied, Spend.SaysExpired} }

  /** The book is told of a refusal only when the bridge recorded it. */
  predicate TellsTruly(w: World, e: Spend.Event) {
    e.Notes? && SaysRefused(e.answer) ==> e.id in w.bridge.refused
  }

  /** What is asked of the two and of what passes between them: every attempt sent
      reaches the bridge once at most, and is filed under a fresh identifier; the
      attempt counter does not wrap. Requests of other games come to the bridge too. */
  ghost predicate Possible(w: World, e: Event) {
    match e
    case OfGame(g) => !Spend.Wraps(w.game, g) && NamesRightly(w, g) && TellsTruly(w, g)
    case Arrives(p, _, _, _, _, _) => p in w.game.sent && p !in w.arrived && Payments.Possible(w.bridge, Request(e))
    case OfBridge(b) => Payments.Possible(w.bridge, b)
  }

  ghost function Next(w: World, e: Event): World {
    match e
    case OfGame(g) => w.(game := Spend.Next(w.game, g))
    case Arrives(p, _, want, _, _, _) =>
      World(w.game, Payments.Next(w.bridge, Request(e)), if Files(w, e) then w.filed[want.id := p] else w.filed,
            w.arrived + {p})
    case OfBridge(b) => w.(bridge := Payments.Next(w.bridge, b))
  }

  ghost predicate Leads(w: World, events: seq<Event>, end: World)
    decreases |events|
  {
    if events == [] then w == end
    else Possible(w, events[0]) && Leads(Next(w, events[0]), events[1..], end)
  }

  const EMPTY: World := World(Spend.EMPTY, Payments.EMPTY, map[], {})

  // ---- The invariant ----

  /** Every named request is filed under its name, and one the book holds as refused is
      one the bridge refused. */
  predicate Linked(l: Spend.Ledger, filed: map<Bytes, Attempt>, refused: set<Bytes>) {
    && (forall r :: r in l.pending ==> r.state !in {Spend.Denied, Spend.Expired})
    && (forall id :: id in l.records ==>
          && id in filed && filed[id] == (Spend.KeyOf(l.records[id]), l.records[id].attempt)
          && (l.records[id].state in {Spend.Denied, Spend.Expired} ==> id in refused))
  }

  predicate OneNameEach(filed: map<Bytes, Attempt>) {
    forall i, j :: i in filed && j in filed && filed[i] == filed[j] ==> i == j
  }

  ghost predicate Invariant(w: World) {
    && Spend.Invariant(w.game) && Payments.Invariant(w.bridge)
    && w.filed.Keys <= w.bridge.seen && OneNameEach(w.filed)
    && (forall id :: id in w.filed ==> w.filed[id] in w.arrived)
    && (forall p :: p in w.arrived ==> p in w.game.sent)
    && Linked(w.game.book.live, w.filed, w.bridge.refused)
    && Linked(w.game.book.file, w.filed, w.bridge.refused)
  }

  // ---- Each step ----

  lemma SaveLinks(s: Spend.BookState, l: Spend.Ledger, how: Write, filed: map<Bytes, Attempt>, refused: set<Bytes>)
    requires Linked(s.live, filed, refused) && Linked(s.file, filed, refused) && Linked(l, filed, refused)
    ensures
      var t := Spend.Save(s, l, how);
      Linked(t.live, filed, refused) && Linked(t.file, filed, refused)
  {
    hide Linked;
  }

  lemma PutLinks(l: Spend.Ledger, r: Spend.Record, filed: map<Bytes, Attempt>, refused: set<Bytes>)
    requires Linked(l, filed, refused)
    requires r.id == [] ==> r.state !in {Spend.Denied, Spend.Expired}
    requires r.id != [] ==> r.id in filed && filed[r.id] == (Spend.KeyOf(r), r.attempt)
    requires r.id != [] && r.state in {Spend.Denied, Spend.Expired} ==> r.id in refused
    ensures Linked(Spend.Put(l, r), filed, refused)
  {
  }

  lemma AdoptLinks(l: Spend.Ledger, r: Spend.Record, id: Bytes, filed: map<Bytes, Attempt>, refused: set<Bytes>)
    requires Linked(l, filed, refused) && r in l.pending && id != []
    requires id in filed && filed[id] == (Spend.KeyOf(r), r.attempt)
    ensures Linked(Spend.Ledger(l.records[id := r.(id := id)], l.pending - multiset{r}), filed, refused)
  {
  }

  lemma NotedStates(r: Spend.Record, a: Spend.Answer)
    requires Spend.Noted(r, a).Some?
    ensures Spend.Noted(r, a).value.state in {Spend.Denied, Spend.Expired} ==> SaysRefused(a)
  {
  }

  lemma BookLinks(w: World, e: Spend.Event)
    requires Invariant(w) && Possible(w, OfGame(e))
    ensures
      var s := Spend.OnBook(w.game.book, e);
      Linked(s.live, w.filed, w.bridge.refused) && Linked(s.file, w.filed, w.bridge.refused)
  {
    hide Linked, Spend.Chained, Spend.HasAttempt, Payments.Invariant, Spend.HasKey, Spend.Complete,
      Spend.Noted, Spend.Wraps;
    var s, l := w.game.book, w.game.book.live;
    var filed, refused := w.filed, w.bridge.refused;
    assert Spend.WellFormed(l) by { Spend.ChainedIsWellFormed(l); }
    match e
    case Asks(want, how) =>
      PutLinks(l, Spend.Asked(want), filed, refused);
      SaveLinks(s, Spend.Put(l, Spend.Asked(want).(state := Spend.Requested)), how, filed, refused);
    case Retries(id, how) =>
      if Spend.Retryable(l, id) {
        PutLinks(l, Spend.Again(l.records[id]), filed, refused);
        SaveLinks(s, Spend.Put(l, Spend.Again(l.records[id])), how, filed, refused);
      }
    case Adopts(table, purpose, id, how) =>
      if Spend.Adoptable(l, table, purpose, id) {
        var r := Spend.Waiting(l, table, purpose);
        AdoptLinks(l, r, id, filed, refused);
        SaveLinks(s, Spend.Ledger(l.records[id := r.(id := id)], l.pending - multiset{r}), how, filed, refused);
      }
    case Notes(id, a, how) =>
      if id in l.records && Spend.Noted(l.records[id], a).Some? {
        var r := Spend.Noted(l.records[id], a).value;
        Spend.NotedKeepsIdentity(l.records[id], a);
        NotedStates(l.records[id], a);
        RecordLinks(l, id, filed, refused);
        PutLinks(l, r, filed, refused);
        SaveLinks(s, Spend.Put(l, r), how, filed, refused);
      }
    case Locates(id, outpoint, how) =>
      if id in l.records {
        var r := l.records[id].(state := Spend.Located, outpoint := outpoint);
        RecordLinks(l, id, filed, refused);
        PutLinks(l, r, filed, refused);
        SaveLinks(s, Spend.Put(l, r), how, filed, refused);
      }
    case Sends(_) =>
    case Reopens =>
  }

  lemma RecordLinks(l: Spend.Ledger, id: Bytes, filed: map<Bytes, Attempt>, refused: set<Bytes>)
    requires Linked(l, filed, refused) && id in l.records
    ensures id in filed && filed[id] == (Spend.KeyOf(l.records[id]), l.records[id].attempt)
  {
  }

  lemma LinkedStays(l: Spend.Ledger, filed: map<Bytes, Attempt>, more: map<Bytes, Attempt>, refused: set<Bytes>,
      others: set<Bytes>)
    requires Linked(l, filed, refused) && refused <= others
    requires forall id :: id in filed ==> id in more && more[id] == filed[id]
    ensures Linked(l, more, others)
  {
  }

  /** The bridge remembers what it has filed and refused. */
  lemma BridgeRemembers(w: Payments.World, e: Payments.Event)
    ensures w.seen <= Payments.Next(w, e).seen && w.refused <= Payments.Next(w, e).refused
  {
    hide Payments.Rewrites, Payments.Calls, Cashier.TrimLog, Payments.Ids, Payments.Refusals;
  }

  lemma FiledIsSeen(w: World, e: Event)
    requires Files(w, e)
    ensures e.want.id in Payments.Next(w.bridge, Request(e)).seen
  {
    hide Cashier.Admits, Cashier.TrimLog, Cashier.Expire, Payments.Refusals;
    var log := Cashier.Expire(w.bridge.log, e.now) + [Payments.Filed(e.want)];
    assert Payments.Rewrites(w.bridge, Request(e)) == Some(log);
    assert log[|log| - 1] == Payments.Filed(e.want) && Payments.Filed(e.want) in log;
    assert e.want.id in Payments.Ids(log);
  }

  lemma SentStays(w: Spend.World, e: Spend.Event)
    ensures forall p :: p in w.sent ==> p in Spend.Next(w, e).sent
  {
    hide Spend.OnBook, Spend.Granted;
  }

  lemma NextKeeps(w: World, e: Event)
    requires Invariant(w) && Possible(w, e)
    ensures Invariant(Next(w, e))
  {
    hide Spend.Invariant, Payments.Invariant, Linked, Files, Spend.Wraps, Spend.Next, Payments.Next, Payments.Possible;
    match e
    case OfGame(g) =>
      Spend.NextKeeps(w.game, g);
      BookLinks(w, g);
      SentStays(w.game, g);
      assert Spend.Next(w.game, g).book == Spend.OnBook(w.game.book, g) by { NextBook(w.game, g); }
    case Arrives(p, _, want, _, _, _) =>
      var v := Next(w, e);
      Payments.NextKeeps(w.bridge, Request(e));
      BridgeRemembers(w.bridge, Request(e));
      assert want.id !in w.bridge.seen by { ArrivesFresh(w, e); }
      if Files(w, e) {
        FiledIsSeen(w, e);
      }
      LinkedStays(w.game.book.live, w.filed, v.filed, w.bridge.refused, v.bridge.refused);
      LinkedStays(w.game.book.file, w.filed, v.filed, w.bridge.refused, v.bridge.refused);
    case OfBridge(b) =>
      var v := Next(w, e);
      Payments.NextKeeps(w.bridge, b);
      BridgeRemembers(w.bridge, b);
      LinkedStays(w.game.book.live, w.filed, v.filed, w.bridge.refused, v.bridge.refused);
      LinkedStays(w.game.book.file, w.filed, v.filed, w.bridge.refused, v.bridge.refused);
  }

  lemma ArrivesFresh(w: World, e: Event)
    requires e.Arrives? && Possible(w, e)
    ensures e.want.id !in w.bridge.seen
  {
  }

  lemma NextBook(w: Spend.World, e: Spend.Event)
    ensures Spend.Next(w, e).book == Spend.OnBook(w.book, e)
  {
    hide Spend.Granted, Spend.Reserve, Spend.Retry, Spend.Adopt, Spend.Note, Spend.Locate;
  }

  lemma {:induction false} RunsKeep(w: World, events: seq<Event>, end: World)
    requires Invariant(w) && Leads(w, events, end)
    ensures Invariant(end)
    decreases |events|
  {
    hide Invariant, Next, Possible;
    if events != [] {
      NextKeeps(w, events[0]);
      RunsKeep(Next(w, events[0]), events[1..], end);
    }
  }

  /** A request filed for an attempt below another that was sent was refused by the
      bridge. */
  lemma LowerWasRefused(w: World, i: Bytes, k: Spend.Key, a: nat, b: nat)
    requires Invariant(w) && i in w.filed && w.filed[i] == (k, a) && a < b && (k, b) in w.game.sent
    ensures i in w.bridge.refused
  {
    hide Payments.Invariant, Spend.KeyOf;
    var l := w.game.book.live;
    assert Spend.HasAttempt(l, k, b);
    var r :| Spend.Holds(l, r) && Spend.KeyOf(r) == k && r.attempt == b;
    assert Spend.RefusedAttempt(l, Spend.KeyOf(r), a);
    var q :| Spend.Holds(l, q) && Spend.KeyOf(q) == k && q.attempt == a && Spend.ProvenUnpaid(q);
    assert q !in l.pending;
    assert w.filed[q.id] == w.filed[i];
  }

  lemma RefusedIsUnpublished(w: World)
    requires Invariant(w)
    ensures forall id :: id in w.bridge.refused ==> id !in w.bridge.published
  {
    hide Spend.Invariant, Linked, Payments.Awaiting, Cashier.DistinctIds, Payments.Refusals, Payments.Ids;
  }

  /** One payment, one request on the network: in every run of a game and its bridge,
      with answers lost, writes failing and both sides crashing and restarting, of all
      the requests ever filed for one table, purpose and seat at most one is ever handed
      to the network, and that one once. */
  lemma OnePaymentReachesTheNetwork(events: seq<Event>, end: World, i: Bytes, j: Bytes)
    requires Leads(EMPTY, events, end)
    requires i in end.bridge.published && j in end.bridge.published
    requires i in end.filed && j in end.filed && end.filed[i].0 == end.filed[j].0
    ensures i == j
    ensures forall n, m :: 0 <= n < m < |end.bridge.published| ==> end.bridge.published[n] != end.bridge.published[m]
  {
    hide Leads, Linked;
    assert Invariant(EMPTY) by { StartsLinked(); }
    RunsKeep(EMPTY, events, end);
    var k, a, b := end.filed[i].0, end.filed[i].1, end.filed[j].1;
    RefusedIsUnpublished(end);
    assert end.filed[i] == (k, a) && end.filed[j] == (k, b);
    if a < b {
      LowerWasRefused(end, i, k, a, b);
    } else if b < a {
      LowerWasRefused(end, j, k, b, a);
    }
  }

  lemma StartsLinked()
    ensures Invariant(EMPTY)
  {
  }
}
