/** The record of money a game has asked the bridge to move: what each answer
    does to it, and what no run of asking, answering, retrying, failing to write
    and restarting can make it do. */
module Spend {
  import opened ByteStrings

  datatype State = Requested | Unknown | Approved | Located | Denied | Failed | Expired

  datatype Record = Record(
    deposit: Bytes, id: Bytes, obligation: Bytes, attempt: u32, table: Bytes, seat: nat, purpose: Bytes,
    address: Bytes, atoms: int, script: Bytes, state: State, txid: Bytes, outpoint: Bytes,
    error: Bytes, unreachable: Bytes)

  /** What the money is for: one table, one use, one seat. */
  datatype Key = Key(table: Bytes, purpose: Bytes, seat: nat)

  function KeyOf(r: Record): Key { Key(r.table, r.purpose, r.seat) }

  const ATTEMPTS: nat := 0x1_0000_0000

  predicate Open(s: State) { s in {Requested, Unknown, Approved} }

  predicate Terminal(s: State) { !Open(s) }

  predicate CanFollow(from: State, to: State) {
    from == to || (!Terminal(from) && (to == Located ==> from == Approved))
  }

  /** What asking the bridge brought back. */
  datatype Answer =
    | Unreachable(why: Bytes)
    | Trouble
    | Says(verdict: Verdict, txid: Bytes, error: Bytes)
  datatype Verdict = SaysPending | SaysApproved | SaysDenied | SaysFailed | SaysExpired | SaysElse

  // ---- The book ----

  /** Requests under the bridge's ids, and requests the bridge has not named. */
  datatype Ledger = Ledger(records: map<Bytes, Record>, pending: multiset<Record>)

  predicate WellFormed(l: Ledger) {
    && (forall id :: id in l.records ==> l.records[id].id == id && id != [])
    && (forall r :: r in l.pending ==> r.id == [])
  }

  /** No two unnamed requests are the same. */
  predicate Once(l: Ledger) { forall r :: r in l.pending ==> l.pending[r] == 1 }

  predicate Holds(l: Ledger, r: Record) {
    r in l.pending || (r.id in l.records && l.records[r.id] == r)
  }

  ghost predicate HasKey(l: Ledger, k: Key) { exists r :: Holds(l, r) && KeyOf(r) == k }

  /** The book in memory, whether a write has failed, and what the file holds. */
  datatype BookState = BookState(live: Ledger, fault: bool, file: Ledger)

  function Save(s: BookState, l: Ledger, how: Write): BookState {
    if s.fault then s
    else
      match how
      case Saved => s.(live := l, file := l)
      case Lost => s.(fault := true)
      case SavedLate => s.(fault := true, file := l)
  }

  predicate Saves(s: BookState, how: Write) { !s.fault && how == Saved }

  function Put(l: Ledger, r: Record): Ledger {
    if r.id == [] then l.(pending := l.pending + multiset{r}) else l.(records := l.records[r.id := r])
  }

  // ---- Reserving and retrying ----

  predicate Complete(w: Record) {
    w.table != [] && w.purpose != [] && w.address != [] && w.atoms > 0 && w.obligation != []
  }

  function Lower(s: Bytes): Bytes {
    seq(|s|, i requires 0 <= i < |s| => if 65 <= s[i] < 91 then s[i] + 32 else s[i])
  }

  /** The same payment: to the same place, of the same amount, under the same terms. */
  predicate Agrees(was: Record, w: Record) {
    was.address == w.address && was.atoms == w.atoms && Lower(was.script) == Lower(w.script) &&
    (was.obligation == [] || was.obligation == w.obligation)
  }

  ghost predicate Reservable(l: Ledger, w: Record) { Complete(w) && !HasKey(l, KeyOf(w)) }

  ghost function Reserve(s: BookState, w: Record, how: Write): BookState {
    if Reservable(s.live, w) then Save(s, Put(s.live, w.(state := Requested)), how) else s
  }

  /** Refused for good, with no sign of a payment. */
  predicate ProvenUnpaid(r: Record) { r.state in {Denied, Expired} && r.txid == [] && r.outpoint == [] }

  ghost predicate Retryable(l: Ledger, id: Bytes) {
    && id in l.records && ProvenUnpaid(l.records[id])
    && forall r :: Holds(l, r) && KeyOf(r) == KeyOf(l.records[id]) ==> r.attempt <= l.records[id].attempt
  }

  /** The next attempt; its number is a 32-bit counter. */
  function Again(was: Record): Record {
    was.(id := [], attempt := (was.attempt + 1) % ATTEMPTS, state := Requested, error := [], unreachable := [])
  }

  ghost function Retry(s: BookState, id: Bytes, how: Write): BookState {
    if Retryable(s.live, id) then Save(s, Put(s.live, Again(s.live.records[id])), how) else s
  }

  // ---- Answers ----

  predicate Waits(r: Record, table: Bytes, purpose: Bytes) { r.table == table && r.purpose == purpose }

  /** The one unnamed request for this use of this table. */
  ghost predicate OnlyWaiting(l: Ledger, table: Bytes, purpose: Bytes, r: Record) {
    && r in l.pending && l.pending[r] == 1 && Waits(r, table, purpose)
    && forall q :: q in l.pending && Waits(q, table, purpose) ==> q == r
  }

  ghost predicate Adoptable(l: Ledger, table: Bytes, purpose: Bytes, id: Bytes) {
    id != [] && id !in l.records && exists r :: OnlyWaiting(l, table, purpose, r)
  }

  ghost function Waiting(l: Ledger, table: Bytes, purpose: Bytes): (r: Record)
    requires exists r :: OnlyWaiting(l, table, purpose, r)
    ensures OnlyWaiting(l, table, purpose, r)
  {
    var r :| OnlyWaiting(l, table, purpose, r);
    r
  }

  ghost function Adopt(s: BookState, table: Bytes, purpose: Bytes, id: Bytes, how: Write): BookState {
    if Adoptable(s.live, table, purpose, id) then
      var r := Waiting(s.live, table, purpose);
      Save(s, Ledger(s.live.records[id := r.(id := id)], s.live.pending - multiset{r}), how)
    else s
  }

  function StateFor(v: Verdict): Option<(State, bool)> {
    match v
    case SaysPending => Some((Requested, false))
    case SaysApproved => Some((Approved, false))
    case SaysDenied => Some((Denied, true))
    case SaysFailed => Some((Failed, true))
    case SaysExpired => Some((Expired, true))
    case SaysElse => None
  }

  /** What an answer makes of a request, if it makes anything. */
  function Noted(r: Record, a: Answer): Option<Record> {
    if Terminal(r.state) then None
    else
      match a
      case Trouble => None
      case Unreachable(why) =>
        Some(if r.state == Approved then r.(unreachable := why) else r.(unreachable := why, state := Unknown))
      case Says(v, txid, error) =>
        match StateFor(v)
        case None => None
        case Some((next, reason)) =>
          if !CanFollow(r.state, next) then None
          else
            Some(r.(unreachable := [], state := next,
                    txid := if txid != [] then txid else r.txid,
                    error := if reason then error else r.error))
  }

  function Note(s: BookState, id: Bytes, a: Answer, how: Write): BookState {
    if id !in s.live.records || Noted(s.live.records[id], a).None? then s
    else Save(s, Put(s.live, Noted(s.live.records[id], a).value), how)
  }

  function Locate(s: BookState, id: Bytes, outpoint: Bytes, how: Write): BookState {
    if Blank(outpoint) || id !in s.live.records || !CanFollow(s.live.records[id].state, Located) then s
    else Save(s, Put(s.live, s.live.records[id].(state := Located, outpoint := outpoint)), how)
  }

  // ---- The attempts at one payment ----

  ghost predicate HasAttempt(l: Ledger, k: Key, a: nat) {
    exists r :: Holds(l, r) && KeyOf(r) == k && r.attempt == a
  }

  /** This attempt was made and refused, for good and unpaid. */
  ghost predicate RefusedAttempt(l: Ledger, k: Key, a: nat) {
    exists r :: Holds(l, r) && KeyOf(r) == k && r.attempt == a && ProvenUnpaid(r)
  }

  /** The attempts at each payment are 0 to n, each made once, and every one
      below the last was refused for good before the next was made. */
  ghost predicate Chained(l: Ledger) {
    && WellFormed(l) && Once(l)
    && (forall r, q :: Holds(l, r) && Holds(l, q) && KeyOf(r) == KeyOf(q) && r.attempt == q.attempt ==> r == q)
    && (forall r, a :: Holds(l, r) && 0 <= a < r.attempt ==> RefusedAttempt(l, KeyOf(r), a))
  }

  // ---- Runs ----

  /** A payment a game asks for: everything else of its record starts empty. */
  datatype Want = Want(deposit: Bytes, obligation: Bytes, key: Key, address: Bytes, atoms: int, script: Bytes)

  function Asked(w: Want): Record {
    Record(w.deposit, [], w.obligation, 0, w.key.table, w.key.seat, w.key.purpose, w.address, w.atoms, w.script,
      Requested, [], [], [], [])
  }

  /** One process and its bridge. A permit is the right to send one attempt once;
      it lives in the call that was granted it, and dies with the process. */
  datatype World = World(book: BookState, permits: set<(Key, nat)>, sent: seq<(Key, nat)>)

  datatype Event =
    | Asks(want: Want, how: Write)
    | Retries(id: Bytes, how: Write)
    | Adopts(table: Bytes, purpose: Bytes, id: Bytes, how: Write)
    | Notes(id: Bytes, answer: Answer, how: Write)
    | Locates(id: Bytes, outpoint: Bytes, how: Write)
    | Sends(permit: (Key, nat))
    | Reopens

  ghost function Granted(s: BookState, e: Event): set<(Key, nat)> {
    match e
    case Asks(w, how) => if Reservable(s.live, Asked(w)) && Saves(s, how) then {(w.key, 0)} else {}
    case Retries(id, how) =>
      if Retryable(s.live, id) && Saves(s, how)
        then {(KeyOf(s.live.records[id]), Again(s.live.records[id]).attempt)} else {}
    case _ => {}
  }

  ghost function OnBook(s: BookState, e: Event): BookState {
    match e
    case Asks(w, how) => Reserve(s, Asked(w), how)
    case Retries(id, how) => Retry(s, id, how)
    case Adopts(table, purpose, id, how) => Adopt(s, table, purpose, id, how)
    case Notes(id, a, how) => Note(s, id, a, how)
    case Locates(id, outpoint, how) => Locate(s, id, outpoint, how)
    case Sends(_) => s
    case Reopens => BookState(s.file, false, s.file)
  }

  ghost function Next(w: World, e: Event): World {
    var book := OnBook(w.book, e);
    match e
    case Sends(p) => if p in w.permits then World(book, w.permits - {p}, w.sent + [p]) else w
    case Reopens => World(book, {}, w.sent)
    case _ => World(book, w.permits + Granted(w.book, e), w.sent)
  }

  ghost function Run(w: World, events: seq<Event>): World
    decreases |events|
  {
    if events == [] then w else Run(Next(w, events[0]), events[1..])
  }

  const EMPTY: World := World(BookState(Ledger(map[], multiset{}), false, Ledger(map[], multiset{})), {}, [])

  // ---- One ledger to the next ----

  /** A ledger goes on from another: every refused attempt stays refused, every
      attempt stays, and at most one attempt is new. */
  ghost predicate GoesOn(l: Ledger, m: Ledger) {
    && (forall k, a :: RefusedAttempt(l, k, a) ==> RefusedAttempt(m, k, a))
    && (forall k, a :: HasAttempt(l, k, a) ==> HasAttempt(m, k, a))
  }

  /** One request gives way to another of the same payment and attempt. */
  lemma ReplaceKeepsChain(l: Ledger, m: Ledger, was: Record, now: Record)
    requires Chained(l) && Holds(l, was) && WellFormed(m) && Once(m)
    requires forall p :: Holds(m, p) <==> p == now || (Holds(l, p) && p != was)
    requires KeyOf(now) == KeyOf(was) && now.attempt == was.attempt && (ProvenUnpaid(was) ==> ProvenUnpaid(now))
    ensures Chained(m) && GoesOn(l, m)
  {
    hide Holds, KeyOf, ProvenUnpaid, WellFormed;
    forall k, a | RefusedAttempt(l, k, a) ensures RefusedAttempt(m, k, a) {
      var r :| Holds(l, r) && KeyOf(r) == k && r.attempt == a && ProvenUnpaid(r);
      assert Holds(m, if r == was then now else r);
    }
    forall k, a | HasAttempt(l, k, a) ensures HasAttempt(m, k, a) {
      var r :| Holds(l, r) && KeyOf(r) == k && r.attempt == a;
      assert Holds(m, if r == was then now else r);
    }
    forall r, a | Holds(m, r) && 0 <= a < r.attempt ensures RefusedAttempt(m, KeyOf(r), a) {
      assert RefusedAttempt(l, KeyOf(r), a);
    }
  }

  /** Changing a request that was not refused for good, and nothing of its identity. */
  lemma ChangeKeepsChain(l: Ledger, r: Record)
    requires Chained(l) && r.id in l.records
    requires
      var was := l.records[r.id];
      KeyOf(r) == KeyOf(was) && r.attempt == was.attempt && !ProvenUnpaid(was)
    ensures Chained(Put(l, r)) && GoesOn(l, Put(l, r))
  {
    hide KeyOf, ProvenUnpaid, GoesOn, RefusedAttempt;
    ReplaceKeepsChain(l, Put(l, r), l.records[r.id], r);
  }

  /** A new attempt that continues its payment's chain. */
  lemma AppendKeepsChain(l: Ledger, r: Record)
    requires Chained(l) && r.id == []
    requires !HasAttempt(l, KeyOf(r), r.attempt)
    requires forall a :: 0 <= a < r.attempt ==> RefusedAttempt(l, KeyOf(r), a)
    ensures Chained(Put(l, r)) && GoesOn(l, Put(l, r))
    ensures HasAttempt(Put(l, r), KeyOf(r), r.attempt)
  {
    hide KeyOf, ProvenUnpaid;
    PutHolds(l, r);
    HeldStaysHeld(l, Put(l, r));
    assert Holds(Put(l, r), r);
  }

  lemma PutHolds(l: Ledger, r: Record)
    requires r.id == [] && WellFormed(l)
    ensures forall p :: Holds(Put(l, r), p) <==> p == r || Holds(l, p)
    ensures WellFormed(Put(l, r)) && (Once(l) && !Holds(l, r) ==> Once(Put(l, r)))
  {
  }

  lemma HeldStaysHeld(l: Ledger, m: Ledger)
    requires forall p :: Holds(l, p) ==> Holds(m, p)
    ensures GoesOn(l, m)
  {
    hide Holds, KeyOf, ProvenUnpaid;
    forall k, a | RefusedAttempt(l, k, a) ensures RefusedAttempt(m, k, a) {
      var r :| Holds(l, r) && KeyOf(r) == k && r.attempt == a && ProvenUnpaid(r);
      assert Holds(m, r);
    }
    forall k, a | HasAttempt(l, k, a) ensures HasAttempt(m, k, a) {
      var r :| Holds(l, r) && KeyOf(r) == k && r.attempt == a;
      assert Holds(m, r);
    }
  }

  lemma ReserveKeepsChain(l: Ledger, w: Want)
    requires Chained(l) && Reservable(l, Asked(w))
    ensures
      var m := Put(l, Asked(w));
      Chained(m) && GoesOn(l, m) && !HasAttempt(l, w.key, 0) && HasAttempt(m, w.key, 0)
  {
    assert KeyOf(Asked(w)) == w.key;
    AppendKeepsChain(l, Asked(w));
  }

  lemma RetryKeepsChain(l: Ledger, id: Bytes)
    requires Chained(l) && Retryable(l, id) && l.records[id].attempt + 1 < ATTEMPTS
    ensures
      var r := Again(l.records[id]);
      var m := Put(l, r);
      Chained(m) && GoesOn(l, m) && !HasAttempt(l, KeyOf(r), r.attempt) && HasAttempt(m, KeyOf(r), r.attempt)
  {
    var was := l.records[id];
    var r := Again(was);
    assert r.attempt == was.attempt + 1 && KeyOf(r) == KeyOf(was);
    assert Holds(l, was);
    forall a | 0 <= a < r.attempt ensures RefusedAttempt(l, KeyOf(r), a) {
      if a == was.attempt {
        assert id in l.records && ProvenUnpaid(l.records[id]);
      }
    }
    AppendKeepsChain(l, r);
  }

  lemma AdoptKeepsChain(l: Ledger, r: Record, id: Bytes)
    requires Chained(l) && r in l.pending && id != [] && id !in l.records
    ensures
      var m := Ledger(l.records[id := r.(id := id)], l.pending - multiset{r});
      Chained(m) && GoesOn(l, m)
  {
    hide GoesOn, RefusedAttempt;
    var now := r.(id := id);
    ReplaceKeepsChain(l, Ledger(l.records[id := now], l.pending - multiset{r}), r, now);
  }

  // ---- Every run ----

  ghost predicate Invariant(w: World) {
    && Chained(w.book.live) && Chained(w.book.file)
    && (forall p :: p in w.permits || p in w.sent ==>
          HasAttempt(w.book.live, p.0, p.1) && HasAttempt(w.book.file, p.0, p.1))
    && (forall p :: p in w.permits ==> p !in w.sent)
    && (forall i, j :: 0 <= i < j < |w.sent| ==> w.sent[i] != w.sent[j])
  }

  /** What an event would have the book become, before the write's own fate. */
  lemma SaveKeeps(w: World, l: Ledger, how: Write, granted: set<(Key, nat)>)
    requires Invariant(w) && Chained(l) && GoesOn(w.book.live, l)
    requires forall p :: p in granted ==>
      Saves(w.book, how) && !HasAttempt(w.book.live, p.0, p.1) && HasAttempt(l, p.0, p.1)
    ensures Invariant(World(Save(w.book, l, how), w.permits + granted, w.sent))
  {
    hide Chained, HasAttempt, RefusedAttempt;
  }

  lemma NotedKeepsIdentity(r: Record, a: Answer)
    ensures
      var q := Noted(r, a);
      q.Some? ==>
        && q.value.id == r.id && KeyOf(q.value) == KeyOf(r) && q.value.attempt == r.attempt && !ProvenUnpaid(r)
        && q.value == r.(state := q.value.state, txid := q.value.txid, error := q.value.error,
             unreachable := q.value.unreachable)
  {
  }

  lemma AnswerKeeps(w: World, e: Event)
    requires Invariant(w) && (e.Adopts? || e.Notes? || e.Locates?)
    ensures Invariant(Next(w, e))
  {
    hide Chained, HasAttempt, RefusedAttempt, Noted, KeyOf;
    var l := w.book.live;
    assert w.permits + {} == w.permits;
    ChainedIsWellFormed(l);
    match e
    case Adopts(table, purpose, id, how) =>
      if Adoptable(l, table, purpose, id) {
        var r := Waiting(l, table, purpose);
        AdoptKeepsChain(l, r, id);
        SaveKeeps(w, Ledger(l.records[id := r.(id := id)], l.pending - multiset{r}), how, {});
      }
    case Notes(id, a, how) =>
      if id in l.records && Noted(l.records[id], a).Some? {
        NotedKeepsIdentity(l.records[id], a);
        ChangeKeepsChain(l, Noted(l.records[id], a).value);
        SaveKeeps(w, Put(l, Noted(l.records[id], a).value), how, {});
      }
    case Locates(id, outpoint, how) =>
      if id in l.records && CanFollow(l.records[id].state, Located) {
        var r := l.records[id].(state := Located, outpoint := outpoint);
        SameKey(l.records[id], r);
        ChangeKeepsChain(l, r);
        SaveKeeps(w, Put(l, r), how, {});
      }
  }

  lemma ChainedIsWellFormed(l: Ledger)
    requires Chained(l)
    ensures WellFormed(l)
  {
  }

  lemma SameKey(r: Record, q: Record)
    requires r.table == q.table && r.purpose == q.purpose && r.seat == q.seat
    ensures KeyOf(r) == KeyOf(q)
  {
  }

  /** The one step that breaks the chain: a retry that is permitted and reaches the
      file, of the attempt with the greatest number there is. */
  ghost predicate Wraps(w: World, e: Event) {
    && e.Retries? && Retryable(w.book.live, e.id) && w.book.live.records[e.id].attempt + 1 == ATTEMPTS
    && !w.book.fault && e.how != Lost
  }

  lemma NextKeeps(w: World, e: Event)
    requires Invariant(w) && !Wraps(w, e)
    ensures Invariant(Next(w, e))
  {
    hide Chained, HasAttempt, RefusedAttempt, KeyOf, Complete, HasKey, Retryable;
    match e
    case Asks(want, how) =>
      assert w.permits + {} == w.permits;
      if Reservable(w.book.live, Asked(want)) {
        ReserveKeepsChain(w.book.live, want);
        SaveKeeps(w, Put(w.book.live, Asked(want)), how, Granted(w.book, e));
      }
    case Retries(id, how) =>
      assert w.permits + {} == w.permits;
      if Retryable(w.book.live, id) {
        RetriesNamed(w.book.live, id);
        if w.book.live.records[id].attempt + 1 < ATTEMPTS {
          RetryKeepsChain(w.book.live, id);
          AgainKeepsKey(w.book.live.records[id]);
          SaveKeeps(w, Put(w.book.live, Again(w.book.live.records[id])), how, Granted(w.book, e));
        }
      }
    case Sends(p) =>
    case Reopens =>
    case _ => AnswerKeeps(w, e);
  }

  lemma RetriesNamed(l: Ledger, id: Bytes)
    requires Retryable(l, id)
    ensures id in l.records
  {
  }

  lemma AgainKeepsKey(r: Record)
    ensures KeyOf(Again(r)) == KeyOf(r)
  {
  }

  lemma WrappingBreaksTheChain(w: World, e: Event)
    requires Invariant(w) && Wraps(w, e)
    ensures !Chained(Next(w, e).book.file)
  {
    hide Chained, HasAttempt, KeyOf;
    RetryContinuesUnlessCounterWraps(w.book.live, e.id);
  }

  /** No step of a run is a retry past the counter's end. */
  ghost predicate NeverWraps(w: World, events: seq<Event>)
    decreases |events|
  {
    events == [] || (!Wraps(w, events[0]) && NeverWraps(Next(w, events[0]), events[1..]))
  }

  /** The file holds a chained book after every step of a run. */
  ghost predicate StaysChained(w: World, events: seq<Event>)
    decreases |events|
  {
    Chained(w.book.file) && (events == [] || StaysChained(Next(w, events[0]), events[1..]))
  }

  lemma {:induction false} RunKeeps(w: World, events: seq<Event>)
    requires Invariant(w) && NeverWraps(w, events)
    ensures Invariant(Run(w, events))
    decreases |events|
  {
    hide Invariant, Next, Wraps;
    if events != [] {
      NextKeeps(w, events[0]);
      RunKeeps(Next(w, events[0]), events[1..]);
    }
  }

  lemma {:induction false} RunStaysChained(w: World, events: seq<Event>)
    requires Invariant(w)
    ensures StaysChained(w, events) <==> NeverWraps(w, events)
    decreases |events|
  {
    hide Chained, Next, Wraps;
    if events != [] {
      var v := Next(w, events[0]);
      if Wraps(w, events[0]) {
        WrappingBreaksTheChain(w, events[0]);
        assert !StaysChained(v, events[1..]);
      } else {
        NextKeeps(w, events[0]);
        RunStaysChained(v, events[1..]);
      }
    }
  }

  /** In words of one payment: a request that is not its payment's last attempt was denied
      or expired, and names no transaction and no output; only the last can still move
      money. */
  lemma OnlyTheLastAttemptIsAlive(l: Ledger, r: Record, q: Record)
    requires Chained(l) && Holds(l, r) && Holds(l, q) && KeyOf(r) == KeyOf(q) && r.attempt < q.attempt
    ensures r.state in {Denied, Expired} && r.txid == [] && r.outpoint == [] && Terminal(r.state)
  {
    hide KeyOf, ProvenUnpaid, Holds;
    assert RefusedAttempt(l, KeyOf(q), r.attempt);
    Refusal(r);
  }

  lemma Refusal(r: Record)
    requires ProvenUnpaid(r)
    ensures r.state in {Denied, Expired} && r.txid == [] && r.outpoint == [] && Terminal(r.state)
  {
  }

  lemma EmptyIsChained()
    ensures Invariant(EMPTY)
  {
  }

  /** No payment is dispatched twice: in every run from an empty book, whatever
      answers come, writes fail and restarts happen, the attempts at one payment
      are 0 to n without a repeat, each below the last was refused for good with
      no transaction and no output, and each is sent to the bridge at most once.
      The attempt number is a 32-bit counter, so this is of the runs that never
      retry the attempt with the greatest number; of those, and of no others, the
      file holds such a book after every step. */
  lemma NothingIsPaidTwice(events: seq<Event>)
    ensures StaysChained(EMPTY, events) <==> NeverWraps(EMPTY, events)
    ensures NeverWraps(EMPTY, events) ==>
      var w := Run(EMPTY, events);
      && Chained(w.book.live) && Chained(w.book.file)
      && (forall i, j :: 0 <= i < j < |w.sent| ==> w.sent[i] != w.sent[j])
      && (forall p :: p in w.sent ==> HasAttempt(w.book.live, p.0, p.1) && HasAttempt(w.book.file, p.0, p.1))
      && (forall l, r, q ::
            l in {w.book.live, w.book.file} && Holds(l, r) && Holds(l, q) && KeyOf(r) == KeyOf(q)
              && r.attempt < q.attempt
            ==> r.state in {Denied, Expired} && r.txid == [] && r.outpoint == [])
  {
    hide Run, NeverWraps, StaysChained, Chained, Holds, KeyOf;
    assert Invariant(EMPTY) by { EmptyIsChained(); }
    RunStaysChained(EMPTY, events);
    if NeverWraps(EMPTY, events) {
      RunKeeps(EMPTY, events);
      var w := Run(EMPTY, events);
      forall l, r, q | l in {w.book.live, w.book.file} && Holds(l, r) && Holds(l, q) && KeyOf(r) == KeyOf(q)
          && r.attempt < q.attempt
        ensures r.state in {Denied, Expired} && r.txid == [] && r.outpoint == []
      {
        OnlyTheLastAttemptIsAlive(l, r, q);
      }
    }
  }

  /** The attempt counter is 32 bits wide, so retrying continues the chain exactly
      when the last attempt's number is not the greatest one. */
  lemma RetryContinuesUnlessCounterWraps(l: Ledger, id: Bytes)
    requires Chained(l) && Retryable(l, id)
    ensures Chained(Put(l, Again(l.records[id]))) <==> l.records[id].attempt + 1 < ATTEMPTS
  {
    hide RefusedAttempt, HasAttempt;
    var was := l.records[id];
    var r, m := Again(was), Put(l, Again(was));
    assert Holds(l, was) && KeyOf(r) == KeyOf(was);
    if was.attempt + 1 < ATTEMPTS {
      RetryKeepsChain(l, id);
    } else {
      FirstWasRefused(l, was);
      var q :| Holds(l, q) && KeyOf(q) == KeyOf(was) && q.attempt == 0 && ProvenUnpaid(q);
      PutHolds(l, r);
      assert Holds(m, q) && Holds(m, r) && q != r;
    }
  }

  lemma FirstWasRefused(l: Ledger, r: Record)
    requires Chained(l) && Holds(l, r) && r.attempt > 0
    ensures exists q :: Holds(l, q) && KeyOf(q) == KeyOf(r) && q.attempt == 0 && ProvenUnpaid(q)
  {
    assert RefusedAttempt(l, KeyOf(r), 0);
  }
}
