/** Runs of the bridge's spend section: approvals in flight outside the lock,
    refusals, expiry, settings changes, the reconciling worker, writes that fail
    before or after the file changed, and crashes. */
module Payments {
  import opened ByteStrings
  import opened Cashier

  /** How far an approval has got: being signed, marked publishing, handed to
      the network. */
  datatype Phase = Signing | Marked | Out

  /** The file, the approvals running in this process, every identifier handed to
      the network so far, and every identifier ever filed, or filed as refused. */
  datatype World = World(log: Log, calls: map<Bytes, Phase>, published: seq<Bytes>, seen: set<Bytes>,
    refused: set<Bytes>)

  datatype Event =
    | Polls(now: int, how: Write)
    | Requests(settings: Settings, want: Entry, funded: bool, now: int, how: Write)
    | Denies(id: Bytes, now: int, how: Write)
    | Invalidates(games: set<Bytes>, reason: Bytes, now: int, how: Write)
    | Begins(settings: Settings, id: Bytes, now: int)
    | Stops(id: Bytes)
    | Marks(id: Bytes, now: int, how: Write)
    | Publishes(id: Bytes)
    | Records(id: Bytes, outcome: Status, txid: Bytes, error: Bytes, now: int, how: Write)
    | Reconciles(ids: set<Bytes>, outcome: Status, txid: Bytes, error: Bytes, now: int, how: Write)
    | Crashes

  function Ids(log: Log): set<Bytes> { set e | e in log :: e.id }
  function Awaiting(log: Log): set<Bytes> { set e | e in log && e.state == Pending :: e.id }
  function Refusals(log: Log): set<Bytes> { set e | e in log && e.state in {Denied, Expired} :: e.id }

  function File(w: World, log: Log, now: int, how: Write): World {
    if how == Lost then w
    else
      var kept := TrimLog(log, now);
      w.(log := kept, seen := w.seen + Ids(log), refused := w.refused + Refusals(log))
  }

  /** The worker closes what the chain has answered. */
  function Reconcile(e: Entry, ids: set<Bytes>, outcome: Status, txid: Bytes, error: Bytes, now: int): Entry {
    if e.id !in ids then e
    else if outcome == Approved && e.state in {Publishing, Pending}
      then e.(state := Approved, txid := txid, error := [], decidedAt := now)
    else if outcome == Failed && e.state in {Publishing, Pending, Approved}
      then e.(state := Failed, error := error, decidedAt := now)
    else e
  }

  function Filed(want: Entry): Entry { want.(state := Pending, txid := [], error := [], decidedAt := 0) }

  /** The log an event writes, if it writes one. */
  function Rewrites(w: World, e: Event): Option<Log> {
    match e
    case Polls(now, _) => if Expire(w.log, now) != w.log then Some(Expire(w.log, now)) else None
    case Requests(s, want, funded, now, _) =>
      var log := Expire(w.log, now);
      if Admits(s, log, want, funded, now) then Some(log + [Filed(want)])
      else if RequestCarried(s, want.game, want.address, want.atoms) && log != w.log
           && (exists i :: 0 <= i < |log| && Stands(log[i], want.deposit, funded)) then Some(log)
      else None
    case Denies(id, now, _) =>
      var log := Expire(w.log, now);
      var i := Index(log, id);
      if i < |log| && log[i].state == Pending && id !in w.calls
      then Some(log[i := log[i].(state := Denied, decidedAt := now)]) else None
    case Invalidates(games, reason, now, _) =>
      var log := Invalidate(Expire(w.log, now), games, now, reason);
      if log != w.log then Some(log) else None
    case Marks(id, now, _) =>
      var log := Expire(w.log, now);
      var i := Index(log, id);
      if id !in w.calls || w.calls[id] != Signing || i == |log| then None
      else if log[i].state == Pending then Some(log[i := log[i].(state := Publishing)])
      else if log != w.log then Some(log) else None
    case Records(id, outcome, txid, error, now, _) =>
      var i := Index(w.log, id);
      if id !in w.calls || w.calls[id] != Out || i == |w.log| || w.log[i].state != Publishing then None
      else Some(w.log[i := w.log[i].(state := outcome, txid := txid, error := error, decidedAt := now)])
    case Reconciles(ids, outcome, txid, error, now, _) =>
      Some(seq(|w.log|, i requires 0 <= i < |w.log| => Reconcile(w.log[i], ids, outcome, txid, error, now)))
    case _ => None
  }

  /** Whether an approval may start: pending, nobody else approving it, and the
      policy as it is now still carries it. */
  predicate MayBegin(w: World, s: Settings, id: Bytes, now: int) {
    var log := Expire(w.log, now);
    var i := Index(log, id);
    && i < |log| && log[i].state == Pending && id !in w.calls
    && RequestCarried(s, log[i].game, log[i].address, log[i].atoms)
    && CapsCarry(s, log, log[i].game, log[i].table, log[i].atoms, now, Some(id))
  }

  function WriteOf(e: Event): Write {
    if e.Polls? || e.Requests? || e.Denies? || e.Invalidates? || e.Marks? || e.Records? || e.Reconciles?
      then e.how else Lost
  }

  function TimeOf(e: Event): Option<int> {
    if e.Stops? || e.Publishes? || e.Crashes? then None else Some(e.now)
  }

  function Calls(w: World, e: Event): map<Bytes, Phase> {
    match e
    case Begins(s, id, now) => if MayBegin(w, s, id, now) then w.calls[id := Signing] else w.calls
    case Stops(id) => w.calls - {id}
    case Marks(id, now, how) =>
      var log := Expire(w.log, now);
      if id !in w.calls || w.calls[id] != Signing then w.calls
      else if how == Saved && Index(log, id) < |log| && log[Index(log, id)].state == Pending then w.calls[id := Marked]
      else w.calls - {id}
    case Publishes(id) => if id in w.calls && w.calls[id] == Marked then w.calls[id := Out] else w.calls
    case Records(id, _, _, _, _, _) => if id in w.calls && w.calls[id] == Out then w.calls - {id} else w.calls
    case Crashes => map[]
    case _ => w.calls
  }

  function Next(w: World, e: Event): World {
    var v :=
      match Rewrites(w, e)
      case None => w
      case Some(log) => File(w, log, if TimeOf(e).Some? then TimeOf(e).value else 0, WriteOf(e));
    v.(calls := Calls(w, e),
       published := if e.Publishes? && e.id in w.calls && w.calls[e.id] == Marked then w.published + [e.id]
         else w.published)
  }

  /** A request that becomes an entry is filed under an identifier not used before,
      and an outcome is approved, or publishing when the network did not say. */
  predicate Possible(w: World, e: Event) {
    && (e.Requests? ==> e.want.id !in w.seen && e.want.id !in w.calls)
    && (e.Records? ==> e.outcome in {Approved, Publishing})
  }

  ghost predicate Leads(w: World, events: seq<Event>, end: World)
    decreases |events|
  {
    if events == [] then w == end
    else Possible(w, events[0]) && Leads(Next(w, events[0]), events[1..], end)
  }

  const EMPTY: World := World([], map[], [], {}, {})

  // ---- At most once ----

  ghost predicate Invariant(w: World) {
    && DistinctIds(w.log)
    && Ids(w.log) <= w.seen && w.calls.Keys <= w.seen && w.refused <= w.seen
    && (forall id :: id in w.published ==> id in w.seen)
    && Refusals(w.log) <= w.refused
    && (forall id :: id in Awaiting(w.log) || id in w.refused ==>
          && id !in w.published
          && (id in w.calls ==> w.calls[id] == Signing))
    && Awaiting(w.log) !! w.refused
    && (forall id :: id in w.calls && w.calls[id] != Out ==> id !in w.published)
    && (forall i, j :: 0 <= i < j < |w.published| ==> w.published[i] != w.published[j])
  }

  /** What a log may become: no identifier twice, only new ones awaiting an
      answer that were not there, and only awaiting ones newly refused. */
  ghost predicate Evolves(log: Log, out: Log, added: set<Bytes>) {
    && DistinctIds(out)
    && Ids(out) <= Ids(log) + added
    && Awaiting(out) <= Awaiting(log) + added
    && Refusals(out) <= Refusals(log) + Awaiting(log)
    && Awaiting(out) !! Refusals(out)
  }

  /** Each entry stays, or leaves the state it awaited in. */
  predicate Follows(was: Entry, now: Entry) {
    && now.id == was.id
    && (now.state == Pending ==> was.state == Pending)
    && (now.state in {Denied, Expired} ==> was.state in {Pending, Denied, Expired})
  }

  lemma PointwiseEvolves(log: Log, out: Log)
    requires DistinctIds(log) && |out| == |log| && forall i :: 0 <= i < |log| ==> Follows(log[i], out[i])
    ensures Evolves(log, out, {})
  {
    forall e | e in out ensures e.id in Ids(log) && (e.state == Pending ==> e.id in Awaiting(log))
        && (e.state in {Denied, Expired} ==> e.id in Refusals(log) + Awaiting(log)) {
      var i :| 0 <= i < |out| && out[i] == e;
      assert log[i] in log;
    }
    DistinctSplits(out);
  }

  lemma DistinctSplits(log: Log)
    requires DistinctIds(log)
    ensures Awaiting(log) !! Refusals(log)
  {
    forall e, f | e in log && f in log && e.id == f.id ensures e == f {
      var i :| 0 <= i < |log| && log[i] == e;
      var j :| 0 <= j < |log| && log[j] == f;
    }
  }

  lemma AppendEvolves(log: Log, out: Log, e: Entry)
    requires DistinctIds(log) && |out| == |log| && forall i :: 0 <= i < |log| ==> Follows(log[i], out[i])
    requires e.id !in Ids(log) && e.state == Pending
    ensures Evolves(log, out + [e], {e.id})
  {
    PointwiseEvolves(log, out);
    var more := out + [e];
    forall i | 0 <= i < |out| ensures out[i].id != e.id {
      assert log[i] in log && log[i].id in Ids(log);
    }
    forall x ensures x in more <==> x in out || x == e {
    }
    assert Awaiting(more) == Awaiting(out) + {e.id};
    assert Refusals(more) == Refusals(out);
    assert Ids(more) == Ids(out) + {e.id};
    DistinctSplits(more);
  }

  /** Writing a log that evolved keeps the invariant, trimmed or not, whether the
      write succeeds, fails, or fails late. */
  lemma FileKeeps(w: World, out: Log, added: set<Bytes>, now: int, how: Write)
    requires Invariant(w) && Evolves(w.log, out, added)
    requires added !! w.seen
    ensures Invariant(File(w, out, now, how))
  {
    var v := File(w, out, now, how);
    if how != Lost {
      if |out| > MAX_LOG {
        DropIsPart(out, |out| - MAX_LOG, now);
      }
      assert forall e :: e in v.log ==> e in out;
      assert Ids(v.log) <= Ids(out) && Awaiting(v.log) <= Awaiting(out) && Refusals(v.log) <= Refusals(out);
      assert Ids(out) <= v.seen;
      assert Awaiting(w.log) <= Ids(w.log) && Refusals(out) <= Ids(out);
    }
  }

  lemma ExpireFollows(log: Log, now: int)
    ensures |Expire(log, now)| == |log| && forall i :: 0 <= i < |log| ==> Follows(log[i], Expire(log, now)[i])
  {
  }

  lemma RewritesFollow(w: World, e: Event)
    requires Invariant(w) && Possible(w, e) && Rewrites(w, e).Some?
    ensures Evolves(w.log, Rewrites(w, e).value, if e.Requests? then {e.want.id} else {})
         || Evolves(w.log, Rewrites(w, e).value, {})
  {
    hide Admits, RequestCarried, CapsCarry, Evolves, Invariant;
    assert DistinctIds(w.log) && Ids(w.log) <= w.seen by { Holds(w); }
    var out := Rewrites(w, e).value;
    if TimeOf(e).Some? {
      ExpireFollows(w.log, TimeOf(e).value);
    }
    if e.Requests? && Admits(e.settings, Expire(w.log, e.now), e.want, e.funded, e.now) {
      AppendEvolves(w.log, Expire(w.log, e.now), Filed(e.want));
    } else {
      PointwiseEvolves(w.log, out);
    }
  }

  lemma Holds(w: World)
    requires Invariant(w)
    ensures DistinctIds(w.log) && Ids(w.log) <= w.seen
  {
  }

  lemma AwaitsAt(log: Log, i: nat)
    requires i < |log| && log[i].state == Pending
    ensures log[i].id in Awaiting(log)
  {
    assert log[i] in log;
  }

  lemma OneEntryAtId(log: Log, i: nat)
    requires DistinctIds(log) && i < |log|
    ensures forall e :: e in log && e.id == log[i].id ==> e == log[i]
  {
  }

  /** Marked publishing on disk, it awaits no answer. */
  lemma MarkedAwaitsNothing(w: World, id: Bytes, now: int, out: Log)
    requires DistinctIds(w.log)
    requires
      var log := Expire(w.log, now);
      Index(log, id) < |log| && log[Index(log, id)].state == Pending
      && out == log[Index(log, id) := log[Index(log, id)].(state := Publishing)]
    ensures id in Awaiting(w.log) && id !in Awaiting(out) && id !in Refusals(out)
    ensures id !in Awaiting(TrimLog(out, now))
  {
    hide DistinctIds, Drop;
    var log := Expire(w.log, now);
    var i := Index(log, id);
    AwaitsAt(w.log, i);
    assert DistinctIds(out) by { SameIdsDistinct(w.log, out); }
    OneEntryAtId(out, i);
    if |out| > MAX_LOG {
      DropIsPart(out, |out| - MAX_LOG, now);
    }
  }

  lemma SameIdsDistinct(log: Log, out: Log)
    requires DistinctIds(log) && |out| == |log| && forall i :: 0 <= i < |log| ==> out[i].id == log[i].id
    ensures DistinctIds(out)
  {
  }

  lemma FileKeepsForEvent(w: World, e: Event)
    requires Invariant(w) && Possible(w, e)
    ensures
      var v := Next(w, e).(calls := w.calls, published := w.published);
      Invariant(v) && v.published == w.published && w.seen <= v.seen
  {
    hide Invariant, Evolves, Rewrites, Calls;
    if Rewrites(w, e).Some? {
      RewritesFollow(w, e);
      var out := Rewrites(w, e).value;
      var now := if TimeOf(e).Some? then TimeOf(e).value else 0;
      if e.Requests? && Evolves(w.log, out, {e.want.id}) {
        FileKeeps(w, out, {e.want.id}, now, WriteOf(e));
      } else {
        FileKeeps(w, out, {}, now, WriteOf(e));
      }
      assert Next(w, e).(calls := w.calls, published := w.published) == File(w, out, now, WriteOf(e));
    } else {
      assert Next(w, e).(calls := w.calls, published := w.published) == w;
    }
  }

  lemma NextKeeps(w: World, e: Event)
    requires Invariant(w) && Possible(w, e)
    ensures Invariant(Next(w, e))
  {
    hide Admits, RequestCarried, CapsCarry, Rewrites, TrimLog, Expire, DistinctIds;
    FileKeepsForEvent(w, e);
    var v := Next(w, e);
    match e
    case Marks(id, now, how) => MarkKeeps(w, id, now, how);
    case Begins(s, id, now) =>
      if MayBegin(w, s, id, now) {
        BeginsAwaiting(w, s, id, now);
        assert id in Ids(w.log);
      }
    case _ =>
  }

  lemma BeginsAwaiting(w: World, s: Settings, id: Bytes, now: int)
    requires MayBegin(w, s, id, now)
    ensures id in Awaiting(w.log) && id in Ids(w.log)
  {
    var i := Index(Expire(w.log, now), id);
    AwaitsAt(w.log, i);
  }

  lemma MarkKeeps(w: World, id: Bytes, now: int, how: Write)
    requires Invariant(w)
    requires
      var v := Next(w, Marks(id, now, how));
      Invariant(v.(calls := w.calls, published := w.published))
    ensures Invariant(Next(w, Marks(id, now, how)))
  {
    hide TrimLog, DistinctIds;
    var v := Next(w, Marks(id, now, how));
    if id in w.calls && w.calls[id] == Signing {
      var log := Expire(w.log, now);
      var i := Index(log, id);
      if how == Saved && i < |log| && log[i].state == Pending {
        var out := log[i := log[i].(state := Publishing)];
        Holds(w);
        MarkedAwaitsNothing(w, id, now, out);
      }
    }
  }

  lemma {:induction false} RunsKeep(w: World, events: seq<Event>, end: World)
    requires Invariant(w) && Leads(w, events, end)
    ensures Invariant(end)
    decreases |events|
  {
    hide Invariant, Possible, Next;
    if events != [] {
      NextKeeps(w, events[0]);
      RunsKeep(Next(w, events[0]), events[1..], end);
    }
  }

  /** At most once: in every run, no request is handed to the network twice, and
      none that was ever recorded denied or expired is handed to it at all. */
  lemma NothingIsPublishedTwice(events: seq<Event>, end: World)
    requires Leads(EMPTY, events, end)
    ensures forall i, j :: 0 <= i < j < |end.published| ==> end.published[i] != end.published[j]
    ensures forall id :: id in end.refused ==> id !in end.published
    ensures Refusals(end.log) <= end.refused
  {
    hide Leads;
    RunsKeep(EMPTY, events, end);
  }
}
