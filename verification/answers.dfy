/** What an answer may do to a request, and the two ways not to get a yes: a refusal
    closes it for good, and a bridge that cannot be reached closes nothing. */
module Answers {
  import opened ByteStrings
  import opened Spend

  /** Money may still move, so the bridge must still be asked. */
  predicate Alive(r: Record) { r.state in {Requested, Unknown, Approved} }

  /** The bridge said no, or tried and failed, or nobody answered it in time. */
  predicate Shut(r: Record) { r.state in {Denied, Failed, Expired} }

  predicate Refuses(a: Answer) { a.Says? && a.verdict in {SaysDenied, SaysFailed, SaysExpired} }

  // ---- One answer ----

  /** Only a refusal closes an open request; not being reached, or trouble that is no
      answer, leaves it open. */
  lemma OnlyRefusalsClose(r: Record, a: Answer)
    requires Noted(r, a).Some?
    ensures Alive(r)
    ensures Alive(Noted(r, a).value) <==> !Refuses(a)
    ensures Shut(Noted(r, a).value) <==> Refuses(a)
  {
  }

  /** What each answer makes of an open request. */
  lemma AnswersTell(r: Record, txid: Bytes, error: Bytes, why: Bytes)
    requires Alive(r)
    ensures forall v, s :: (v, s) in {(SaysPending, Requested), (SaysApproved, Approved), (SaysDenied, Denied),
      (SaysFailed, Failed), (SaysExpired, Expired)} ==>
        && Noted(r, Says(v, txid, error)).Some?
        && Noted(r, Says(v, txid, error)).value.state == s
        && Noted(r, Says(v, txid, error)).value.txid == (if txid == [] then r.txid else txid)
        && Noted(r, Says(v, txid, error)).value.unreachable == []
        && Noted(r, Says(v, txid, error)).value.error == (if s in {Denied, Failed, Expired} then error else r.error)
    ensures
      Noted(r, Unreachable(why)) ==
        Some(r.(unreachable := why, state := if r.state == Approved then Approved else Unknown))
    ensures Noted(r, Trouble).None? && Noted(r, Says(SaysElse, txid, error)).None?
  {
    forall v, s | (v, s) in {(SaysPending, Requested), (SaysApproved, Approved), (SaysDenied, Denied),
      (SaysFailed, Failed), (SaysExpired, Expired)}
      ensures StateFor(v) == Some((s, s in {Denied, Failed, Expired}))
    {
    }
  }

  /** Only an approved payment is located, and a located one may be located anew. */
  lemma OnlyPaidIsLocated(s: BookState, id: Bytes, outpoint: Bytes)
    requires WellFormed(s.live) && !s.fault && id in s.live.records && !Blank(outpoint)
    ensures
      var r := s.live.records[id];
      Locate(s, id, outpoint, Saved).live.records[id] ==
        if r.state in {Approved, Located} then r.(state := Located, outpoint := outpoint) else r
  {
  }

  // ---- Runs ----

  /** What the book says of a request in memory and in the file. */
  predicate Both(s: BookState, id: Bytes, holds: Record -> bool) {
    && id in s.live.records && holds(s.live.records[id])
    && id in s.file.records && holds(s.file.records[id])
  }

  predicate Ordinary(s: BookState) { WellFormed(s.live) && WellFormed(s.file) }

  /** The event closes the request, or finds its output. */
  predicate Decides(e: Event, id: Bytes) {
    (e.Notes? && e.id == id && Refuses(e.answer)) || (e.Locates? && e.id == id)
  }

  /** A ledger to write in which a request still says this. */
  predicate Carries(l: Ledger, id: Bytes, holds: Record -> bool) {
    WellFormed(l) && id in l.records && holds(l.records[id])
  }

  lemma SaveStays(s: BookState, l: Ledger, how: Write, id: Bytes, holds: Record -> bool)
    requires Ordinary(s) && Both(s, id, holds) && Carries(l, id, holds)
    ensures Ordinary(Save(s, l, how)) && Both(Save(s, l, how), id, holds)
  {
  }

  lemma PutStays(l: Ledger, r: Record, id: Bytes, holds: Record -> bool)
    requires Carries(l, id, holds) && (r.id == id ==> holds(r))
    ensures Carries(Put(l, r), id, holds)
  {
  }

  lemma AdoptStays(l: Ledger, r: Record, id: Bytes, name: Bytes, holds: Record -> bool)
    requires Carries(l, id, holds) && name != [] && name !in l.records
    ensures Carries(Ledger(l.records[name := r.(id := name)], l.pending - multiset{r}), id, holds)
  {
  }

  /** An event keeps what it does not change: what a request says stays as long as its
      own answers and outputs keep it so. */
  lemma NextStays(w: World, e: Event, id: Bytes, holds: Record -> bool)
    requires Ordinary(w.book) && Both(w.book, id, holds)
    requires e.Notes? && e.id == id ==> forall r :: holds(r) && Noted(r, e.answer).Some? ==>
      holds(Noted(r, e.answer).value)
    requires e.Locates? && e.id == id ==> forall r :: holds(r) && CanFollow(r.state, Located) ==>
      holds(r.(state := Located, outpoint := e.outpoint))
    ensures Ordinary(Next(w, e).book) && Both(Next(w, e).book, id, holds)
  {
    hide Save, Put, Noted, CanFollow, WellFormed, Retryable, Reservable, Granted;
    var s := w.book;
    var l := s.live;
    match e
    case Asks(want, how) =>
      NamesAreSome(l, id);
      PutStays(l, Asked(want).(state := Requested), id, holds);
      SaveStays(s, Put(l, Asked(want).(state := Requested)), how, id, holds);
    case Retries(of, how) =>
      if Retryable(l, of) {
        RetriesHeld(l, of);
        NamesAreSome(l, id);
        PutStays(l, Again(l.records[of]), id, holds);
        SaveStays(s, Put(l, Again(l.records[of])), how, id, holds);
      }
    case Adopts(table, purpose, name, how) =>
      if Adoptable(l, table, purpose, name) {
        var r := Waiting(l, table, purpose);
        AdoptStays(l, r, id, name, holds);
        SaveStays(s, Ledger(l.records[name := r.(id := name)], l.pending - multiset{r}), how, id, holds);
      }
    case Notes(of, a, how) =>
      if of in l.records && Noted(l.records[of], a).Some? {
        var r := Noted(l.records[of], a).value;
        NotedKeepsName(l, of, a);
        PutStays(l, r, id, holds);
        SaveStays(s, Put(l, r), how, id, holds);
      }
    case Locates(of, outpoint, how) =>
      if of in l.records && CanFollow(l.records[of].state, Located) {
        var r := l.records[of].(state := Located, outpoint := outpoint);
        assert r.id == of by { NamedAlike(l, of); }
        PutStays(l, r, id, holds);
        SaveStays(s, Put(l, r), how, id, holds);
      }
    case Sends(_) =>
    case Reopens =>
  }

  lemma NamesAreSome(l: Ledger, id: Bytes)
    requires WellFormed(l) && id in l.records
    ensures id != []
  {
  }

  lemma NamedAlike(l: Ledger, id: Bytes)
    requires WellFormed(l) && id in l.records
    ensures l.records[id].id == id
  {
  }

  lemma RetriesHeld(l: Ledger, id: Bytes)
    requires Retryable(l, id)
    ensures id in l.records
  {
  }

  lemma NotedKeepsName(l: Ledger, id: Bytes, a: Answer)
    requires WellFormed(l) && id in l.records && Noted(l.records[id], a).Some?
    ensures Noted(l.records[id], a).value.id == id
  {
  }

  /** From the empty book on, every request is held under its own name. */
  lemma NextIsOrdinary(w: World, e: Event)
    requires Ordinary(w.book)
    ensures Ordinary(Next(w, e).book)
  {
    hide Save, Put, Noted, CanFollow, WellFormed, Retryable, Reservable, Granted;
    var s := w.book;
    var l := s.live;
    match e
    case Asks(want, how) =>
      PutIsWell(l, Asked(want).(state := Requested));
      SaveIsOrdinary(s, Put(l, Asked(want).(state := Requested)), how);
    case Retries(of, how) =>
      if Retryable(l, of) {
        RetriesHeld(l, of);
        PutIsWell(l, Again(l.records[of]));
        SaveIsOrdinary(s, Put(l, Again(l.records[of])), how);
      }
    case Adopts(table, purpose, name, how) =>
      if Adoptable(l, table, purpose, name) {
        var r := Waiting(l, table, purpose);
        AdoptIsWell(l, r, name);
        SaveIsOrdinary(s, Ledger(l.records[name := r.(id := name)], l.pending - multiset{r}), how);
      }
    case Notes(of, a, how) =>
      if of in l.records && Noted(l.records[of], a).Some? {
        PutIsWell(l, Noted(l.records[of], a).value);
        SaveIsOrdinary(s, Put(l, Noted(l.records[of], a).value), how);
      }
    case Locates(of, outpoint, how) =>
      if of in l.records {
        PutIsWell(l, l.records[of].(state := Located, outpoint := outpoint));
        SaveIsOrdinary(s, Put(l, l.records[of].(state := Located, outpoint := outpoint)), how);
      }
    case Sends(_) =>
    case Reopens =>
  }

  lemma SaveIsOrdinary(s: BookState, l: Ledger, how: Write)
    requires Ordinary(s) && WellFormed(l)
    ensures Ordinary(Save(s, l, how))
  {
    hide WellFormed;
  }

  lemma PutIsWell(l: Ledger, r: Record)
    requires WellFormed(l)
    ensures WellFormed(Put(l, r))
  {
  }

  lemma AdoptIsWell(l: Ledger, r: Record, name: Bytes)
    requires WellFormed(l) && name != []
    ensures WellFormed(Ledger(l.records[name := r.(id := name)], l.pending - multiset{r}))
  {
  }

  lemma {:induction false} RunIsOrdinary(w: World, events: seq<Event>)
    requires Ordinary(w.book)
    ensures Ordinary(Run(w, events).book)
    decreases |events|
  {
    hide Next, Ordinary;
    if events != [] {
      NextIsOrdinary(w, events[0]);
      RunIsOrdinary(Next(w, events[0]), events[1..]);
    }
  }

  lemma {:induction false} AliveStays(w: World, events: seq<Event>, id: Bytes)
    requires Ordinary(w.book) && Both(w.book, id, Alive) && forall e :: e in events ==> !Decides(e, id)
    ensures Ordinary(Run(w, events).book) && Both(Run(w, events).book, id, Alive)
    decreases |events|
  {
    hide Next, Ordinary, Both, Noted;
    if events != [] {
      var e := events[0];
      assert !Decides(e, id);
      if e.Notes? {
        forall r | Alive(r) && Noted(r, e.answer).Some? && e.id == id ensures Alive(Noted(r, e.answer).value) {
          OnlyRefusalsClose(r, e.answer);
        }
      }
      NextStays(w, e, id, Alive);
      AliveStays(Next(w, e), events[1..], id);
    }
  }

  /** Not being able to ask decides nothing. From any book a run leads to, a request open
      in memory and in the file stays open through every further run in which no answer
      refuses it, however often the bridge is out of reach, writes fail and the process
      restarts; its approval is still taken with the transaction it names, and the
      payment can then be located. */
  lemma UnreachableClosesNothing(before: seq<Event>, events: seq<Event>, id: Bytes, txid: Bytes, outpoint: Bytes)
    requires Both(Run(EMPTY, before).book, id, Alive) && txid != [] && !Blank(outpoint)
    requires forall e :: e in events ==> !Decides(e, id)
    ensures
      var w := Run(Run(EMPTY, before), events);
      var paid := Next(Next(w, Reopens), Notes(id, Says(SaysApproved, txid, []), Saved));
      var found := Next(paid, Locates(id, outpoint, Saved));
      && Both(w.book, id, Alive)
      && Both(paid.book, id, (r: Record) => r.state == Approved && r.txid == txid)
      && Both(found.book, id, (r: Record) => r.state == Located && r.txid == txid && r.outpoint == outpoint)
  {
    hide Run, Note, Locate, Ordinary, Both, Alive;
    EmptyIsOrdinary();
    RunIsOrdinary(EMPTY, before);
    AliveStays(Run(EMPTY, before), events, id);
    var w := Run(Run(EMPTY, before), events);
    var s := BookState(w.book.file, false, w.book.file);
    FileIsRead(w.book, id, Alive);
    ApprovalIsTaken(s, id, txid);
    var t := Note(s, id, Says(SaysApproved, txid, []), Saved);
    LocatedIsWritten(t, id, outpoint);
    BothIsWeaker(Locate(t, id, outpoint, Saved), id,
      (r: Record) => r == t.live.records[id].(state := Located, outpoint := outpoint),
      (r: Record) => r.state == Located && r.txid == txid && r.outpoint == outpoint);
  }

  lemma BothIsWeaker(s: BookState, id: Bytes, some: Record -> bool, holds: Record -> bool)
    requires Both(s, id, some) && forall r :: some(r) ==> holds(r)
    ensures Both(s, id, holds)
  {
  }

  lemma FileIsRead(s: BookState, id: Bytes, holds: Record -> bool)
    requires Ordinary(s) && Both(s, id, holds)
    ensures Ordinary(BookState(s.file, false, s.file)) && Both(BookState(s.file, false, s.file), id, holds)
  {
    hide WellFormed;
  }

  lemma EmptyIsOrdinary()
    ensures Ordinary(EMPTY.book)
  {
  }

  lemma ApprovalIsTaken(s: BookState, id: Bytes, txid: Bytes)
    requires Ordinary(s) && !s.fault && Both(s, id, Alive) && txid != []
    ensures
      var t := Note(s, id, Says(SaysApproved, txid, []), Saved);
      && Ordinary(t) && !t.fault && t.live == t.file
      && id in t.live.records && t.live.records[id].state == Approved && t.live.records[id].txid == txid
      && Both(t, id, (r: Record) => r.state == Approved && r.txid == txid)
  {
    AnswersTell(s.live.records[id], txid, [], []);
  }

  lemma LocatedIsWritten(s: BookState, id: Bytes, outpoint: Bytes)
    requires Ordinary(s) && !s.fault && id in s.live.records && !Blank(outpoint)
    requires s.live.records[id].state == Approved
    ensures
      var t := Locate(s, id, outpoint, Saved);
      Both(t, id, (r: Record) => r == s.live.records[id].(state := Located, outpoint := outpoint))
  {
  }

  /** And a no is for good: from any book a run leads to, a request refused in memory and
      in the file is never changed again, whatever the bridge says later. */
  lemma {:induction false} RefusedStays(w: World, events: seq<Event>, id: Bytes, was: Record)
    requires Ordinary(w.book) && Shut(was) && Both(w.book, id, (r: Record) => r == was)
    ensures Both(Run(w, events).book, id, (r: Record) => r == was)
    decreases |events|
  {
    hide Next, Ordinary, Both, Noted, CanFollow;
    if events != [] {
      var e := events[0];
      if e.Notes? && Noted(was, e.answer).Some? {
        OnlyRefusalsClose(was, e.answer);
      }
      assert !CanFollow(was.state, Located) by { ShutIsNotLocated(was); }
      NextStays(w, e, id, (r: Record) => r == was);
      RefusedStays(Next(w, e), events[1..], id, was);
    }
  }

  lemma ShutIsNotLocated(r: Record)
    requires Shut(r)
    ensures !CanFollow(r.state, Located)
  {
  }

  lemma RefusedIsForGood(before: seq<Event>, events: seq<Event>, id: Bytes, was: Record)
    requires Shut(was) && Both(Run(EMPTY, before).book, id, (r: Record) => r == was)
    ensures Both(Run(Run(EMPTY, before), events).book, id, (r: Record) => r == was)
  {
    hide Run, Both;
    assert Ordinary(EMPTY.book) by { EmptyIsOrdinary(); }
    RunIsOrdinary(EMPTY, before);
    RefusedStays(Run(EMPTY, before), events, id, was);
  }

  // ---- What a book holds, and when it stops ----

  /** A write that did not land, or landed unknown to the process, stops the book: until
      it is read anew nothing is changed and no permission to pay is given. */
  lemma {:induction false} FaultStops(w: World, events: seq<Event>)
    requires w.book.fault && forall e :: e in events ==> !e.Reopens?
    ensures Run(w, events).book == w.book && Run(w, events).permits <= w.permits
    decreases |events|
  {
    hide Reservable, Retryable, Adoptable, Noted, CanFollow, Put;
    if events != [] {
      assert !events[0].Reopens?;
      FaultStops(Next(w, events[0]), events[1..]);
    }
  }

  /** A request that says where to, for what, under which terms and how much. */
  predicate Whole(r: Record) {
    r.table != [] && r.purpose != [] && r.address != [] && r.atoms > 0 && r.obligation != []
  }

  predicate AllWhole(l: Ledger) {
    (forall r :: r in l.pending ==> Whole(r)) && (forall id :: id in l.records ==> Whole(l.records[id]))
  }

  lemma SaveIsWhole(s: BookState, l: Ledger, how: Write)
    requires AllWhole(s.live) && AllWhole(s.file) && AllWhole(l)
    ensures AllWhole(Save(s, l, how).live) && AllWhole(Save(s, l, how).file)
  {
    hide AllWhole;
  }

  lemma PutIsWhole(l: Ledger, r: Record)
    requires AllWhole(l) && Whole(r)
    ensures AllWhole(Put(l, r))
  {
  }

  lemma NextIsWhole(w: World, e: Event)
    requires AllWhole(w.book.live) && AllWhole(w.book.file)
    ensures AllWhole(Next(w, e).book.live) && AllWhole(Next(w, e).book.file)
  {
    hide Save, Put, Noted, CanFollow, AllWhole, Retryable, Reservable, Granted, Whole;
    var s := w.book;
    var l := s.live;
    match e
    case Asks(want, how) =>
      if Reservable(l, Asked(want)) {
        ReservedIsWhole(l, Asked(want));
        PutIsWhole(l, Asked(want).(state := Requested));
        SaveIsWhole(s, Put(l, Asked(want).(state := Requested)), how);
      }
    case Retries(of, how) =>
      if Retryable(l, of) {
        RetriesHeld(l, of);
        SameIsWhole(l, of, Again(l.records[of]));
        PutIsWhole(l, Again(l.records[of]));
        SaveIsWhole(s, Put(l, Again(l.records[of])), how);
      }
    case Adopts(table, purpose, name, how) =>
      if Adoptable(l, table, purpose, name) {
        var r := Waiting(l, table, purpose);
        AdoptIsWhole(l, r, name);
        SaveIsWhole(s, Ledger(l.records[name := r.(id := name)], l.pending - multiset{r}), how);
      }
    case Notes(of, a, how) =>
      if of in l.records && Noted(l.records[of], a).Some? {
        NotedKeepsIdentity(l.records[of], a);
        SameIsWhole(l, of, Noted(l.records[of], a).value);
        PutIsWhole(l, Noted(l.records[of], a).value);
        SaveIsWhole(s, Put(l, Noted(l.records[of], a).value), how);
      }
    case Locates(of, outpoint, how) =>
      if of in l.records {
        SameIsWhole(l, of, l.records[of].(state := Located, outpoint := outpoint));
        PutIsWhole(l, l.records[of].(state := Located, outpoint := outpoint));
        SaveIsWhole(s, Put(l, l.records[of].(state := Located, outpoint := outpoint)), how);
      }
    case Sends(_) =>
    case Reopens =>
  }

  lemma ReservedIsWhole(l: Ledger, r: Record)
    requires Reservable(l, r)
    ensures Whole(r.(state := Requested))
  {
  }

  lemma SameIsWhole(l: Ledger, id: Bytes, r: Record)
    requires AllWhole(l) && id in l.records
    requires
      var was := l.records[id];
      && r.table == was.table && r.purpose == was.purpose && r.address == was.address && r.atoms == was.atoms
      && r.obligation == was.obligation
    ensures Whole(r)
  {
  }

  lemma AdoptIsWhole(l: Ledger, r: Record, name: Bytes)
    requires AllWhole(l) && r in l.pending
    ensures AllWhole(Ledger(l.records[name := r.(id := name)], l.pending - multiset{r}))
  {
  }

  /** No run puts half a request on the book, in memory or in the file. */
  lemma {:induction false} OnlyWholeRequestsAreKept(w: World, events: seq<Event>)
    requires AllWhole(w.book.live) && AllWhole(w.book.file)
    ensures AllWhole(Run(w, events).book.live) && AllWhole(Run(w, events).book.file)
    decreases |events|
  {
    hide Next, AllWhole;
    if events != [] {
      NextIsWhole(w, events[0]);
      OnlyWholeRequestsAreKept(Next(w, events[0]), events[1..]);
    }
  }
}
