/** The spend book itself: fields replaced on every commit, loops over what they
    hold, and a file written whole; each method is proved to take the step the
    spend module specifies. */
module SpendBook {
  import opened ByteStrings
  import opened Sorting
  import opened Spend

  /** A file that holds a ledger's requests, each once, in some order. */
  ghost predicate Renders(file: seq<Record>, l: Ledger) {
    multiset(file) == l.pending + multiset(l.records.Values)
  }

  function IdOf(r: Record): Bytes { r.id }

  lemma RenderedAreHeld(file: seq<Record>, l: Ledger)
    requires WellFormed(l) && Renders(file, l)
    ensures forall r :: r in file <==> Holds(l, r)
  {
    forall r ensures r in file <==> Holds(l, r) {
      assert r in file <==> r in multiset(file);
      if r in multiset(l.records.Values) {
        var id :| id in l.records && l.records[id] == r;
      }
      if r.id in l.records && l.records[r.id] == r {
        assert r in l.records.Values;
      }
    }
  }

  lemma NamedAreShared(file: seq<Record>, l: Ledger, m: Ledger)
    requires WellFormed(l) && WellFormed(m) && Renders(file, l) && Renders(file, m)
    ensures forall id :: id in l.records ==> id in m.records && m.records[id] == l.records[id]
  {
    hide Renders;
    RenderedAreHeld(file, l);
    RenderedAreHeld(file, m);
    forall id | id in l.records ensures id in m.records && m.records[id] == l.records[id] {
      assert Holds(l, l.records[id]);
      assert Holds(m, l.records[id]);
    }
  }

  /** A file renders one ledger only. */
  lemma RendersOneLedger(file: seq<Record>, l: Ledger, m: Ledger)
    requires WellFormed(l) && WellFormed(m) && Renders(file, l) && Renders(file, m)
    ensures l == m
  {
    hide WellFormed;
    NamedAreShared(file, l, m);
    NamedAreShared(file, m, l);
    assert l.records == m.records;
    assert l.pending == multiset(file) - multiset(l.records.Values);
    assert m.pending == multiset(file) - multiset(m.records.Values);
  }

  datatype Reserved = Refused | Existing(r: Record) | Fresh(r: Record)

  /** Looks for an earlier request for the same payment: none, the latest attempt,
      or a conflict. */
  method FindExisting(all: seq<Record>, want: Record, ghost l: Ledger) returns (r: Reserved)
    requires WellFormed(l) && Renders(all, l)
    ensures r.Fresh? <==> forall q :: q in all ==> KeyOf(q) != KeyOf(want)
    ensures r.Existing? ==>
      && r.r in all && KeyOf(r.r) == KeyOf(want)
      && forall q :: q in all && KeyOf(q) == KeyOf(want) ==> Agrees(q, want) && q.attempt <= r.r.attempt
    ensures Chained(l) && r.Refused? ==> exists q :: q in all && KeyOf(q) == KeyOf(want) && !Agrees(q, want)
  {
    hide Agrees, Chained;
    var found: Option<Record> := None;
    for i := 0 to |all|
      invariant found.None? ==> forall n :: 0 <= n < i ==> KeyOf(all[n]) != KeyOf(want)
      invariant found.Some? ==>
        && (exists n :: 0 <= n < i && all[n] == found.value) && KeyOf(found.value) == KeyOf(want)
        && forall n :: 0 <= n < i && KeyOf(all[n]) == KeyOf(want) ==>
          Agrees(all[n], want) && all[n].attempt <= found.value.attempt
    {
      var was := all[i];
      assert was in all;
      if was.table != want.table || was.purpose != want.purpose || was.seat != want.seat {
        continue;
      }
      assert KeyOf(was) == KeyOf(want);
      if !Agrees(was, want) {
        return Refused;
      }
      if found.Some? && was.attempt == found.value.attempt {
        if Chained(l) {
          var n :| 0 <= n < i && all[n] == found.value;
          AttemptedOnce(all, l, n, i);
        }
        return Refused;
      }
      if found.None? || was.attempt > found.value.attempt {
        found := Some(was);
      }
    }
    r := if found.Some? then Existing(found.value) else Fresh(want);
  }

  /** To agree is to be for the same place, amount and terms. */
  lemma AgreeingIsTheSame(was: Record, want: Record)
    ensures Agrees(was, want) <==>
      && was.address == want.address && was.atoms == want.atoms && Lower(was.script) == Lower(want.script)
      && (was.obligation != [] ==> was.obligation == want.obligation)
  {
    hide Lower;
  }

  /** The one waiting request is an unnamed one for this use of this table, and no other
      is. */
  lemma WaitingIsTheOne(l: Ledger, pending: seq<Record>, table: Bytes, purpose: Bytes)
    requires WellFormed(l) && multiset(pending) == l.pending && exists r :: OnlyWaiting(l, table, purpose, r)
    ensures
      var r := Waiting(l, table, purpose);
      && r in pending && r.id == [] && r.table == table && r.purpose == purpose
      && forall q :: q in pending && q.table == table && q.purpose == purpose ==> q == r
  {
    var r := Waiting(l, table, purpose);
    assert r in multiset(pending);
    forall q | q in pending && q.table == table && q.purpose == purpose ensures q == r {
      assert q in multiset(pending);
    }
  }

  class Book {
    var records: map<Bytes, Record>
    var pending: seq<Record>
    var fault: bool
    var file: seq<Record>
    ghost var saved: Ledger

    ghost predicate Valid()
      reads this
    {
      && WellFormed(Live())
      && WellFormed(saved) && Renders(file, saved)
    }

    ghost function Live(): Ledger
      reads this
    {
      Ledger(records, multiset(pending))
    }

    ghost function View(): BookState
      reads this
    {
      BookState(Live(), fault, saved)
    }

    constructor Hold(records: map<Bytes, Record>, pending: seq<Record>, file: seq<Record>)
      ensures this.records == records && this.pending == pending && !fault && this.file == file
      ensures saved == Ledger(records, multiset(pending))
    {
      this.records, this.pending, fault, this.file := records, pending, false, file;
      saved := Ledger(records, multiset(pending));
    }

    /** Reads a book back. A file that no ledger renders is refused. */
    static method OpenBook(file: seq<Record>) returns (b: Book?)
      ensures b == null ==> forall l :: Renders(file, l) ==> !WellFormed(l)
      ensures b != null ==> fresh(b) && b.Valid() && !b.fault && b.file == file && b.saved == b.Live()
    {
      hide WellFormed, Renders;
      var records: map<Bytes, Record> := map[];
      var pending: seq<Record> := [];
      EmptyRenders();
      for i := 0 to |file|
        invariant WellFormed(Ledger(records, multiset(pending)))
        invariant Renders(file[..i], Ledger(records, multiset(pending)))
      {
        var r := file[i];
        ghost var l := Ledger(records, multiset(pending));
        assert file[..i + 1] == file[..i] + [r];
        if r.id == [] {
          RendersMore(file[..i], l, r);
          pending := pending + [r];
          continue;
        }
        if r.id in records {
          NameIsTaken(file, i, l);
          return null;
        }
        RendersMore(file[..i], l, r);
        records := records[r.id := r];
      }
      assert file[..|file|] == file;
      b := new Book.Hold(records, pending, file);
    }

    /** Every request, sorted by id. */
    method AllLocked() returns (all: seq<Record>)
      requires Valid()
      ensures Renders(all, Live()) && SortedBy(all, IdOf)
    {
      all := Flatten(records, pending);
    }

    /** The whole book goes to the store; memory follows only when that worked. */
    method SaveLocked(records: map<Bytes, Record>, pending: seq<Record>, how: Write) returns (ok: bool)
      requires Valid() && WellFormed(Ledger(records, multiset(pending)))
      modifies this
      ensures Valid()
      ensures View() == Save(old(View()), Ledger(records, multiset(pending)), how)
      ensures ok <==> Saves(old(View()), how)
      ensures ok ==> !fault && this.records == records && this.pending == pending
      ensures !ok ==> fault && this.records == old(this.records) && this.pending == old(this.pending)
      ensures old(fault) ==> file == old(file)
    {
      if fault {
        return false;
      }
      var all := Flatten(records, pending);
      if how != Lost {
        file, saved := all, Ledger(records, multiset(pending));
      }
      if how != Saved {
        fault := true;
        return false;
      }
      this.records, this.pending := records, pending;
      ok := true;
    }

    method CommitLocked(r: Record, how: Write) returns (ok: bool)
      requires Valid()
      modifies this
      ensures Valid()
      ensures View() == Save(old(View()), Put(old(Live()), r), how)
      ensures ok <==> Saves(old(View()), how)
    {
      if r.id == [] {
        ok := SaveLocked(records, pending + [r], how);
      } else {
        ok := SaveLocked(records[r.id := r], pending, how);
      }
    }

    /** Records one intent to pay, once. Permission to dispatch comes with a fresh
        record only; an earlier one is returned without it. */
    method Reserve(want: Record, how: Write) returns (r: Reserved)
      requires Valid()
      modifies this
      ensures Valid()
      ensures View() == Spend.Reserve(old(View()), want, how)
      ensures r.Fresh? <==> Reservable(old(Live()), want) && Saves(old(View()), how)
      ensures r.Fresh? ==> r.r == want.(state := Requested)
      ensures r.Existing? ==>
        && Holds(old(Live()), r.r) && KeyOf(r.r) == KeyOf(want)
        && forall q :: Holds(old(Live()), q) && KeyOf(q) == KeyOf(want) ==> Agrees(q, want) && q.attempt <= r.r.attempt
      ensures Chained(old(Live())) && Complete(want) && HasKey(old(Live()), KeyOf(want)) ==>
        (r.Existing? <==> forall q :: Holds(old(Live()), q) && KeyOf(q) == KeyOf(want) ==>
          && q.address == want.address && q.atoms == want.atoms && Lower(q.script) == Lower(want.script)
          && (q.obligation != [] ==> q.obligation == want.obligation))
      ensures want.table == [] || want.purpose == [] || want.address == [] || want.atoms <= 0 || want.obligation == []
        ==> r == Refused
      ensures r.Existing? ==>
        && r.r.table == want.table && r.r.purpose == want.purpose && r.r.seat == want.seat
        && r.r.address == want.address && r.r.atoms == want.atoms && Lower(r.r.script) == Lower(want.script)
        && (r.r.obligation != [] ==> r.r.obligation == want.obligation)
    {
      hide Agrees, Chained;
      if want.table == [] || want.purpose == [] || want.address == [] || want.atoms <= 0 || want.obligation == [] {
        return Refused;
      }
      var all := AllLocked();
      RenderedAreHeld(all, Live());
      var found := FindExisting(all, want, Live());
      if !found.Fresh? {
        forall q { AgreeingIsTheSame(q, want); }
        return found;
      }
      assert !HasKey(Live(), KeyOf(want)) by {
        forall q | Holds(Live(), q) ensures KeyOf(q) != KeyOf(want) {
          assert q in all;
        }
      }
      var ok := CommitLocked(want.(state := Requested), how);
      r := if ok then Fresh(want.(state := Requested)) else Refused;
    }

    /** Reserves one more attempt, only after a proven refusal. */
    method Retry(id: Bytes, how: Write) returns (r: Option<Record>)
      requires Valid()
      modifies this
      ensures Valid()
      ensures View() == Spend.Retry(old(View()), id, how)
      ensures r.Some? <==> Retryable(old(Live()), id) && Saves(old(View()), how)
      ensures r.Some? ==> r.value == Again(old(records)[id])
      ensures r.Some? <==>
        && id in old(records) && Saves(old(View()), how)
        && var was := old(records)[id];
           && was.state in {Denied, Expired} && was.txid == [] && was.outpoint == []
           && forall q ::
                Holds(old(Live()), q) && q.table == was.table && q.purpose == was.purpose && q.seat == was.seat
                ==> q.attempt <= was.attempt
      ensures r.Some? ==>
        && r.value.id == [] && r.value.state == Requested && r.value.error == [] && r.value.unreachable == []
        && r.value.txid == [] && r.value.outpoint == []
        && r.value == old(records)[id].(id := r.value.id, attempt := r.value.attempt, state := r.value.state,
             error := r.value.error, unreachable := r.value.unreachable)
    {
      if id !in records {
        return None;
      }
      var was := records[id];
      if (was.state != Denied && was.state != Expired) || was.txid != [] || was.outpoint != [] {
        return None;
      }
      var all := AllLocked();
      RenderedAreHeld(all, Live());
      for i := 0 to |all|
        invariant View() == old(View()) && Valid()
        invariant forall n :: 0 <= n < i && KeyOf(all[n]) == KeyOf(was) ==> all[n].attempt <= was.attempt
      {
        if all[i].table == was.table && all[i].seat == was.seat && all[i].purpose == was.purpose &&
          all[i].attempt > was.attempt {
          assert Holds(Live(), all[i]);
          return None;
        }
      }
      assert Retryable(Live(), id);
      var next := Again(was);
      var ok := CommitLocked(next, how);
      r := if ok then Some(next) else None;
    }

    /** Attaches the bridge's id to the one request waiting for it. */
    method Adopt(table: Bytes, purpose: Bytes, id: Bytes, how: Write) returns (r: Option<Record>)
      requires Valid()
      modifies this
      ensures Valid()
      ensures View() == Spend.Adopt(old(View()), table, purpose, id, how)
      ensures r.Some? <==> Adoptable(old(Live()), table, purpose, id) && Saves(old(View()), how)
      ensures r.Some? ==> r.value == Waiting(old(Live()), table, purpose).(id := id)
      ensures r.Some? ==>
        && id != [] && id !in old(records) && r.value.id == id && r.value.table == table && r.value.purpose == purpose
        && r.value.(id := []) in old(pending)
        && forall q :: q in old(pending) && q.table == table && q.purpose == purpose ==> q == r.value.(id := [])
    {
      if id == [] || id in records {
        return None;
      }
      var found := -1;
      for i := 0 to |pending|
        invariant View() == old(View()) && Valid()
        invariant -1 <= found < i
        invariant forall n :: 0 <= n < i && n != found ==> !Waits(pending[n], table, purpose)
        invariant found >= 0 ==> Waits(pending[found], table, purpose)
      {
        if pending[i].table == table && pending[i].purpose == purpose {
          if found >= 0 {
            TwoWait(Live(), pending, found, i, table, purpose);
            return None;
          }
          found := i;
        }
      }
      if found < 0 {
        NoneWaits(Live(), pending, table, purpose);
        return None;
      }
      OneWaits(Live(), pending, found, table, purpose);
      var p := pending[found];
      assert Waiting(Live(), table, purpose) == p;
      WaitingIsTheOne(Live(), pending, table, purpose);
      var rest := pending[..found] + pending[found + 1..];
      var ok := SaveLocked(records[id := p.(id := id)], rest, how);
      r := if ok then Some(p.(id := id)) else None;
    }

    /** Records what the bridge said, or that it could not be asked. */
    method Note(id: Bytes, a: Answer, how: Write) returns (ok: bool)
      requires Valid()
      modifies this
      ensures Valid()
      ensures View() == Spend.Note(old(View()), id, a, how)
      ensures ok <==>
        && id in old(records)
        && (Terminal(old(records)[id].state) || (Noted(old(records)[id], a).Some? && Saves(old(View()), how)))
    {
      if id !in records {
        return false;
      }
      if Terminal(records[id].state) {
        return true;
      }
      var r := Applied(records[id], a);
      if r.None? {
        return false;
      }
      ok := CommitLocked(r.value, how);
    }

    /** Records that an approved payment's output has been found. */
    method Locate(id: Bytes, outpoint: Bytes, how: Write) returns (ok: bool)
      requires Valid()
      modifies this
      ensures Valid()
      ensures View() == Spend.Locate(old(View()), id, outpoint, how)
      ensures ok <==>
        && !Blank(outpoint) && id in old(records) && CanFollow(old(records)[id].state, Located)
        && Saves(old(View()), how)
    {
      if Blank(outpoint) || id !in records || !CanFollow(records[id].state, Located) {
        return false;
      }
      ok := CommitLocked(records[id].(state := Located, outpoint := outpoint), how);
    }
  }

  /** What an answer changes in an open request. */
  method Applied(was: Record, a: Answer) returns (next: Option<Record>)
    requires !Terminal(was.state)
    ensures next == Noted(was, a)
    ensures next.Some? ==> next.value.id == was.id
  {
    var r := was;
    if a.Trouble? {
      return None;
    }
    if a.Unreachable? {
      r := r.(unreachable := a.why);
      if r.state != Approved {
        r := r.(state := Unknown);
      }
      return Some(r);
    }
    r := r.(unreachable := []);
    var answer := StateFor(a.verdict);
    if answer.None? {
      return None;
    }
    if !CanFollow(r.state, answer.value.0) {
      return None;
    }
    r := r.(state := answer.value.0);
    if a.txid != [] {
      r := r.(txid := a.txid);
    }
    if answer.value.1 {
      r := r.(error := a.error);
    }
    next := Some(r);
  }

  method Flatten(records: map<Bytes, Record>, pending: seq<Record>) returns (all: seq<Record>)
    requires WellFormed(Ledger(records, multiset(pending)))
    ensures Renders(all, Ledger(records, multiset(pending))) && SortedBy(all, IdOf)
  {
    hide WellFormed, SortedBy;
    all := pending;
    var todo := records.Values;
    while todo != {}
      invariant todo <= records.Values
      invariant multiset(all) + multiset(todo) == multiset(pending) + multiset(records.Values)
      decreases |todo|
    {
      var r :| r in todo;
      all := all + [r];
      assert multiset(todo) == multiset(todo - {r}) + multiset{r};
      todo := todo - {r};
    }
    SortSorts(all, IdOf);
    all := Sort(all, IdOf);
  }

  lemma EmptyRenders()
    ensures WellFormed(Ledger(map[], multiset([]))) && Renders([], Ledger(map[], multiset([])))
  {
  }

  /** One more request in the file is one more in the book. */
  lemma RendersMore(file: seq<Record>, l: Ledger, r: Record)
    requires WellFormed(l) && Renders(file, l) && (r.id == [] || r.id !in l.records)
    ensures WellFormed(Put(l, r)) && Renders(file + [r], Put(l, r))
  {
    assert multiset(file + [r]) == multiset(file) + multiset{r};
    if r.id != [] {
      AddedValue(l.records, r);
    }
  }

  lemma AddedValue(records: map<Bytes, Record>, r: Record)
    requires r.id !in records && forall id :: id in records ==> records[id].id == id
    ensures multiset(records[r.id := r].Values) == multiset(records.Values) + multiset{r}
  {
    var more := records[r.id := r];
    forall v ensures v in more.Values <==> v in records.Values + {r} {
      if v in records.Values {
        var id :| id in records && records[id] == v;
        assert more[id] == v;
      }
      assert more[r.id] == r;
    }
    assert more.Values == records.Values + {r};
  }

  lemma NameIsTaken(file: seq<Record>, i: nat, before: Ledger)
    requires i < |file| && WellFormed(before) && Renders(file[..i], before) && file[i].id in before.records
    ensures forall l :: Renders(file, l) ==> !WellFormed(l)
  {
    RenderedAreHeld(file[..i], before);
    assert Holds(before, before.records[file[i].id]);
    var n :| 0 <= n < i && file[..i][n] == before.records[file[i].id];
    forall l | Renders(file, l) && WellFormed(l) ensures false {
      NamedOnce(file, l, n, i);
    }
  }

  lemma HeldAtMostOnce(file: seq<Record>, l: Ledger, r: Record)
    requires WellFormed(l) && Renders(file, l) && (r.id != [] || Once(l))
    ensures multiset(file)[r] <= 1
  {
    assert multiset(file)[r] == l.pending[r] + multiset(l.records.Values)[r];
    if r in l.records.Values {
      var id :| id in l.records && l.records[id] == r;
    }
  }

  /** Two requests under one id are in no well-formed ledger's file. */
  lemma NamedOnce(file: seq<Record>, l: Ledger, i: nat, j: nat)
    requires WellFormed(l) && Renders(file, l) && i < j < |file| && file[i].id != []
    ensures file[i].id != file[j].id
  {
    RenderedAreHeld(file, l);
    HeldAtMostOnce(file, l, file[i]);
    assert file[i] in file && file[j] in file;
    if file[i] == file[j] {
      TwicePlaced(file, i, j);
      assert false;
    }
  }

  /** In a chained book no two requests are one attempt at one payment. */
  lemma AttemptedOnce(file: seq<Record>, l: Ledger, i: nat, j: nat)
    requires Chained(l) && Renders(file, l) && i < j < |file| && KeyOf(file[i]) == KeyOf(file[j])
    ensures file[i].attempt != file[j].attempt
  {
    ChainedIsWellFormed(l);
    RenderedAreHeld(file, l);
    HeldAtMostOnce(file, l, file[i]);
    assert file[i] in file && file[j] in file;
    if file[i] == file[j] {
      TwicePlaced(file, i, j);
      assert false;
    }
  }

  lemma TwoWait(l: Ledger, pending: seq<Record>, i: nat, j: nat, table: Bytes, purpose: Bytes)
    requires l.pending == multiset(pending) && i < j < |pending|
    requires Waits(pending[i], table, purpose) && Waits(pending[j], table, purpose)
    ensures forall r :: !OnlyWaiting(l, table, purpose, r)
  {
    assert pending[i] in multiset(pending) && pending[j] in multiset(pending);
    if pending[i] == pending[j] {
      TwicePlaced(pending, i, j);
    }
  }

  lemma NoneWaits(l: Ledger, pending: seq<Record>, table: Bytes, purpose: Bytes)
    requires l.pending == multiset(pending)
    requires forall n :: 0 <= n < |pending| ==> !Waits(pending[n], table, purpose)
    ensures forall r :: !OnlyWaiting(l, table, purpose, r)
  {
    assert forall r :: r in l.pending <==> r in pending;
  }

  lemma OneWaits(l: Ledger, pending: seq<Record>, i: nat, table: Bytes, purpose: Bytes)
    requires l.pending == multiset(pending) && i < |pending| && Waits(pending[i], table, purpose)
    requires forall n :: 0 <= n < |pending| && n != i ==> !Waits(pending[n], table, purpose)
    ensures OnlyWaiting(l, table, purpose, pending[i])
    ensures forall r :: OnlyWaiting(l, table, purpose, r) ==> r == pending[i]
    ensures multiset(pending[..i] + pending[i + 1..]) == l.pending - multiset{pending[i]}
  {
    var r := pending[i];
    assert pending == pending[..i] + [r] + pending[i + 1..];
    assert r !in pending[..i] && r !in pending[i + 1..];
    assert multiset(pending) == multiset(pending[..i]) + multiset{r} + multiset(pending[i + 1..]);
    forall q | q in l.pending && Waits(q, table, purpose) ensures q == r {
      assert q in pending;
    }
    assert r in multiset(pending);
  }
}
