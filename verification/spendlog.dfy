/** The bridge's spend section itself: a file re-read and rewritten under one
    lock, a set of approvals running outside it, and loops over the log; each
    method is proved to take the step the runs are made of. */
module SpendLog {
  import opened ByteStrings
  import opened Cashier
  import opened Payments

  /** Marks anything nobody answered in time. */
  method ExpireLocked(log: Log, now: int) returns (out: Log, changed: bool)
    ensures out == Expire(log, now)
    ensures changed <==> out != log
  {
    out, changed := log, false;
    for i := 0 to |log|
      invariant |out| == |log|
      invariant forall j :: 0 <= j < i ==> out[j] == ExpireOne(log[j], now)
      invariant forall j :: i <= j < |log| ==> out[j] == log[j]
      invariant changed <==> exists j :: 0 <= j < i && out[j] != log[j]
    {
      if out[i].state == Pending && now >= out[i].expiresAt {
        out := out[i := out[i].(state := Expired, decidedAt := now)];
        changed := true;
        assert out[i] != log[i];
      }
    }
  }

  lemma {:induction false} SumSplits(log: Log, i: nat, counted: Entry -> bool)
    requires i < |log|
    ensures Sum(log[..i + 1], counted) == Sum(log[..i], counted) + (if counted(log[i]) then log[i].atoms else 0)
  {
    if i == 0 {
      assert log[..1][1..] == [] && log[..0] == [];
    } else {
      SumSplits(log[1..], i - 1, counted);
      assert log[..i + 1][1..] == log[1..][..i] && log[..i][1..] == log[1..][..i - 1];
    }
  }

  lemma {:induction false} SumGrows(log: Log, i: nat, counted: Entry -> bool)
    requires i <= |log| && forall j :: 0 <= j < |log| && counted(log[j]) ==> log[j].atoms >= 0
    ensures Sum(log[..i], counted) <= Sum(log, counted)
    decreases |log| - i
  {
    if i == |log| {
      assert log[..i] == log;
    } else {
      SumSplits(log, i, counted);
      SumGrows(log, i + 1, counted);
    }
  }

  /** Adds up what is counted, stopping at a sum that would wrap. */
  method AddUp(log: Log, counted: Entry -> bool) returns (total: int)
    ensures total == Total(log, counted)
  {
    total := 0;
    for i := 0 to |log|
      invariant total == Sum(log[..i], counted) && 0 <= total <= MAX_INT64
      invariant forall j :: 0 <= j < i && counted(log[j]) ==> log[j].atoms >= 0
    {
      SumSplits(log, i, counted);
      if !counted(log[i]) {
        continue;
      }
      if log[i].atoms < 0 || log[i].atoms > MAX_INT64 - total {
        if forall j :: 0 <= j < |log| && counted(log[j]) ==> log[j].atoms >= 0 {
          SumGrows(log, i + 1, counted);
        }
        return MAX_INT64;
      }
      total := total + log[i].atoms;
    }
    assert log[..|log|] == log;
  }

  lemma {:induction false} OutstandingSplits(log: Log, i: nat, game: Bytes)
    requires i < |log|
    ensures CountOutstanding(log[..i + 1], game) ==
      CountOutstanding(log[..i], game) + (if log[i].game == game && Outstanding(log[i]) then 1 else 0)
  {
    if i == 0 {
      assert log[..1][1..] == [] && log[..0] == [];
    } else {
      OutstandingSplits(log[1..], i - 1, game);
      assert log[..i + 1][1..] == log[1..][..i] && log[..i][1..] == log[1..][..i - 1];
    }
  }

  method OutstandingFor(log: Log, game: Bytes) returns (pending: nat)
    ensures pending == CountOutstanding(log, game)
  {
    pending := 0;
    for i := 0 to |log|
      invariant pending == CountOutstanding(log[..i], game)
    {
      OutstandingSplits(log, i, game);
      if log[i].game == game && Outstanding(log[i]) {
        pending := pending + 1;
      }
    }
    assert log[..|log|] == log;
  }

  method Find(log: Log, id: Bytes) returns (i: nat)
    ensures i == Index(log, id)
  {
    i := 0;
    while i < |log| && log[i].id != id
      invariant i <= |log| && forall j :: 0 <= j < i ==> log[j].id != id
    {
      i := i + 1;
    }
  }

  /** The two caps against what the log already commits. */
  method CheckCaps(s: Settings, log: Log, game: Bytes, table: Bytes, atoms: int, now: int, but: Option<Bytes>)
    returns (ok: bool)
    requires game in s.policies
    ensures ok <==> CapsCarry(s, log, game, table, atoms, now, but)
  {
    hide Total;
    var day := AddUp(log, DayCounted(game, now, but));
    if !Within(s.policies[game].dayCap, atoms, day) {
      return false;
    }
    var used := 0;
    if table != [] {
      used := AddUp(log, TableCounted(game, table, but));
    }
    ok := Within(s.policies[game].tableCap, atoms, used);
  }

  /** The first entry that still answers for a deposit, or the length of the log. */
  function Standing(log: Log, deposit: Bytes, funded: bool): (i: nat)
    ensures i <= |log|
    ensures i < |log| ==> Stands(log[i], deposit, funded)
    ensures forall j :: 0 <= j < i ==> !Stands(log[j], deposit, funded)
  {
    if log == [] || Stands(log[0], deposit, funded) then 0 else 1 + Standing(log[1..], deposit, funded)
  }

  /** What a game is told under the lock, when nothing stood before: the request that
      stands by now, its new one, or a refusal, which a write that failed is too. */
  function Reply(s: Settings, log: Log, want: Entry, funded: bool, now: int, how: Write): Option<Entry> {
    var out := Expire(log, now);
    var i := Standing(out, want.deposit, funded);
    if !RequestCarried(s, want.game, want.address, want.atoms) then None
    else if i < |out| then (if out != log && how != Saved then None else Some(out[i]))
    else if Admits(s, out, want, funded, now) && how == Saved then Some(Filed(want))
    else None
  }

  /** The request that stands once what expired has been written down. */
  function Prior(log: Log, deposit: Bytes, funded: bool, now: int, how: Write): Option<Entry> {
    var out := Expire(log, now);
    var i := Standing(out, deposit, funded);
    if (out != log && how != Saved) || i == |out| then None else Some(out[i])
  }

  lemma PriorNeedsWrite(log: Log, deposit: Bytes, funded: bool, now: int, how: Write)
    ensures Expire(log, now) != log && how != Saved ==> Prior(log, deposit, funded, now, how) == None
  {
    hide Expire;
  }

  lemma StandingIsFirst(log: Log, deposit: Bytes, funded: bool, i: nat)
    requires i <= |log| && (i < |log| ==> Stands(log[i], deposit, funded))
    requires forall j :: 0 <= j < i ==> !Stands(log[j], deposit, funded)
    ensures Standing(log, deposit, funded) == i
  {
  }

  /** The entry that answers for a deposit: the first that did not fail, or the first at
      all while its funding stands. */
  predicate AnswersFor(log: Log, deposit: Bytes, funded: bool, i: int) {
    && 0 <= i < |log| && log[i].deposit == deposit && (log[i].state == Failed ==> funded)
    && forall j :: 0 <= j < i && log[j].deposit == deposit ==> log[j].state == Failed && !funded
  }

  /** No entry answers for it: each failed, and its funding was let go. */
  predicate NoneAnswersFor(log: Log, deposit: Bytes, funded: bool) {
    forall j :: 0 <= j < |log| && log[j].deposit == deposit ==> log[j].state == Failed && !funded
  }

  /** It is found in the log as it is once what expired has. */
  lemma AnswerIsFound(log: Log, deposit: Bytes, funded: bool, now: int, i: int)
    requires AnswersFor(log, deposit, funded, i)
    ensures Standing(Expire(log, now), deposit, funded) == i
  {
    var out := Expire(log, now);
    forall j | 0 <= j < i ensures !Stands(out[j], deposit, funded) {
      assert out[j] == ExpireOne(log[j], now);
    }
    assert out[i] == ExpireOne(log[i], now);
    StandingIsFirst(out, deposit, funded, i);
  }

  lemma NoAnswerIsFound(log: Log, deposit: Bytes, funded: bool, now: int)
    requires NoneAnswersFor(log, deposit, funded)
    ensures Standing(Expire(log, now), deposit, funded) == |log| && NoneAnswersFor(Expire(log, now), deposit, funded)
  {
    var out := Expire(log, now);
    forall k | 0 <= k < |out| && out[k].deposit == deposit ensures out[k].state == Failed && !funded {
      assert out[k] == ExpireOne(log[k], now);
    }
  }

  /** Told the answer, or nothing when what expired could not be written down. */
  function Told(log: Log, i: nat, now: int, how: Write): Option<Entry>
    requires i < |log|
  {
    if Expire(log, now) != log && how != Saved then None else Some(ExpireOne(log[i], now))
  }

  /** What a game is told of a deposit that has an answer: that entry, before policy is
      looked at, and again under the lock if policy carries the request. */
  lemma AnswerIsTold(s: Settings, log: Log, want: Entry, funded: bool, now: int, how: Write, i: nat)
    requires AnswersFor(log, want.deposit, funded, i)
    ensures Prior(log, want.deposit, funded, now, how) == Told(log, i, now, how)
    ensures RequestCarried(s, want.game, want.address, want.atoms) ==>
      Reply(s, log, want, funded, now, how) == Told(log, i, now, how)
    ensures !RequestCarried(s, want.game, want.address, want.atoms) ==> Reply(s, log, want, funded, now, how) == None
  {
    hide RequestCarried, Admits, Standing;
    AnswerIsFound(log, want.deposit, funded, now, i);
    assert Expire(log, now)[i] == ExpireOne(log[i], now);
  }

  lemma NoAnswerIsTold(s: Settings, log: Log, want: Entry, funded: bool, now: int, how: Write)
    requires NoneAnswersFor(log, want.deposit, funded)
    ensures Prior(log, want.deposit, funded, now, how) == None
    ensures Reply(s, log, want, funded, now, how) in {None, Some(Filed(want))}
  {
    hide RequestCarried, Admits, Standing;
    NoAnswerIsFound(log, want.deposit, funded, now);
  }

  lemma ReplyTells(s: Settings, log: Log, want: Entry, funded: bool, now: int, how: Write)
    ensures forall i :: AnswersFor(log, want.deposit, funded, i) ==>
      Reply(s, log, want, funded, now, how) ==
        if RequestCarried(s, want.game, want.address, want.atoms) then Told(log, i, now, how) else None
    ensures NoneAnswersFor(log, want.deposit, funded) ==>
      Reply(s, log, want, funded, now, how) in {None, Some(Filed(want))}
  {
    hide RequestCarried, Reply, Told, NoneAnswersFor;
    forall i | AnswersFor(log, want.deposit, funded, i)
      ensures Reply(s, log, want, funded, now, how) ==
        if RequestCarried(s, want.game, want.address, want.atoms) then Told(log, i, now, how) else None
    {
      AnswerIsTold(s, log, want, funded, now, how, i);
    }
    if NoneAnswersFor(log, want.deposit, funded) {
      NoAnswerIsTold(s, log, want, funded, now, how);
    }
  }

  method FindStanding(log: Log, deposit: Bytes, funded: bool) returns (i: nat)
    ensures i == Standing(log, deposit, funded)
  {
    i := 0;
    while i < |log| && !Stands(log[i], deposit, funded)
      invariant i <= |log| && forall j :: 0 <= j < i ==> !Stands(log[j], deposit, funded)
    {
      i := i + 1;
    }
    StandingIsFirst(log, deposit, funded, i);
  }

  /** What a request comes to, by the request that stands. */
  lemma RequestComesTo(w: World, s: Settings, want: Entry, funded: bool, now: int, how: Write)
    ensures
      var e := Requests(s, want, funded, now, how);
      var out := Expire(w.log, now);
      var i := Standing(out, want.deposit, funded);
      Next(w, e) ==
        if !RequestCarried(s, want.game, want.address, want.atoms) then w
        else if i < |out| then (if out != w.log then File(w, out, now, how) else w)
        else if CountOutstanding(out, want.game) < MAX_OUTSTANDING
                && CapsCarry(s, out, want.game, want.table, want.atoms, now, None)
        then File(w, out + [Filed(want)], now, how)
        else w
  {
    hide TrimLog, Ids, Refusals, CapsCarry, CountOutstanding, Stands, Expire;
    var out := Expire(w.log, now);
    var i := Standing(out, want.deposit, funded);
    assert i == |out| ==> forall j :: 0 <= j < |out| ==> !Stands(out[j], want.deposit, funded);
  }

  /** What marking an approval comes to. */
  lemma MarkComesTo(w: World, id: Bytes, now: int, how: Write)
    requires id in w.calls && w.calls[id] == Signing
    ensures
      var log := Expire(w.log, now);
      var i := Index(log, id);
      Next(w, Marks(id, now, how)) ==
        if i == |log| then w.(calls := w.calls - {id})
        else if log[i].state == Pending
        then File(w, log[i := log[i].(state := Publishing)], now, how).(
               calls := if how == Saved then w.calls[id := Marked] else w.calls - {id})
        else (if log != w.log then File(w, log, now, how) else w).(calls := w.calls - {id})
  {
    hide TrimLog, Ids, Refusals, Expire, Index;
  }

  lemma FileSpares(w: World, out: Log, now: int, how: Write)
    ensures File(w, out, now, how).calls == w.calls && File(w, out, now, how).published == w.published
  {
    hide TrimLog, Ids, Refusals;
  }

  lemma CarriedIsBound(s: Settings, want: Entry)
    requires RequestCarried(s, want.game, want.address, want.atoms)
    ensures want.game in s.policies
  {
  }

  class Bridge {
    var log: Log
    var approving: set<Bytes>
    ghost var calls: map<Bytes, Phase>
    ghost var published: seq<Bytes>
    ghost var seen: set<Bytes>
    ghost var refused: set<Bytes>

    ghost function View(): World
      reads this
    {
      World(log, calls, published, seen, refused)
    }

    ghost predicate Valid()
      reads this
    {
      approving == calls.Keys
    }

    constructor ()
      ensures Valid() && View() == EMPTY
    {
      log, approving, calls, published, seen, refused := [], {}, map[], [], {}, {};
    }

    /** Bounds the file, oldest uncounted entries first, and writes it whole. */
    method WriteSpendLog(out: Log, now: int, how: Write) returns (ok: bool)
      modifies this
      ensures View() == File(old(View()), out, now, how) && approving == old(approving)
      ensures ok <==> how == Saved
    {
      var kept := out;
      if |out| > MAX_LOG {
        var drop := |out| - MAX_LOG;
        kept := [];
        for i := 0 to |out|
          invariant 0 <= drop <= |out| - MAX_LOG
          invariant Drop(out, |out| - MAX_LOG, now) == kept + Drop(out[i..], drop, now)
        {
          assert out[i..][1..] == out[i + 1..];
          if drop > 0 && !Counts(out[i], now) {
            drop := drop - 1;
            continue;
          }
          kept := kept + [out[i]];
        }
      }
      if how != Lost {
        log, seen, refused := kept, seen + Ids(out), refused + Refusals(out);
      }
      ok := how == Saved;
    }

    /** Reading for a game or the console writes down what has expired. */
    method Poll(now: int, how: Write)
      requires Valid()
      modifies this
      ensures Valid() && View() == Next(old(View()), Polls(now, how))
    {
      var out, changed := ExpireLocked(log, now);
      if changed {
        var _ := WriteSpendLog(out, now, how);
      }
    }

    /** Looks for a request that already answers for the deposit, writing down first
        what has expired. */
    method ExistingFundingSpend(deposit: Bytes, funded: bool, now: int, how: Write)
      returns (ok: bool, prior: Option<Entry>)
      requires Valid()
      modifies this
      ensures Valid() && View() == Next(old(View()), Polls(now, how))
      ensures ok <==> Expire(old(log), now) == old(log) || how == Saved
      ensures prior == Prior(old(log), deposit, funded, now, how)
      ensures forall i :: AnswersFor(old(log), deposit, funded, i) ==> prior == Told(old(log), i, now, how)
      ensures NoneAnswersFor(old(log), deposit, funded) ==> prior == None
    {
      var out, changed := ExpireLocked(log, now);
      ok, prior := true, None;
      if changed {
        ok := WriteSpendLog(out, now, how);
      }
      if ok {
        var i := FindStanding(out, deposit, funded);
        prior := if i < |out| then Some(out[i]) else None;
      }
      ghost var was := old(log);
      forall i | AnswersFor(was, deposit, funded, i) ensures prior == Told(was, i, now, how) {
        AnswerIsFound(was, deposit, funded, now, i);
      }
      if NoneAnswersFor(was, deposit, funded) {
        NoAnswerIsFound(was, deposit, funded, now);
      }
    }

    /** Records a game's request: a request that stands is the answer whatever policy
        says; otherwise policy decides, and then the log as it is under the lock. */
    method RequestGamingSpend(s: Settings, want: Entry, funded: bool, first: int, look: Write, now: int, how: Write)
      returns (r: Option<Entry>)
      requires Valid()
      modifies this
      ensures Valid()
      ensures
        var looked := Next(old(View()), Polls(first, look));
        var prior := Prior(old(log), want.deposit, funded, first, look);
        if Expire(old(log), first) != old(log) && look != Saved then View() == looked && r == None
        else if prior.Some? then View() == looked && r == prior
        else
          && View() == Next(looked, Requests(s, want, funded, now, how))
          && r == Reply(s, looked.log, want, funded, now, how)
      ensures forall i :: AnswersFor(old(log), want.deposit, funded, i) ==>
        r == Told(old(log), i, first, look) && View() == Next(old(View()), Polls(first, look))
    {
      hide Expire, Next, Reply, Prior;
      var ok, prior := ExistingFundingSpend(want.deposit, funded, first, look);
      if !ok || prior.Some? {
        assert prior.Some? ==> ok by { PriorNeedsWrite(old(log), want.deposit, funded, first, look); }
        return prior;
      }
      r := FileRequest(s, want, funded, now, how);
    }

    /** The second look, under the lock, and the new entry if policy will carry it. */
    method FileRequest(s: Settings, want: Entry, funded: bool, now: int, how: Write) returns (r: Option<Entry>)
      requires Valid()
      modifies this
      ensures Valid() && View() == Next(old(View()), Requests(s, want, funded, now, how))
      ensures r == Reply(s, old(log), want, funded, now, how)
      ensures forall i :: AnswersFor(old(log), want.deposit, funded, i) ==>
        r == if RequestCarried(s, want.game, want.address, want.atoms) then Told(old(log), i, now, how) else None
      ensures NoneAnswersFor(old(log), want.deposit, funded) ==> r in {None, Some(Filed(want))}
    {
      ReplyTells(s, log, want, funded, now, how);
      hide Expire, CapsCarry, CountOutstanding, RequestCarried, Stands, Next, File, Told, AnswersFor, NoneAnswersFor;
      RequestComesTo(View(), s, want, funded, now, how);
      if !RequestCarried(s, want.game, want.address, want.atoms) {
        return None;
      }
      var out, changed := ExpireLocked(log, now);
      var i := FindStanding(out, want.deposit, funded);
      FileSpares(View(), out, now, how);
      FileSpares(View(), out + [Filed(want)], now, how);
      if i < |out| {
        if changed {
          var ok := WriteSpendLog(out, now, how);
          if !ok {
            return None;
          }
        }
        return Some(out[i]);
      }
      var pending := OutstandingFor(out, want.game);
      if pending >= MAX_OUTSTANDING {
        return None;
      }
      assert want.game in s.policies by { CarriedIsBound(s, want); }
      var carried := CheckCaps(s, out, want.game, want.table, want.atoms, now, None);
      if !carried {
        return None;
      }
      var filed := want.(state := Pending, txid := [], error := [], decidedAt := 0);
      var ok := WriteSpendLog(out + [filed], now, how);
      r := if ok then Some(filed) else None;
    }

    method DenyGamingSpend(id: Bytes, now: int, how: Write) returns (ok: bool)
      requires Valid()
      modifies this
      ensures Valid() && View() == Next(old(View()), Denies(id, now, how))
      ensures ok <==> Rewrites(old(View()), Denies(id, now, how)).Some? && how == Saved
    {
      hide TrimLog, Ids, Refusals;
      var out, _ := ExpireLocked(log, now);
      var i := Find(out, id);
      if i == |out| {
        return false;
      }
      if out[i].state != Pending || id in approving {
        return false;
      }
      ok := WriteSpendLog(out[i := out[i].(state := Denied, decidedAt := now)], now, how);
    }

    method InvalidatePendingSpends(games: set<Bytes>, reason: Bytes, now: int, how: Write)
      requires Valid()
      modifies this
      ensures Valid() && View() == Next(old(View()), Invalidates(games, reason, now, how))
    {
      hide TrimLog, Ids, Refusals;
      var expired, changed := ExpireLocked(log, now);
      var out := expired;
      for i := 0 to |out|
        invariant View() == old(View()) && Valid() && |out| == |expired| == |log|
        invariant forall j :: 0 <= j < i ==> out[j] == Invalid(expired[j], games, now, reason)
        invariant forall j :: i <= j < |out| ==> out[j] == expired[j]
        invariant changed <==> expired != log || exists j :: 0 <= j < i && out[j] != expired[j]
      {
        if out[i].state == Pending && out[i].game in games {
          out := out[i := out[i].(state := Expired, decidedAt := now, error := reason)];
          changed := true;
          assert out[i] != expired[i];
        }
      }
      assert changed <==> out != log by {
        if expired != log {
          StaysExpired(log, games, now, reason);
        }
      }
      assert out == Invalidate(Expire(log, now), games, now, reason);
      if changed {
        var _ := WriteSpendLog(out, now, how);
      }
    }

    /** Everything an approval checks under the lock before it signs. */
    method BeginApproval(s: Settings, id: Bytes, now: int) returns (ok: bool)
      requires Valid()
      modifies this
      ensures Valid() && View() == Next(old(View()), Begins(s, id, now))
      ensures ok <==> MayBegin(old(View()), s, id, now)
    {
      hide TrimLog, Ids, Refusals, CapsCarry;
      var out, _ := ExpireLocked(log, now);
      var i := Find(out, id);
      if i == |out| || out[i].state != Pending || id in approving {
        return false;
      }
      var req := out[i];
      if !RequestCarried(s, req.game, req.address, req.atoms) {
        return false;
      }
      ok := CheckCaps(s, out, req.game, req.table, req.atoms, now, Some(id));
      if !ok {
        return;
      }
      approving, calls := approving + {id}, calls[id := Signing];
      ok := true;
    }

    /** Records that a signed transaction is about to reach the network; anything
        but success ends the approval before money moves. */
    method MarkSpendPublishing(id: Bytes, now: int, how: Write) returns (ok: bool)
      requires Valid() && id in calls && calls[id] == Signing
      modifies this
      ensures Valid() && View() == Next(old(View()), Marks(id, now, how))
      ensures ok <==> id in calls
    {
      hide Expire, Index, Next, File;
      MarkComesTo(View(), id, now, how);
      var out, changed := ExpireLocked(log, now);
      var i := Find(out, id);
      FileSpares(View(), out, now, how);
      if i < |out| {
        FileSpares(View(), out[i := out[i].(state := Publishing)], now, how);
      }
      if i == |out| {
        ok := false;
      } else if out[i].state != Pending {
        ok := false;
        if changed {
          var _ := WriteSpendLog(out, now, how);
        }
      } else {
        ok := WriteSpendLog(out[i := out[i].(state := Publishing)], now, how);
      }
      if ok {
        calls := calls[id := Marked];
      } else {
        approving, calls := approving - {id}, calls - {id};
      }
    }

    /** Writes what the network said; only a publishing entry takes an outcome. */
    method RecordSpendOutcome(id: Bytes, outcome: Status, txid: Bytes, error: Bytes, now: int, how: Write)
      returns (ok: bool)
      requires Valid() && id in calls && calls[id] == Out
      modifies this
      ensures Valid() && View() == Next(old(View()), Records(id, outcome, txid, error, now, how))
      ensures ok <==>
        && Rewrites(old(View()), Records(id, outcome, txid, error, now, how)).Some?
        && how == Saved && outcome == Approved
    {
      hide TrimLog, Ids, Refusals;
      var i := Find(log, id);
      ok := false;
      if i < |log| && log[i].state == Publishing {
        ok := WriteSpendLog(log[i := log[i].(state := outcome, txid := txid, error := error, decidedAt := now)], now,
          how);
        ok := ok && outcome == Approved;
      }
      approving, calls := approving - {id}, calls - {id};
    }
  }

  /** What expiry changed, an invalidation does not change back. */
  lemma StaysExpired(log: Log, games: set<Bytes>, now: int, reason: Bytes)
    requires Expire(log, now) != log
    ensures Invalidate(Expire(log, now), games, now, reason) != log
  {
    var i :| 0 <= i < |log| && Expire(log, now)[i] != log[i];
    assert Invalidate(Expire(log, now), games, now, reason)[i].state != log[i].state;
  }
}
