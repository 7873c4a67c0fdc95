/** One deposit is one obligation: what the spend log holds of a deposit over any run,
    and what a game that asks for it again is told. */
module Charges {
  import opened ByteStrings
  import opened Cashier
  import opened Payments

  /** Of two entries for one deposit the earlier failed, so at most the last of them can
      ever be paid. */
  predicate OneCharge(log: Log) {
    forall i, j :: 0 <= i < j < |log| && log[i].deposit == log[j].deposit ==> log[i].state == Failed
  }

  /** An entry after a step: for the same deposit, and failed if it had failed. */
  predicate Descends(was: Entry, now: Entry) {
    now.deposit == was.deposit && (was.state == Failed ==> now.state == Failed)
  }

  lemma PointwiseKeeps(log: Log, out: Log)
    requires OneCharge(log) && |out| == |log| && forall i :: 0 <= i < |log| ==> Descends(log[i], out[i])
    ensures OneCharge(out)
  {
    forall i, j | 0 <= i < j < |out| && out[i].deposit == out[j].deposit ensures out[i].state == Failed {
      assert Descends(log[i], out[i]) && Descends(log[j], out[j]);
    }
  }

  lemma AppendKeeps(log: Log, e: Entry)
    requires OneCharge(log) && forall i :: 0 <= i < |log| && log[i].deposit == e.deposit ==> log[i].state == Failed
    ensures OneCharge(log + [e])
  {
  }

  lemma {:induction false} DropKeeps(log: Log, n: nat, now: int)
    requires OneCharge(log)
    ensures OneCharge(Drop(log, n, now))
  {
    hide Counts;
    if log != [] {
      assert OneCharge(log[1..]) by {
        assert forall i :: 0 <= i < |log| - 1 ==> log[1..][i] == log[i + 1];
      }
      DropKeeps(log[1..], if n > 0 && !Counts(log[0], now) then n - 1 else n, now);
      var rest := Drop(log[1..], n, now);
      DropIsPart(log[1..], n, now);
      forall j | 0 <= j < |rest| && rest[j].deposit == log[0].deposit ensures log[0].state == Failed {
        assert rest[j] in log[1..];
        var k :| 0 <= k < |log[1..]| && log[1..][k] == rest[j];
        assert log[k + 1] == rest[j];
      }
    }
  }

  lemma TrimKeeps(log: Log, now: int)
    requires OneCharge(log)
    ensures OneCharge(TrimLog(log, now))
  {
    hide OneCharge, Drop;
    if |log| > MAX_LOG {
      DropKeeps(log, |log| - MAX_LOG, now);
    }
  }

  /** A log an event writes goes on from the log it found. */
  lemma RewriteKeeps(w: World, e: Event)
    requires OneCharge(w.log) && Rewrites(w, e).Some?
    ensures OneCharge(Rewrites(w, e).value)
  {
    hide OneCharge, RequestCarried, CapsCarry, CountOutstanding;
    var out := Rewrites(w, e).value;
    if e.Requests? && Admits(e.settings, Expire(w.log, e.now), e.want, e.funded, e.now) {
      PointwiseKeeps(w.log, Expire(w.log, e.now));
      AppendKeeps(Expire(w.log, e.now), Filed(e.want));
    } else {
      PointwiseKeeps(w.log, out);
    }
  }

  lemma NextKeepsOneCharge(w: World, e: Event)
    requires OneCharge(w.log)
    ensures OneCharge(Next(w, e).log)
  {
    hide OneCharge, Rewrites, TrimLog, Calls;
    if Rewrites(w, e).Some? {
      RewriteKeeps(w, e);
      TrimKeeps(Rewrites(w, e).value, if TimeOf(e).Some? then TimeOf(e).value else 0);
    }
  }

  lemma {:induction false} RunsKeepOneCharge(w: World, events: seq<Event>, end: World)
    requires OneCharge(w.log) && Leads(w, events, end)
    ensures OneCharge(end.log)
    decreases |events|
  {
    hide OneCharge, Next, Possible;
    if events != [] {
      NextKeepsOneCharge(w, events[0]);
      RunsKeepOneCharge(Next(w, events[0]), events[1..], end);
    }
  }

  /** One funding obligation, never a second charge: in every run, of any two entries of
      the log for one deposit the earlier failed. */
  lemma OneDepositIsChargedOnce(events: seq<Event>, end: World, i: nat, j: nat)
    requires Leads(EMPTY, events, end)
    requires i < j < |end.log| && end.log[i].deposit == end.log[j].deposit
    ensures end.log[i].state == Failed
  {
    hide Leads;
    RunsKeepOneCharge(EMPTY, events, end);
  }

  /** A request for a deposit that has an entry which did not fail, or whose funding
      stands, files nothing, whatever policy says: at most, what had expired is written
      down. */
  lemma ChargedIsNotFiledAgain(w: World, s: Settings, want: Entry, funded: bool, now: int, how: Write, i: nat)
    requires i < |w.log| && w.log[i].deposit == want.deposit && (funded || w.log[i].state != Failed)
    ensures
      var v := Next(w, Requests(s, want, funded, now, how));
      && (v.log == w.log || (forall e :: e in v.log ==> e in Expire(w.log, now)))
      && (|w.log| <= MAX_LOG ==> v.log == w.log || v.log == Expire(w.log, now))
  {
    hide RequestCarried, CapsCarry, CountOutstanding, Drop;
    var log := Expire(w.log, now);
    assert Stands(log[i], want.deposit, funded);
    if |log| > MAX_LOG {
      DropIsPart(log, |log| - MAX_LOG, now);
    }
  }

  /** When every entry for the deposit failed and its funding was let go, it is asked for
      anew: the request is filed exactly when policy, the ceiling and both caps carry it
      and the write lands. */
  lemma FailedIsAskedAnew(w: World, s: Settings, want: Entry, now: int, how: Write)
    requires |w.log| < MAX_LOG && Filed(want) !in Expire(w.log, now)
    requires forall i :: 0 <= i < |w.log| && w.log[i].deposit == want.deposit ==> w.log[i].state == Failed
    ensures
      var log, v := Expire(w.log, now), Next(w, Requests(s, want, false, now, how));
      var carried :=
        && RequestCarried(s, want.game, want.address, want.atoms) && CountOutstanding(log, want.game) < MAX_OUTSTANDING
        && CapsCarry(s, log, want.game, want.table, want.atoms, now, None);
      && (v.log == log + [Filed(want)] <==> carried && how != Lost)
      && (!(carried && how != Lost) ==> v.log == w.log)
  {
    hide RequestCarried, CapsCarry, CountOutstanding;
    var log := Expire(w.log, now);
    forall i | 0 <= i < |log| ensures !Stands(log[i], want.deposit, false) {
      assert log[i] == ExpireOne(w.log[i], now);
    }
    assert |log + [Filed(want)]| > |w.log|;
  }
}
