/** The bridge's own spend log: what a request may become, what the caps count,
    what the trim may drop, and what no interleaving of approvals, refusals,
    expiry, failed writes and crashes can make it pay twice. */
module Cashier {
  import opened ByteStrings

  datatype Status = Pending | Approved | Denied | Expired | Failed | Publishing

  datatype Entry = Entry(
    id: Bytes, game: Bytes, table: Bytes, deposit: Bytes, address: Bytes, atoms: int, state: Status,
    txid: Bytes, error: Bytes, decidedAt: int, expiresAt: int)

  type Log = seq<Entry>

  const MAX_LOG: nat := 500
  const MAX_INT64: int := 0x7FFF_FFFF_FFFF_FFFF
  const SUPPLY: int := 2_100_000_000_000_000
  const DAY: int := 86_400
  const MAX_OUTSTANDING: nat := 8

  // ---- What counts ----

  predicate Outstanding(e: Entry) { e.state in {Pending, Publishing} }

  predicate Counts(e: Entry, now: int) {
    Outstanding(e) || (e.state == Approved && now - e.decidedAt < DAY)
  }

  predicate InDay(e: Entry, game: Bytes, now: int, but: Option<Bytes>) {
    e.game == game && Counts(e, now) && but != Some(e.id)
  }

  predicate AtTable(e: Entry, game: Bytes, table: Bytes, but: Option<Bytes>) {
    e.game == game && e.table == table && (Outstanding(e) || e.state == Approved) && but != Some(e.id)
  }

  function Sum(log: Log, counted: Entry -> bool): int {
    if log == [] then 0
    else (if counted(log[0]) then log[0].atoms else 0) + Sum(log[1..], counted)
  }

  predicate AllPositive(log: Log) { forall i :: 0 <= i < |log| ==> log[i].atoms > 0 }

  /** A total that stops at the greatest 64-bit number, and takes a negative
      amount for a day already full. */
  function Total(log: Log, counted: Entry -> bool): int {
    if (exists i :: 0 <= i < |log| && counted(log[i]) && log[i].atoms < 0) || Sum(log, counted) > MAX_INT64
    then MAX_INT64
    else Sum(log, counted)
  }

  /** What the day's cap counts, and what a table's cap counts. */
  function DayCounted(game: Bytes, now: int, but: Option<Bytes>): Entry -> bool { e => InDay(e, game, now, but) }

  function TableCounted(game: Bytes, table: Bytes, but: Option<Bytes>): Entry -> bool {
    e => AtTable(e, game, table, but)
  }

  function DayTotal(log: Log, game: Bytes, now: int, but: Option<Bytes>): int {
    Total(log, DayCounted(game, now, but))
  }

  function TableTotal(log: Log, game: Bytes, table: Bytes, but: Option<Bytes>): int {
    if table == [] then 0 else Total(log, TableCounted(game, table, but))
  }

  function CountOutstanding(log: Log, game: Bytes): nat {
    if log == [] then 0
    else (if log[0].game == game && Outstanding(log[0]) then 1 else 0) + CountOutstanding(log[1..], game)
  }

  // ---- Changing the log ----

  function ExpireOne(e: Entry, now: int): Entry {
    if e.state == Pending && now >= e.expiresAt then e.(state := Expired, decidedAt := now) else e
  }

  function Expire(log: Log, now: int): Log {
    seq(|log|, i requires 0 <= i < |log| => ExpireOne(log[i], now))
  }

  function Invalid(e: Entry, games: set<Bytes>, now: int, reason: Bytes): Entry {
    if e.state == Pending && e.game in games then e.(state := Expired, decidedAt := now, error := reason) else e
  }

  function Invalidate(log: Log, games: set<Bytes>, now: int, reason: Bytes): Log {
    seq(|log|, i requires 0 <= i < |log| => Invalid(log[i], games, now, reason))
  }

  /** The first entry under an id, or the length of the log. */
  function Index(log: Log, id: Bytes): (i: nat)
    ensures i <= |log|
    ensures i < |log| ==> log[i].id == id
    ensures forall j :: 0 <= j < i ==> log[j].id != id
  {
    if log == [] || log[0].id == id then 0 else 1 + Index(log[1..], id)
  }

  /** Drops the first n entries that no longer count. */
  function Drop(log: Log, n: nat, now: int): Log {
    if log == [] then []
    else if n > 0 && !Counts(log[0], now) then Drop(log[1..], n - 1, now)
    else [log[0]] + Drop(log[1..], n, now)
  }

  function TrimLog(log: Log, now: int): Log {
    if |log| > MAX_LOG then Drop(log, |log| - MAX_LOG, now) else log
  }

  // ---- Policy ----

  datatype Policy = Policy(bound: bool, dayCap: int, tableCap: int)
  datatype Settings = Settings(enabled: bool, policies: map<Bytes, Policy>)

  predicate RequestCarried(s: Settings, game: Bytes, address: Bytes, atoms: int) {
    && s.enabled && game in s.policies && s.policies[game].bound && address != []
    && 0 < atoms <= SUPPLY
    && (s.policies[game].tableCap > 0 ==> atoms <= s.policies[game].tableCap)
  }

  predicate Within(cap: int, atoms: int, used: int) {
    cap <= 0 || (used >= 0 && atoms <= cap - used)
  }

  predicate CapsCarry(s: Settings, log: Log, game: Bytes, table: Bytes, atoms: int, now: int, but: Option<Bytes>)
    requires game in s.policies
  {
    && Within(s.policies[game].dayCap, atoms, DayTotal(log, game, now, but))
    && Within(s.policies[game].tableCap, atoms, TableTotal(log, game, table, but))
  }

  /** One funding obligation never gets a second charge. */
  predicate Stands(e: Entry, deposit: Bytes, funded: bool) {
    e.deposit == deposit && (e.state != Failed || funded)
  }

  /** Whether a request becomes a new entry, and not an old answer or a refusal. */
  predicate Admits(s: Settings, log: Log, want: Entry, funded: bool, now: int) {
    && RequestCarried(s, want.game, want.address, want.atoms)
    && (forall i :: 0 <= i < |log| ==> !Stands(log[i], want.deposit, funded))
    && CountOutstanding(log, want.game) < MAX_OUTSTANDING
    && CapsCarry(s, log, want.game, want.table, want.atoms, now, None)
  }

  // ---- The trim ----

  function Filter(log: Log, now: int, counted: bool): Log {
    if log == [] then []
    else if Counts(log[0], now) == counted then [log[0]] + Filter(log[1..], now, counted)
    else Filter(log[1..], now, counted)
  }

  /** The trim drops the oldest entries that no longer count, as many as the log
      is over its bound, and nothing else: everything that counts stays. */
  lemma {:induction false} DropTakesOldestUncounted(log: Log, n: nat, now: int)
    ensures
      var out := Drop(log, n, now);
      var counted, uncounted := Filter(log, now, true), Filter(log, now, false);
      var k := if n <= |uncounted| then n else |uncounted|;
      && Filter(out, now, true) == counted
      && Filter(out, now, false) == uncounted[k..]
      && |out| == |log| - k
  {
    if log != [] {
      if n > 0 && !Counts(log[0], now) {
        DropTakesOldestUncounted(log[1..], n - 1, now);
      } else {
        DropTakesOldestUncounted(log[1..], n, now);
        assert Drop(log, n, now)[1..] == Drop(log[1..], n, now);
      }
    }
  }

  /** Once uncounted, uncounted ever after, so no day's total notices a trim. */
  lemma {:induction false} DropKeepsDaySum(log: Log, n: nat, now: int, later: int, counted: Entry -> bool)
    requires forall e :: counted(e) ==> Counts(e, later)
    requires now <= later
    ensures Sum(Drop(log, n, now), counted) == Sum(log, counted)
  {
    if log != [] {
      if n > 0 && !Counts(log[0], now) {
        DropKeepsDaySum(log[1..], n - 1, now, later, counted);
      } else {
        DropKeepsDaySum(log[1..], n, now, later, counted);
        assert Drop(log, n, now)[1..] == Drop(log[1..], n, now);
      }
    }
  }

  lemma {:induction false} DropIsPart(log: Log, n: nat, now: int)
    ensures forall e :: e in Drop(log, n, now) ==> e in log
    ensures forall e :: e in log && Counts(e, now) ==> e in Drop(log, n, now)
    ensures DistinctIds(log) ==> DistinctIds(Drop(log, n, now))
  {
    if log != [] {
      var rest := log[1..];
      assert DistinctIds(log) ==> DistinctIds(rest) by {
        assert forall i :: 0 <= i < |rest| ==> rest[i] == log[i + 1];
      }
      var m := if n > 0 && !Counts(log[0], now) then n - 1 else n;
      DropIsPart(rest, m, now);
      var kept := Drop(rest, m, now);
      assert forall e :: e in log <==> e == log[0] || e in rest;
      if DistinctIds(log) {
        forall i | 0 <= i < |kept| ensures kept[i].id != log[0].id {
          assert kept[i] in rest;
          var j :| 0 <= j < |rest| && rest[j] == kept[i];
          assert rest[j] == log[j + 1];
        }
      }
    }
  }

  lemma TrimKeepsDayTotals(log: Log, now: int, later: int, game: Bytes, but: Option<Bytes>)
    requires now <= later
    ensures DayTotal(TrimLog(log, now), game, later, but) == DayTotal(log, game, later, but)
  {
    if |log| > MAX_LOG {
      var counted := DayCounted(game, later, but);
      DropKeepsDaySum(log, |log| - MAX_LOG, now, later, counted);
      var out := TrimLog(log, now);
      DropIsPart(log, |log| - MAX_LOG, now);
      if i :| 0 <= i < |log| && counted(log[i]) && log[i].atoms < 0 {
        assert log[i] in log && Counts(log[i], now);
        assert log[i] in out;
      }
      if i :| 0 <= i < |out| && counted(out[i]) && out[i].atoms < 0 {
        assert out[i] in log;
      }
    }
  }

  /** The oldest n entries that no longer count, or all there are. */
  function Oldest(log: Log, n: nat, now: int): Log {
    var uncounted := Filter(log, now, false);
    if n <= |uncounted| then uncounted[..n] else uncounted
  }

  /** What is left and what is dropped are between them what was there. */
  lemma {:induction false} DropParts(log: Log, n: nat, now: int, counted: Entry -> bool)
    ensures Sum(log, counted) == Sum(Drop(log, n, now), counted) + Sum(Oldest(log, n, now), counted)
    ensures forall e :: e in Oldest(log, n, now) ==> e in log && !Counts(e, now)
  {
    if log != [] {
      var rest := log[1..];
      if n > 0 && !Counts(log[0], now) {
        DropParts(rest, n - 1, now, counted);
        var out := Oldest(log, n, now);
        assert out == [log[0]] + Oldest(rest, n - 1, now);
        assert out[1..] == Oldest(rest, n - 1, now);
      } else {
        DropParts(rest, n, now, counted);
        assert Drop(log, n, now)[1..] == Drop(rest, n, now);
        if n == 0 {
          assert Oldest(log, n, now) == [] && Oldest(rest, n, now) == [];
        } else {
          assert Oldest(log, n, now) == Oldest(rest, n, now);
        }
      }
    }
  }

  /** A payment approved at a table. */
  predicate PaidAt(e: Entry, game: Bytes, table: Bytes) { e.state == Approved && e.game == game && e.table == table }

  lemma {:induction false} NoSumIsNone(log: Log, counted: Entry -> bool)
    requires AllPositive(log)
    ensures Sum(log, counted) >= 0
    ensures Sum(log, counted) == 0 <==> forall e :: e in log ==> !counted(e)
  {
    if log != [] {
      NoSumIsNone(log[1..], counted);
      assert forall e :: e in log <==> e == log[0] || e in log[1..];
    }
  }

  /** What a trim drops: the oldest uncounted entries, as many as the log is over its
      bound. */
  function Trimmed(log: Log, now: int): Log {
    if |log| > MAX_LOG then Oldest(log, |log| - MAX_LOG, now) else []
  }

  lemma TrimParts(log: Log, now: int, counted: Entry -> bool)
    ensures Sum(log, counted) == Sum(TrimLog(log, now), counted) + Sum(Trimmed(log, now), counted)
    ensures forall e :: e in Trimmed(log, now) ==> e in log && !Counts(e, now)
  {
    if |log| > MAX_LOG {
      DropParts(log, |log| - MAX_LOG, now, counted);
    }
  }

  /** The trim keeps a table's total exactly when none of the entries it drops is a
      payment approved there. The cap on a table therefore holds of the log, and of
      history only while that is so. */
  lemma TrimTakesFromTable(log: Log, now: int, game: Bytes, table: Bytes)
    requires AllPositive(log)
    ensures
      var counted := TableCounted(game, table, None);
      && Sum(TrimLog(log, now), counted) <= Sum(log, counted)
      && (Sum(TrimLog(log, now), counted) == Sum(log, counted) <==>
           forall e :: e in Trimmed(log, now) ==> !PaidAt(e, game, table))
  {
    var counted, gone := TableCounted(game, table, None), Trimmed(log, now);
    TrimParts(log, now, counted);
    TrimmedIsPositive(log, now);
    NoSumIsNone(gone, counted);
    assert forall e :: e in gone ==> (counted(e) <==> PaidAt(e, game, table));
  }

  lemma TrimmedIsPositive(log: Log, now: int)
    requires AllPositive(log)
    ensures AllPositive(Trimmed(log, now))
  {
    var gone := Trimmed(log, now);
    TrimParts(log, now, e => false);
    forall i | 0 <= i < |gone| ensures gone[i].atoms > 0 {
      assert gone[i] in log;
    }
  }

  predicate DistinctIds(log: Log) {
    forall i, j :: 0 <= i < j < |log| ==> log[i].id != log[j].id
  }
}
