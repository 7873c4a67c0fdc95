/** Dividing what a table holds, and why a division that adds up here always
    passes the payout's own check. */
module Shares {
  import opened ByteStrings
  import opened Sorting
  import opened Finance
  import opened Payouts

  datatype Outcome = Void | Divides(shares: map<nat, int>)

  function At(m: map<nat, int>, seat: nat): int { if seat in m then m[seat] else 0 }

  function Total(order: seq<nat>, m: map<nat, int>): int {
    if order == [] then 0 else Total(order[..|order| - 1], m) + At(m, order[|order| - 1])
  }

  /** Every seat has staked something, and all of it can be counted. */
  predicate StakesFit(order: seq<nat>, funded: map<nat, int>) {
    (forall i :: 0 <= i < |order| ==> At(funded, order[i]) > 0) && Total(order, funded) <= MAX_ATOMS
  }

  /** Only seats at the table are paid, nothing negative, and exactly what it holds. */
  predicate Divided(order: seq<nat>, funded: map<nat, int>, shares: map<nat, int>) {
    && (forall s :: s in shares ==> s in order && shares[s] >= 0)
    && Total(order, shares) == Total(order, funded)
  }

  function SharesFor(order: seq<nat>, funded: map<nat, int>, out: Outcome): Option<map<nat, int>> {
    if !StakesFit(order, funded) then None
    else
      match out
      case Void => Some(map s | s in order :: At(funded, s))
      case Divides(shares) => if Divided(order, funded, shares) then Some(map s | s in order :: At(shares, s)) else None
  }

  lemma TotalSplits(order: seq<nat>, m: map<nat, int>, i: nat)
    requires i < |order|
    ensures Total(order[..i + 1], m) == Total(order[..i], m) + At(m, order[i])
  {
    assert order[..i + 1][..i] == order[..i];
  }

  lemma {:induction false} TotalAgrees(order: seq<nat>, a: map<nat, int>, b: map<nat, int>)
    requires forall i :: 0 <= i < |order| ==> At(a, order[i]) == At(b, order[i])
    ensures Total(order, a) == Total(order, b)
  {
    if order != [] {
      TotalAgrees(order[..|order| - 1], a, b);
    }
  }

  lemma {:induction false} TotalGrows(order: seq<nat>, a: map<nat, int>, b: map<nat, int>)
    requires forall i :: 0 <= i < |order| ==> At(a, order[i]) <= At(b, order[i])
    ensures Total(order, a) <= Total(order, b)
  {
    if order != [] {
      TotalGrows(order[..|order| - 1], a, b);
    }
  }

  /** One more seat's share is one more term of the sum. */
  lemma {:induction false} TotalAdds(order: seq<nat>, m: map<nat, int>, k: nat, v: int)
    requires Distinct(order) && k !in m
    ensures Total(order, m[k := v]) == Total(order, m) + (if k in order then v else 0)
  {
    if order != [] {
      var last := order[|order| - 1];
      var less := order[..|order| - 1];
      TotalAdds(less, m, k, v);
      assert order == less + [last];
      if k == last {
        assert k !in less;
      }
    }
  }

  // ---- The payments a division becomes ----

  /** One payment for every seat that is paid anything. */
  function PaymentsOf(order: seq<nat>, owners: map<nat, Bytes>, shares: map<nat, int>): seq<Payment>
    requires forall i :: 0 <= i < |order| ==> order[i] in owners
  {
    if order == [] then []
    else
      var last := order[|order| - 1];
      PaymentsOf(order[..|order| - 1], owners, shares) +
      if At(shares, last) > 0 then [Payment(owners[last], At(shares, last))] else []
  }

  lemma {:induction false} GrossOfPayments(order: seq<nat>, owners: map<nat, Bytes>, shares: map<nat, int>)
    requires forall i :: 0 <= i < |order| ==> order[i] in owners && At(shares, order[i]) >= 0
    ensures Gross(PaymentsOf(order, owners, shares)) == Total(order, shares)
  {
    if order != [] {
      var last := order[|order| - 1];
      var before := PaymentsOf(order[..|order| - 1], owners, shares);
      GrossOfPayments(order[..|order| - 1], owners, shares);
      if At(shares, last) > 0 {
        var all := before + [Payment(owners[last], At(shares, last))];
        assert all[..|all| - 1] == before;
      } else {
        assert before + [] == before;
      }
    }
  }

  lemma {:induction false} StakesOfInputs(order: seq<nat>, funded: map<nat, int>, inputs: seq<Input>)
    requires |inputs| == |order| && forall i :: 0 <= i < |order| ==> inputs[i].terms.atoms == At(funded, order[i])
    ensures Stakes(inputs) == Total(order, funded)
  {
    if order != [] {
      StakesOfInputs(order[..|order| - 1], funded, inputs[..|inputs| - 1]);
    }
  }

  /** Every payment is one seat's share, to its owner, and more than nothing; and no seat
      that is due anything is left out. */
  lemma {:induction false} PaymentsAreShares(order: seq<nat>, owners: map<nat, Bytes>, shares: map<nat, int>,
      p: Payment)
    requires forall i :: 0 <= i < |order| ==> order[i] in owners
    ensures p in PaymentsOf(order, owners, shares) <==>
      p.atoms > 0 && exists i :: 0 <= i < |order| && p == Payment(owners[order[i]], At(shares, order[i]))
  {
    if order != [] {
      var last := order[|order| - 1];
      var less := order[..|order| - 1];
      PaymentsAreShares(less, owners, shares, p);
      assert forall i :: 0 <= i < |less| ==> less[i] == order[i];
      if i :| 0 <= i < |order| && p == Payment(owners[order[i]], At(shares, order[i])) && i < |order| - 1 {
        assert p == Payment(owners[less[i]], At(shares, less[i]));
      }
    }
  }

  /** Shares are accepted exactly when every seat has staked, all of it can be counted,
      and the outcome is void or pays only seats at the table, nothing negative, and all
      that is held; a void table gives each seat its own stake back, and any other what
      the outcome says. */
  lemma SharesAreAccepted(order: seq<nat>, funded: map<nat, int>, out: Outcome)
    ensures SharesFor(order, funded, out).Some? <==>
      && (forall s :: s in order ==> s in funded && funded[s] > 0) && Total(order, funded) <= 21_000_000 * 100_000_000
      && (out.Divides? ==>
            && Total(order, out.shares) == Total(order, funded)
            && forall s :: s in out.shares ==> s in order && out.shares[s] >= 0)
    ensures SharesFor(order, funded, out).Some? ==>
      var shares := SharesFor(order, funded, out).value;
      && shares.Keys == (set s | s in order)
      && forall s :: s in order ==>
           shares[s] == if out.Void? then funded[s] else if s in out.shares then out.shares[s] else 0
  {
    assert (forall s :: s in order ==> At(funded, s) > 0) <==>
      forall i :: 0 <= i < |order| ==> At(funded, order[i]) > 0;
  }

  /** Shares that are accepted conserve what the table holds, void or not, and the
      payments they become, over inputs with the same stakes in any order, always
      pass the payout's conservation check. */
  lemma AcceptedSharesConserve(
    order: seq<nat>, funded: map<nat, int>, out: Outcome, owners: map<nat, Bytes>, inputs: seq<Input>,
      proposed: seq<Input>)
    requires Distinct(order) && SharesFor(order, funded, out).Some?
    requires forall i :: 0 <= i < |order| ==> order[i] in owners
    requires |inputs| == |order| && forall i :: 0 <= i < |order| ==> inputs[i].terms.atoms == At(funded, order[i])
    requires multiset(proposed) == multiset(inputs)
    ensures
      var shares := SharesFor(order, funded, out).value;
      && Total(order, shares) == Total(order, funded)
      && (forall i :: 0 <= i < |order| ==> order[i] in shares && shares[order[i]] >= 0)
      && Stakes(proposed) == Gross(PaymentsOf(order, owners, shares)) <= MAX_ATOMS
  {
    var shares := SharesFor(order, funded, out).value;
    match out {
      case Void => TotalAgrees(order, shares, funded);
      case Divides(m) => TotalAgrees(order, shares, m);
    }
    assert forall i :: 0 <= i < |order| ==> order[i] in order;
    GrossOfPayments(order, owners, shares);
    StakesOfInputs(order, funded, inputs);
    StakesOfPermutation(proposed, inputs);
  }

  // ---- The method ----

  /** What each seat is paid, or a refusal of an outcome that does not add up. */
  method DivideTable(order: seq<nat>, funded: map<nat, int>, out: Outcome) returns (shares: Option<map<nat, int>>)
    requires Distinct(order)
    ensures shares == SharesFor(order, funded, out)
  {
    hide Divided;
    var held: i64 := 0;
    for i := 0 to |order|
      invariant 0 <= held <= MAX_ATOMS && held == Total(order[..i], funded)
      invariant forall j :: 0 <= j < i ==> At(funded, order[j]) > 0
    {
      TotalSplits(order, funded, i);
      var amount := At(funded, order[i]);
      if amount <= 0 || amount > MAX_ATOMS - held {
        TooMuchIsRefused(order, funded, i);
        return None;
      }
      held := held + amount;
    }
    assert order[..|order|] == order;
    if out.Void? {
      return Some(map s | s in order :: At(funded, s));
    }
    var ok := AddsUp(order, funded, out.shares, held);
    shares := if ok then Some(map s | s in order :: At(out.shares, s)) else None;
  }

  lemma {:induction false} TotalPositive(order: seq<nat>, m: map<nat, int>, i: nat)
    requires i <= |order| && forall j :: 0 <= j < |order| ==> At(m, order[j]) >= 0
    ensures Total(order[..i], m) <= Total(order, m)
    decreases |order| - i
  {
    if i < |order| {
      TotalSplits(order, m, i);
      TotalPositive(order, m, i + 1);
    } else {
      assert order[..i] == order;
    }
  }

  lemma TooMuchIsRefused(order: seq<nat>, funded: map<nat, int>, i: nat)
    requires i < |order| && (At(funded, order[i]) <= 0 || Total(order[..i + 1], funded) > MAX_ATOMS)
    ensures !StakesFit(order, funded)
  {
    if forall j :: 0 <= j < |order| ==> At(funded, order[j]) > 0 {
      TotalPositive(order, funded, i + 1);
    }
  }

  method AddsUp(order: seq<nat>, funded: map<nat, int>, m: map<nat, int>, held: i64) returns (ok: bool)
    requires Distinct(order) && held == Total(order, funded) <= MAX_ATOMS
    ensures ok <==> Divided(order, funded, m)
  {
    hide Total, Distinct;
    var paid: i64 := 0;
    var todo := m.Keys;
    ghost var done: map<nat, int> := map[];
    NothingTotals(order);
    while todo != {}
      invariant todo <= m.Keys && done == m - todo
      invariant 0 <= paid <= MAX_ATOMS && paid == Total(order, done)
      invariant forall s :: s in done ==> s in order && m[s] >= 0
      decreases |todo|
    {
      var seat :| seat in todo;
      var amount := m[seat];
      if seat !in order {
        return false;
      }
      TotalAdds(order, done, seat, amount);
      if amount < 0 {
        return false;
      }
      if amount > MAX_ATOMS - paid {
        if forall s :: s in m ==> m[s] >= 0 {
          TotalGrows(order, done[seat := amount], m);
        }
        return false;
      }
      done := done[seat := amount];
      todo := todo - {seat};
      paid := paid + amount;
    }
    assert done == m;
    ok := paid == held;
  }

  lemma {:induction false} NothingTotals(order: seq<nat>)
    ensures Total(order, map[]) == 0
  {
    if order != [] {
      NothingTotals(order[..|order| - 1]);
    }
  }
}
