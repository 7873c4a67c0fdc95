/** Building a payout step by step in 64-bit arithmetic, and dividing what a table
    holds among its seats. */
module Settlement {
  import opened ByteStrings
  import opened Sorting
  import opened Finance
  import opened Witness
  import opened Payouts

  predicate AllCanonical(inputs: seq<Input>) {
    forall i :: 0 <= i < |inputs| ==> 0 < inputs[i].terms.atoms <= MAX_ATOMS
  }

  lemma {:induction false} CanonicalAtoms(curve: Curve, inputs: seq<Input>)
    ensures CanonicalInputs(curve, inputs).Some? ==> AllCanonical(CanonicalInputs(curve, inputs).value)
  {
    if inputs != [] {
      CanonicalAtoms(curve, inputs[1..]);
    }
  }

  lemma {:induction false} CanonicalExtends(curve: Curve, inputs: seq<Input>, i: nat)
    requires i < |inputs|
    ensures CanonicalInputs(curve, inputs[..i + 1]) ==
      match (CanonicalInputs(curve, inputs[..i]), Canonical(curve, inputs[i].terms))
      case (Some(ts), Some(t)) => Some(ts + [inputs[i].(terms := t)])
      case _ => None
    decreases i
  {
    hide Canonical;
    var more, less := inputs[..i + 1], inputs[..i];
    if i == 0 {
      assert more == [inputs[0]] && more[1..] == [] && less == [];
      assert forall x: seq<Input> :: x + [] == x && [] + x == x;
    } else {
      assert more[1..] == inputs[1..][..i] && less[1..] == inputs[1..][..i - 1];
      CanonicalExtends(curve, inputs[1..], i - 1);
      assert more[0] == inputs[0] && less[0] == inputs[0];
      assert forall x: seq<Input>, y: seq<Input>, z: seq<Input> :: x + (y + z) == x + y + z;
    }
  }

  lemma {:induction false} OneBadInputRefusesAll(curve: Curve, inputs: seq<Input>, i: nat)
    requires i < |inputs| && Canonical(curve, inputs[i].terms).None?
    ensures CanonicalInputs(curve, inputs).None?
  {
    if i > 0 {
      OneBadInputRefusesAll(curve, inputs[1..], i - 1);
    }
  }

  method Normalize(curve: Curve, inputs: seq<Input>) returns (out: Option<seq<Input>>)
    ensures out == CanonicalInputs(curve, inputs)
  {
    hide Canonical;
    var done: seq<Input> := [];
    for i := 0 to |inputs|
      invariant CanonicalInputs(curve, inputs[..i]) == Some(done)
    {
      var t := Canonicalize(curve, inputs[i].terms);
      CanonicalExtends(curve, inputs, i);
      if t.None? {
        OneBadInputRefusesAll(curve, inputs, i);
        return None;
      }
      done := done + [inputs[i].(terms := t.value)];
    }
    assert inputs[..|inputs|] == inputs;
    out := Some(done);
  }

  /** Checks every input against those before it, adding up the stakes. */
  method ScanInputs(table: string, inputs: seq<Input>) returns (ok: bool, total: i64, owners: set<Bytes>)
    requires inputs != [] && AllCanonical(inputs)
    ensures ok <==> forall i :: 0 <= i < |inputs| ==> InputFits(table, inputs, i)
    ensures ok ==> total == Stakes(inputs) && forall k :: k in owners <==> Owns(inputs, k)
  {
    total, owners := 0, {};
    var seen: set<Outpoint> := {};
    var roster := inputs[0].terms.members;
    for i := 0 to |inputs|
      invariant forall j :: 0 <= j < i ==> InputFits(table, inputs, j)
      invariant 0 <= total <= MAX_ATOMS && total == Stakes(inputs[..i])
      invariant forall o :: o in seen <==> exists j :: 0 <= j < i && inputs[j].outpoint == o
      invariant forall k :: k in owners <==> exists j :: 0 <= j < i && inputs[j].terms.recovery == k
    {
      StakesSplit(inputs, i);
      var t := inputs[i].terms;
      if t.table != table || t.kind != "stake" || inputs[i].outpoint in seen || t.recovery in owners
         || inputs[i].outpoint.tree != REGULAR_TREE || t.atoms > MAX_ATOMS - total || t.members != roster {
        assert !InputFits(table, inputs, i);
        return false, total, owners;
      }
      owners, seen := owners + {t.recovery}, seen + {inputs[i].outpoint};
      total := total + t.atoms;
    }
    assert inputs[..|inputs|] == inputs;
    ok := true;
  }

  /** Checks every payment against the one before it, adding them up. */
  method ScanPayments(r: Rules, inputs: seq<Input>, owners: set<Bytes>, destinations: map<Bytes, Bytes>,
      payments: seq<Payment>)
    returns (ok: bool, paid: i64, scripts: seq<Bytes>)
    requires forall k :: k in owners <==> Owns(inputs, k)
    ensures ok <==> forall i :: 0 <= i < |payments| ==> PaymentFits(r, inputs, destinations, payments, i)
    ensures ok ==> paid == Gross(payments) && scripts == OutScripts(r, destinations, payments)
  {
    hide Owns;
    paid, scripts := 0, [];
    for i := 0 to |payments|
      invariant forall j :: 0 <= j < i ==> PaymentFits(r, inputs, destinations, payments, j)
      invariant 0 <= paid <= MAX_ATOMS && paid == Gross(payments[..i])
      invariant scripts == OutScripts(r, destinations, payments)[..i]
    {
      GrossSplit(payments, i);
      var p := payments[i];
      if p.key !in owners || (i > 0 && p.key == payments[i - 1].key) || p.atoms <= 0 || p.atoms > MAX_ATOMS - paid {
        assert !PaymentFits(r, inputs, destinations, payments, i);
        return false, paid, scripts;
      }
      paid := paid + p.atoms;
      var script := r.paysTo(Destination(destinations, p.key));
      if script.None? {
        assert !PaymentFits(r, inputs, destinations, payments, i);
        return false, paid, scripts;
      }
      scripts := scripts + [script.value];
    }
    assert payments[..|payments|] == payments;
    ok := true;
  }

  lemma ProductAtLeast(q: int, n: nat)
    requires q >= 0 && n > 0
    ensures q <= q * n
  {
    assert q * n == q + q * (n - 1);
    assert q * (n - 1) >= 0;
  }

  lemma DeductionIs(fee: int, n: nat, i: nat)
    requires n > 0 && fee > 0
    ensures 0 <= fee / n <= fee && 0 <= fee % n <= fee && 0 <= Deduction(fee, n, i) <= fee
  {
    FeeSplits(fee, n);
    ProductAtLeast(fee / n, n);
  }

  lemma NetAt(payments: seq<Payment>, fee: int, i: nat)
    requires i < |payments|
    ensures |Net(payments, fee)| == |payments|
    ensures Net(payments, fee)[i] == payments[i].(atoms := payments[i].atoms - Deduction(fee, |payments|, i))
  {
  }

  /** Takes the fee from the payments, refusing one that cannot cover its part. */
  method Deduct(r: Rules, payments: seq<Payment>, scripts: seq<Bytes>, fee: i64) returns (ok: bool, net: seq<Payment>)
    requires payments != [] && |payments| == |scripts| && 0 < fee <= MAX_ATOMS
    requires forall i :: 0 <= i < |payments| ==> 0 < payments[i].atoms <= MAX_ATOMS
    ensures ok <==> NetFits(r, Net(payments, fee), scripts)
    ensures ok ==> net == Net(payments, fee)
  {
    hide Net;
    DeductionIs(fee, |payments|, 0);
    NetAt(payments, fee, 0);
    var share: i64, remainder: i64 := fee / |payments|, fee % |payments|;
    ghost var goal := Net(payments, fee);
    net := payments;
    for i := 0 to |payments|
      invariant |net| == |payments| == |goal|
      invariant forall j :: 0 <= j < i ==> net[j] == goal[j] && net[j].atoms > 0 && !r.dust(net[j].atoms, scripts[j])
      invariant forall j :: i <= j < |net| ==> net[j] == payments[j]
    {
      var deduction: i64 := share;
      if i == 0 {
        deduction := deduction + remainder;
      }
      DeductionIs(fee, |payments|, i);
      NetAt(payments, fee, i);
      assert deduction == Deduction(fee, |payments|, i);
      var left: i64 := net[i].atoms - deduction;
      net := net[i := net[i].(atoms := left)];
      if left <= 0 || r.dust(left, scripts[i]) {
        assert goal[i].atoms == left;
        return false, net;
      }
    }
    ok := true;
  }

  method RosterCovered(roster: seq<Bytes>, owners: set<Bytes>, destinations: map<Bytes, Bytes>) returns (ok: bool)
    ensures ok <==> forall k :: k in roster ==> k in owners && Destination(destinations, k) != []
  {
    for i := 0 to |roster|
      invariant forall j :: 0 <= j < i ==> roster[j] in owners && Destination(destinations, roster[j]) != []
    {
      if roster[i] !in owners || Destination(destinations, roster[i]) == [] {
        assert roster[i] in roster;
        return false;
      }
    }
    ok := true;
  }

  /** The only transaction an operator may approve. Every accumulator is a 64-bit
      integer that no step takes out of range. */
  method BuildPayout(r: Rules, p: Proposal, destinations: map<Bytes, Bytes>) returns (b: Option<Built>)
    ensures b == Build(r, p, destinations)
  {
    hide Sort, CanonicalInputs, WorstScripts, OutScripts, InputFits, Owns;
    if p.table == "" || |p.inputs| < 2 || |p.inputs| > MAX_MEMBERS || |p.payments| == 0 || |p.payments| > MAX_MEMBERS {
      return None;
    }
    var normal := Normalize(r.curve, p.inputs);
    if normal.None? {
      return None;
    }
    CanonicalLength(r.curve, p.inputs);
    CanonicalAtoms(r.curve, p.inputs);
    SortSorts(normal.value, RecoveryOf);
    SortSorts(p.payments, KeyOf);
    var inputs := Sort(normal.value, RecoveryOf);
    var payments := Sort(p.payments, KeyOf);
    SortedAtoms(normal.value, inputs);
    b := BuildInOrder(r, p.table, destinations, inputs, payments);
  }

  lemma SortedAtoms(a: seq<Input>, b: seq<Input>)
    requires AllCanonical(a) && multiset(a) == multiset(b)
    ensures AllCanonical(b)
  {
    forall i | 0 <= i < |b| ensures 0 < b[i].terms.atoms <= MAX_ATOMS {
      assert b[i] in multiset(a);
      var j :| 0 <= j < |a| && a[j] == b[i];
    }
  }

  method BuildInOrder(r: Rules, table: string, destinations: map<Bytes, Bytes>, inputs: seq<Input>,
      payments: seq<Payment>) returns (b: Option<Built>)
    requires inputs != [] && payments != [] && AllCanonical(inputs)
    ensures b == BuildSorted(r, table, destinations, inputs, payments)
  {
    hide WorstScripts, InputFits, Owns, OutScripts, NetFits, PaymentFits;
    var ok, total, owners := ScanInputs(table, inputs);
    if !ok {
      return None;
    }
    var roster := inputs[0].terms.members;
    if |inputs| != |roster| || |destinations| != |roster| {
      return None;
    }
    ok := RosterCovered(roster, owners, destinations);
    if !ok {
      return None;
    }
    var paid, scripts;
    ok, paid, scripts := ScanPayments(r, inputs, owners, destinations, payments);
    if !ok || total != paid {
      return None;
    }
    var size := r.size(WorstScripts(r.curve, inputs), scripts);
    var fee := r.fee(size);
    if fee <= 0 || fee > total {
      return None;
    }
    FittedPayments(r, table, destinations, inputs, payments);
    var net;
    ok, net := Deduct(r, payments, scripts, fee);
    if !ok {
      return None;
    }
    b := Some(Built(
      seq(|inputs|, i requires 0 <= i < |inputs| => (inputs[i].outpoint, inputs[i].terms.atoms)),
      seq(|net|, i requires 0 <= i < |net| => (net[i].atoms, scripts[i])), inputs, net, fee, size));
  }

  lemma FittedPayments(r: Rules, table: string, destinations: map<Bytes, Bytes>, inputs: seq<Input>,
      payments: seq<Payment>)
    requires inputs != [] && payments != [] && Balanced(r, table, destinations, inputs, payments)
    ensures Stakes(inputs) <= MAX_ATOMS && |OutScripts(r, destinations, payments)| == |payments|
    ensures forall i :: 0 <= i < |payments| ==> 0 < payments[i].atoms <= MAX_ATOMS
  {
    hide Owns, Covers;
    FittingIsBounded(table, inputs);
    assert PaymentFits(r, inputs, destinations, payments, |payments| - 1);
    assert payments[..|payments|] == payments;
    forall i | 0 <= i < |payments| ensures payments[i].atoms > 0 && Gross(payments[..i + 1]) <= MAX_ATOMS {
      assert PaymentFits(r, inputs, destinations, payments, i);
    }
    forall i | 0 <= i < |payments| ensures 0 < payments[i].atoms <= MAX_ATOMS {
      GrossSplit(payments, i);
      GrossIsPositive(payments, i);
    }
  }

  lemma {:induction false} GrossIsPositive(payments: seq<Payment>, i: nat)
    requires i <= |payments| && forall j :: 0 <= j < i ==> payments[j].atoms > 0
    ensures Gross(payments[..i]) >= 0
  {
    if i > 0 {
      GrossSplit(payments, i - 1);
      GrossIsPositive(payments, i - 1);
    }
  }
}
