/** Payouts: one transaction from whatever order and spelling a game proposes it
    in, every atom accounted for, and the shares that lead to it. */
module Payouts {
  import opened ByteStrings
  import opened Sorting
  import opened Script
  import opened Finance
  import opened Witness

  datatype Outpoint = Outpoint(hash: Bytes, index: nat, tree: nat)
  datatype Input = Input(outpoint: Outpoint, terms: Terms)
  datatype Payment = Payment(key: Bytes, atoms: int)
  datatype Proposal = Proposal(table: string, inputs: seq<Input>, payments: seq<Payment>)

  /** The bridge's own rules: what an address pays to, the size of a transaction
      from its input and output scripts, the fee for a size, and what is dust. */
  datatype Rules = Rules(
    curve: Curve, paysTo: Bytes -> Option<Bytes>, size: (seq<Bytes>, seq<Bytes>) -> nat, fee: nat -> int,
      dust: (int, Bytes) -> bool)

  datatype Built = Built(
    ins: seq<(Outpoint, int)>, outs: seq<(int, Bytes)>, inputs: seq<Input>, payments: seq<Payment>, fee: int, size: nat)

  const REGULAR_TREE: nat := 0
  const WORST_SIGNATURE: nat := 73

  // ---- Sums ----

  function Stakes(inputs: seq<Input>): int {
    if inputs == [] then 0 else Stakes(inputs[..|inputs| - 1]) + inputs[|inputs| - 1].terms.atoms
  }

  function Gross(payments: seq<Payment>): int {
    if payments == [] then 0 else Gross(payments[..|payments| - 1]) + payments[|payments| - 1].atoms
  }

  // ---- What is built ----

  function RecoveryOf(i: Input): Bytes { i.terms.recovery }
  function KeyOf(p: Payment): Bytes { p.key }

  function CanonicalInputs(curve: Curve, inputs: seq<Input>): Option<seq<Input>> {
    if inputs == [] then Some([])
    else
      match (Canonical(curve, inputs[0].terms), CanonicalInputs(curve, inputs[1..]))
      case (Some(t), Some(rest)) => Some([inputs[0].(terms := t)] + rest)
      case _ => None
  }

  predicate InputFits(table: string, inputs: seq<Input>, i: nat)
    requires i < |inputs|
  {
    var t := inputs[i].terms;
    && t.table == table && t.kind == "stake" && inputs[i].outpoint.tree == REGULAR_TREE
    && (forall j :: 0 <= j < i ==> inputs[j].outpoint != inputs[i].outpoint && inputs[j].terms.recovery != t.recovery)
    && Stakes(inputs[..i + 1]) <= MAX_ATOMS
    && t.members == inputs[0].terms.members
  }

  predicate Owns(inputs: seq<Input>, key: Bytes) {
    exists i :: 0 <= i < |inputs| && inputs[i].terms.recovery == key
  }

  function Destination(destinations: map<Bytes, Bytes>, key: Bytes): Bytes {
    if key in destinations then destinations[key] else []
  }

  predicate Covers(inputs: seq<Input>, destinations: map<Bytes, Bytes>)
    requires inputs != []
  {
    var roster := inputs[0].terms.members;
    && |inputs| == |roster| == |destinations|
    && forall k :: k in roster ==> Owns(inputs, k) && Destination(destinations, k) != []
  }

  predicate PaymentFits(r: Rules, inputs: seq<Input>, destinations: map<Bytes, Bytes>, payments: seq<Payment>, i: nat)
    requires i < |payments|
  {
    && Owns(inputs, payments[i].key) && (i > 0 ==> payments[i].key != payments[i - 1].key)
    && payments[i].atoms > 0 && Gross(payments[..i + 1]) <= MAX_ATOMS
    && r.paysTo(Destination(destinations, payments[i].key)).Some?
  }

  function Zeros(n: nat): Bytes { BE(0, n) }

  /** An input's script at its largest: every signature of the longest encoding. */
  function WorstScript(curve: Curve, t: Terms): Bytes {
    Flat(seq(|t.members|, _ => PushData(Zeros(WORST_SIGNATURE))) +
      [Code(OP_TRUE), PushData(DescriptorScript(curve, t).GetOr([]))])
  }

  function WorstScripts(curve: Curve, inputs: seq<Input>): seq<Bytes> {
    seq(|inputs|, i requires 0 <= i < |inputs| => WorstScript(curve, inputs[i].terms))
  }

  function OutScripts(r: Rules, destinations: map<Bytes, Bytes>, payments: seq<Payment>): seq<Bytes> {
    seq(|payments|, i requires 0 <= i < |payments| => r.paysTo(Destination(destinations, payments[i].key)).GetOr([]))
  }

  /** The fee split evenly, the remainder on the first. */
  function Deduction(fee: int, n: nat, i: nat): int
    requires n > 0
  {
    fee / n + if i == 0 then fee % n else 0
  }

  function Net(payments: seq<Payment>, fee: int): seq<Payment>
    requires payments != []
  {
    seq(|payments|, i requires 0 <= i < |payments| => payments[i].(atoms := payments[i].atoms - Deduction(fee,
      |payments|, i)))
  }

  predicate NetFits(r: Rules, net: seq<Payment>, scripts: seq<Bytes>)
    requires |net| == |scripts|
  {
    forall i :: 0 <= i < |net| ==> net[i].atoms > 0 && !r.dust(net[i].atoms, scripts[i])
  }

  predicate Shaped(p: Proposal) {
    p.table != "" && 2 <= |p.inputs| <= MAX_MEMBERS && 1 <= |p.payments| <= MAX_MEMBERS
  }

  predicate Balanced(r: Rules, table: string, destinations: map<Bytes, Bytes>, inputs: seq<Input>,
      payments: seq<Payment>)
    requires inputs != []
  {
    && (forall i :: 0 <= i < |inputs| ==> InputFits(table, inputs, i))
    && Covers(inputs, destinations)
    && (forall i :: 0 <= i < |payments| ==> PaymentFits(r, inputs, destinations, payments, i))
    && Stakes(inputs) == Gross(payments)
  }

  /** The payout of canonical inputs and payments in some sorted order. */
  function BuildSorted(r: Rules, table: string, destinations: map<Bytes, Bytes>, inputs: seq<Input>,
      payments: seq<Payment>): Option<Built>
    requires inputs != [] && payments != []
  {
    if !Balanced(r, table, destinations, inputs, payments) then None
    else
      var scripts := OutScripts(r, destinations, payments);
      var size := r.size(WorstScripts(r.curve, inputs), scripts);
      var fee := r.fee(size);
      if fee <= 0 || fee > Stakes(inputs) then None
      else
        var net := Net(payments, fee);
        if !NetFits(r, net, scripts) then None
        else
          Some(Built(
            seq(|inputs|, i requires 0 <= i < |inputs| => (inputs[i].outpoint, inputs[i].terms.atoms)),
            seq(|net|, i requires 0 <= i < |net| => (net[i].atoms, scripts[i])), inputs, net, fee, size))
  }

  function Build(r: Rules, p: Proposal, destinations: map<Bytes, Bytes>): Option<Built> {
    if !Shaped(p) then None
    else
      match CanonicalInputs(r.curve, p.inputs)
      case None => None
      case Some(inputs) =>
        SortSorts(inputs, RecoveryOf);
        SortSorts(p.payments, KeyOf);
        CanonicalLength(r.curve, p.inputs);
        BuildSorted(r, p.table, destinations, Sort(inputs, RecoveryOf), Sort(p.payments, KeyOf))
  }

  lemma {:induction false} CanonicalLength(curve: Curve, inputs: seq<Input>)
    ensures CanonicalInputs(curve, inputs).Some? ==> |CanonicalInputs(curve, inputs).value| == |inputs|
  {
    if inputs != [] {
      CanonicalLength(curve, inputs[1..]);
    }
  }

  // ---- Conservation ----

  lemma {:induction false} StakesSplit(inputs: seq<Input>, i: nat)
    requires i < |inputs|
    ensures Stakes(inputs[..i + 1]) == Stakes(inputs[..i]) + inputs[i].terms.atoms
  {
    assert inputs[..i + 1][..i] == inputs[..i];
  }

  lemma GrossSplit(payments: seq<Payment>, i: nat)
    requires i < |payments|
    ensures Gross(payments[..i + 1]) == Gross(payments[..i]) + payments[i].atoms
  {
    assert payments[..i + 1][..i] == payments[..i];
  }

  lemma {:induction false} NetSum(payments: seq<Payment>, fee: int, i: nat)
    requires payments != [] && i <= |payments|
    ensures Gross(Net(payments, fee)[..i]) ==
      Gross(payments[..i]) - (fee / |payments|) * i - (if i == 0 then 0 else fee % |payments|)
  {
    if i > 0 {
      NetSum(payments, fee, i - 1);
      GrossSplit(Net(payments, fee), i - 1);
      GrossSplit(payments, i - 1);
      assert (fee / |payments|) * i == (fee / |payments|) * (i - 1) + fee / |payments|;
    }
  }

  lemma WithoutLast<T>(a: seq<T>)
    requires a != []
    ensures multiset(a[..|a| - 1]) == multiset(a) - multiset{a[|a| - 1]}
  {
    assert a == a[..|a| - 1] + [a[|a| - 1]];
  }

  lemma WithoutOne<T>(b: seq<T>, j: nat)
    requires j < |b|
    ensures multiset(b[..j] + b[j + 1..]) == multiset(b) - multiset{b[j]}
  {
    assert b == b[..j] + ([b[j]] + b[j + 1..]);
    assert multiset(b) == multiset(b[..j]) + (multiset{b[j]} + multiset(b[j + 1..]));
  }

  lemma RestOfPermutation<T>(a: seq<T>, b: seq<T>, j: nat)
    requires a != [] && j < |b| && b[j] == a[|a| - 1] && multiset(a) == multiset(b)
    ensures multiset(a[..|a| - 1]) == multiset(b[..j] + b[j + 1..])
  {
    WithoutLast(a);
    WithoutOne(b, j);
  }

  lemma {:induction false} StakesOfPermutation(a: seq<Input>, b: seq<Input>)
    requires multiset(a) == multiset(b)
    ensures Stakes(a) == Stakes(b)
    decreases |a|
  {
    assert |multiset(a)| == |a| && |multiset(b)| == |b|;
    if a != [] {
      assert a[|a| - 1] in multiset(b);
      var j :| 0 <= j < |b| && b[j] == a[|a| - 1];
      RestOfPermutation(a, b, j);
      StakesOfPermutation(a[..|a| - 1], b[..j] + b[j + 1..]);
      StakesWithout(b, j);
    }
  }

  lemma {:induction false} StakesWithout(b: seq<Input>, j: nat)
    requires j < |b|
    ensures Stakes(b) == Stakes(b[..j] + b[j + 1..]) + b[j].terms.atoms
    decreases |b|
  {
    var last := |b| - 1;
    if j == last {
      assert b[..j] + b[j + 1..] == b[..last];
    } else {
      StakesWithout(b[..last], j);
      var rest := b[..j] + b[j + 1..];
      assert rest[..|rest| - 1] == b[..last][..j] + b[..last][j + 1..];
      assert rest[|rest| - 1] == b[last];
    }
  }

  lemma {:induction false} CanonicalKeepsStakes(curve: Curve, inputs: seq<Input>, i: nat)
    requires CanonicalInputs(curve, inputs).Some? && i <= |inputs|
    ensures
      var out := CanonicalInputs(curve, inputs).value;
      |out| == |inputs| && Stakes(out[..i]) == Stakes(inputs[..i])
  {
    var out := CanonicalInputs(curve, inputs).value;
    CanonicalLength(curve, inputs);
    if i > 0 {
      CanonicalKeepsStakes(curve, inputs, i - 1);
      StakesSplit(inputs, i - 1);
      StakesSplit(out, i - 1);
      CanonicalAt(curve, inputs, i - 1);
    }
  }

  lemma {:induction false} CanonicalAt(curve: Curve, inputs: seq<Input>, i: nat)
    requires CanonicalInputs(curve, inputs).Some? && i < |inputs|
    ensures
      var out := CanonicalInputs(curve, inputs).value;
      |out| == |inputs| && Canonical(curve, inputs[i].terms).Some?
      && out[i] == inputs[i].(terms := Canonical(curve, inputs[i].terms).value)
  {
    CanonicalLength(curve, inputs);
    if i > 0 {
      CanonicalAt(curve, inputs[1..], i - 1);
    }
  }

  // ---- Whom it pays, and from what ----

  /** What an input puts in. */
  function Stake(i: Input): (Outpoint, int) { (i.outpoint, i.terms.atoms) }

  /** Whose stake an input is. */
  predicate OwnedBy(curve: Curve, i: Input, key: Bytes) {
    Canonical(curve, i.terms).Some? && Canonical(curve, i.terms).value.recovery == key
  }

  lemma OwnerIsMember(curve: Curve, t: Terms)
    requires Canonical(curve, t).Some? && t.kind == "stake"
    ensures Canonical(curve, t).value.recovery in Canonical(curve, t).value.members
  {
    hide Sort, PublicKey, PublicKeys;
  }

  /** Whoever owns an input of a covered roster has a destination. */
  lemma OwnersHaveDestinations(table: string, inputs: seq<Input>, destinations: map<Bytes, Bytes>, key: Bytes)
    requires inputs != [] && Covers(inputs, destinations) && Owns(inputs, key)
    requires forall i :: 0 <= i < |inputs| ==> InputFits(table, inputs, i)
    requires forall i :: 0 <= i < |inputs| ==> inputs[i].terms.recovery in inputs[i].terms.members
    ensures key in destinations && Destination(destinations, key) == destinations[key]
  {
    var i :| 0 <= i < |inputs| && inputs[i].terms.recovery == key;
    assert InputFits(table, inputs, i);
    assert key in inputs[0].terms.members;
  }

  /** Sorted canonical inputs are the inputs proposed, each with its owner a member. */
  lemma SortedInputsAreProposed(curve: Curve, inputs: seq<Input>)
    requires CanonicalInputs(curve, inputs).Some?
    ensures
      var sorted := Sort(CanonicalInputs(curve, inputs).value, RecoveryOf);
      && |sorted| == |inputs| && multiset(Map(Stake, sorted)) == multiset(Map(Stake, inputs))
      && forall i :: 0 <= i < |sorted| ==>
           && (sorted[i].terms.kind == "stake" ==> sorted[i].terms.recovery in sorted[i].terms.members)
           && exists j :: 0 <= j < |inputs| && Canonical(curve, inputs[j].terms) == Some(sorted[i].terms)
  {
    hide Canonical, Sort;
    var out := CanonicalInputs(curve, inputs).value;
    var sorted := Sort(out, RecoveryOf);
    SortSorts(out, RecoveryOf);
    MapPermutes(Stake, sorted, out);
    CanonicalLength(curve, inputs);
    forall j | 0 <= j < |inputs|
      ensures out[j] == inputs[j].(terms := out[j].terms) && Canonical(curve, inputs[j].terms) == Some(out[j].terms)
      ensures Stake(out[j]) == Stake(inputs[j])
    {
      CanonicalAt(curve, inputs, j);
      CanonicalScope(curve, inputs[j].terms);
    }
    assert Map(Stake, out) == Map(Stake, inputs);
    forall i | 0 <= i < |sorted|
      ensures sorted[i].terms.kind == "stake" ==> sorted[i].terms.recovery in sorted[i].terms.members
      ensures exists j :: 0 <= j < |inputs| && Canonical(curve, inputs[j].terms) == Some(sorted[i].terms)
    {
      assert sorted[i] in multiset(out);
      var j :| 0 <= j < |out| && out[j] == sorted[i];
      CanonicalScope(curve, inputs[j].terms);
      if sorted[i].terms.kind == "stake" {
        OwnerIsMember(curve, inputs[j].terms);
      }
    }
  }

  lemma CanonicalScope(curve: Curve, t: Terms)
    requires Canonical(curve, t).Some?
    ensures Canonical(curve, t).value.kind == t.kind && Canonical(curve, t).value.atoms == t.atoms
  {
    hide Sort, PublicKey, PublicKeys;
  }

  /** The output of one payment: at its own key's destination, less its part of the fee,
      and judged dust or not as it stands there. */
  lemma OutputPaysOwner(r: Rules, table: string, destinations: map<Bytes, Bytes>, inputs: seq<Input>,
      payments: seq<Payment>, i: nat)
    requires inputs != [] && i < |payments| && BuildSorted(r, table, destinations, inputs, payments).Some?
    requires forall j :: 0 <= j < |inputs| && inputs[j].terms.kind == "stake" ==>
      inputs[j].terms.recovery in inputs[j].terms.members
    ensures
      var b, key := BuildSorted(r, table, destinations, inputs, payments).value, payments[i].key;
      && |b.outs| == |payments| && key in destinations && r.paysTo(destinations[key]) == Some(b.outs[i].1)
      && !r.dust(b.outs[i].0, b.outs[i].1)
      && Owns(inputs, key)
      && b.outs[i].0 == payments[i].atoms - b.fee / |payments| - (if i == 0 then b.fee % |payments| else 0)
  {
    hide WorstScripts, Owns, Covers;
    forall j | 0 <= j < |inputs| ensures inputs[j].terms.recovery in inputs[j].terms.members {
      assert InputFits(table, inputs, j);
    }
    assert PaymentFits(r, inputs, destinations, payments, i);
    OwnersHaveDestinations(table, inputs, destinations, payments[i].key);
  }

  /** Payouts conserve money: what is paid out and the fee are the stakes to the atom.
      The transaction spends exactly the outpoints proposed, for what is staked there.
      Each output pays a key that owns one of them, at that key's own destination, the
      payment less an even part of the fee, the first bearing the remainder; none is
      dust there. */
  lemma PayoutConserves(r: Rules, p: Proposal, destinations: map<Bytes, Bytes>)
    requires Build(r, p, destinations).Some?
    ensures
      var b := Build(r, p, destinations).value;
      var gross := Sort(p.payments, KeyOf);
      && Gross(b.payments) + b.fee == Stakes(p.inputs) <= MAX_ATOMS && b.fee > 0
      && |b.payments| == |gross| == |b.outs| == |p.payments|
      && (forall i :: 0 <= i < |gross| ==>
        b.payments[i].key == gross[i].key && 0 < b.payments[i].atoms <= gross[i].atoms)
      && (forall i :: 0 <= i < |gross| ==> b.outs[i].0 == b.payments[i].atoms)
    ensures
      var b := Build(r, p, destinations).value;
      var gross := Sort(p.payments, KeyOf);
      && |b.outs| == |gross| && multiset(b.ins) == multiset(Map(Stake, p.inputs))
      && (forall i :: 0 <= i < |gross| ==>
        && gross[i].key in destinations && r.paysTo(destinations[gross[i].key]) == Some(b.outs[i].1)
        && !r.dust(b.outs[i].0, b.outs[i].1)
        && b.outs[i].0 == gross[i].atoms - b.fee / |gross| - (if i == 0 then b.fee % |gross| else 0)
        && exists j :: 0 <= j < |p.inputs| && OwnedBy(r.curve, p.inputs[j], gross[i].key))
  {
    hide Build, CanonicalInputs, Sort, OwnedBy;
    BuiltConserves(r, p, destinations);
    BuiltPaysOwners(r, p, destinations);
  }

  lemma BuildsFromSorted(r: Rules, p: Proposal, destinations: map<Bytes, Bytes>)
    requires Build(r, p, destinations).Some?
    ensures p.payments != [] && p.inputs != [] && CanonicalInputs(r.curve, p.inputs).Some?
    ensures
      var inputs, gross := CanonicalInputs(r.curve, p.inputs).value, Sort(p.payments, KeyOf);
      && |inputs| == |p.inputs| == |Sort(inputs, RecoveryOf)| && |gross| == |p.payments|
      && BuildSorted(r, p.table, destinations, Sort(inputs, RecoveryOf), gross) == Build(r, p, destinations)
      && Build(r, p, destinations).value.ins == Map(Stake, Sort(inputs, RecoveryOf))
      && |Build(r, p, destinations).value.outs| == |gross|
  {
    hide CanonicalInputs, Sort, Balanced, OutScripts, WorstScripts, NetFits;
    var inputs := CanonicalInputs(r.curve, p.inputs).value;
    SortSorts(inputs, RecoveryOf);
    SortSorts(p.payments, KeyOf);
    CanonicalLength(r.curve, p.inputs);
    assert Build(r, p, destinations).value.ins == Map(Stake, Sort(inputs, RecoveryOf));
  }

  lemma BuiltPaysOwners(r: Rules, p: Proposal, destinations: map<Bytes, Bytes>)
    requires Build(r, p, destinations).Some?
    ensures
      var b := Build(r, p, destinations).value;
      var gross := Sort(p.payments, KeyOf);
      && |b.outs| == |gross| && multiset(b.ins) == multiset(Map(Stake, p.inputs))
      && (forall i :: 0 <= i < |gross| ==>
        && gross[i].key in destinations && r.paysTo(destinations[gross[i].key]) == Some(b.outs[i].1)
        && !r.dust(b.outs[i].0, b.outs[i].1)
        && b.outs[i].0 == gross[i].atoms - b.fee / |gross| - (if i == 0 then b.fee % |gross| else 0)
        && exists j :: 0 <= j < |p.inputs| && OwnedBy(r.curve, p.inputs[j], gross[i].key))
  {
    hide Build, Canonical, CanonicalInputs, Sort, BuildSorted, OwnedBy, Owns;
    BuildsFromSorted(r, p, destinations);
    var inputs := CanonicalInputs(r.curve, p.inputs).value;
    var sorted, gross := Sort(inputs, RecoveryOf), Sort(p.payments, KeyOf);
    SortedInputsAreProposed(r.curve, p.inputs);
    assert forall i :: 0 <= i < |sorted| ==>
      exists j :: 0 <= j < |p.inputs| && Canonical(r.curve, p.inputs[j].terms) == Some(sorted[i].terms);
    forall i | 0 <= i < |gross|
      ensures
        var b := Build(r, p, destinations).value;
        && gross[i].key in destinations && r.paysTo(destinations[gross[i].key]) == Some(b.outs[i].1)
        && !r.dust(b.outs[i].0, b.outs[i].1)
        && b.outs[i].0 == gross[i].atoms - b.fee / |gross| - (if i == 0 then b.fee % |gross| else 0)
        && exists j :: 0 <= j < |p.inputs| && OwnedBy(r.curve, p.inputs[j], gross[i].key)
    {
      OutputPaysOwner(r, p.table, destinations, sorted, gross, i);
      OwnerIsProposed(r.curve, p.inputs, sorted, gross[i].key);
    }
  }

  lemma OwnerIsProposed(curve: Curve, inputs: seq<Input>, sorted: seq<Input>, key: Bytes)
    requires Owns(sorted, key)
    requires forall i :: 0 <= i < |sorted| ==>
      exists j :: 0 <= j < |inputs| && Canonical(curve, inputs[j].terms) == Some(sorted[i].terms)
    ensures exists j :: 0 <= j < |inputs| && OwnedBy(curve, inputs[j], key)
  {
    hide Canonical;
    var k :| 0 <= k < |sorted| && sorted[k].terms.recovery == key;
    var j :| 0 <= j < |inputs| && Canonical(curve, inputs[j].terms) == Some(sorted[k].terms);
    assert OwnedBy(curve, inputs[j], key);
  }

  /** The amounts, to the atom. */
  lemma BuiltConserves(r: Rules, p: Proposal, destinations: map<Bytes, Bytes>)
    requires Build(r, p, destinations).Some?
    ensures
      var b := Build(r, p, destinations).value;
      var gross := Sort(p.payments, KeyOf);
      && Gross(b.payments) + b.fee == Stakes(p.inputs) <= MAX_ATOMS && b.fee > 0
      && |b.payments| == |gross| == |b.outs| == |p.payments|
      && (forall i :: 0 <= i < |gross| ==>
        b.payments[i].key == gross[i].key && 0 < b.payments[i].atoms <= gross[i].atoms)
      && (forall i :: 0 <= i < |gross| ==> b.outs[i].0 == b.payments[i].atoms)
  {
    hide Build, CanonicalInputs, Canonical, Sort, OutScripts, WorstScripts, Covers, PaymentFits, InputFits;
    BuildsFromSorted(r, p, destinations);
    var inputs := CanonicalInputs(r.curve, p.inputs).value;
    var sorted, gross := Sort(inputs, RecoveryOf), Sort(p.payments, KeyOf);
    SortSorts(inputs, RecoveryOf);
    SortSorts(p.payments, KeyOf);
    StakesOfPermutation(sorted, inputs);
    CanonicalKeepsStakes(r.curve, p.inputs, |p.inputs|);
    assert inputs[..|p.inputs|] == inputs && p.inputs[..|p.inputs|] == p.inputs;
    var b := Build(r, p, destinations).value;
    NetSum(gross, b.fee, |gross|);
    assert gross[..|gross|] == gross && b.payments[..|gross|] == b.payments;
    FeeSplits(b.fee, |gross|);
    assert Stakes(sorted) <= MAX_ATOMS by { FittingIsBounded(p.table, sorted); }
  }

  lemma FeeSplits(fee: int, n: nat)
    requires n > 0 && fee > 0
    ensures (fee / n) * n + fee % n == fee && fee / n >= 0 && fee % n >= 0
  {
  }

  lemma FittingIsBounded(table: string, inputs: seq<Input>)
    requires inputs != [] && forall i :: 0 <= i < |inputs| ==> InputFits(table, inputs, i)
    ensures Stakes(inputs) <= MAX_ATOMS
  {
    assert InputFits(table, inputs, |inputs| - 1);
    assert inputs[..|inputs|] == inputs;
  }
}
