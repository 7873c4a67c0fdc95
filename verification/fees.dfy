/** Why a payout's fee covers it: the size it is judged by is never below the size of
    the transaction that is signed. */
module Fees {
  import opened ByteStrings
  import Sorting
  import opened Script
  import opened Finance
  import opened Witness
  import opened Payouts

  lemma PushIsShort(d: Bytes)
    requires |d| <= WORST_SIGNATURE
    ensures |Encode(PushData(d))| <= 1 + WORST_SIGNATURE
    ensures |d| == WORST_SIGNATURE ==> |Encode(PushData(d))| == 1 + WORST_SIGNATURE
  {
  }

  lemma {:induction false} PushesAreShort(items: seq<Bytes>)
    requires forall i :: 0 <= i < |items| ==> |items[i]| <= WORST_SIGNATURE
    ensures |Flat(PushTokens(items))| <= |items| * (1 + WORST_SIGNATURE)
  {
    hide Encode, PushData;
    if items != [] {
      PushIsShort(items[0]);
      PushesAreShort(items[1..]);
      FlatFirst(PushData(items[0]), PushTokens(items[1..]));
    }
  }

  lemma {:induction false} WorstPushes(n: nat)
    ensures |Flat(seq(n, _ => PushData(Zeros(WORST_SIGNATURE))))| == n * (1 + WORST_SIGNATURE)
  {
    hide Encode, PushData;
    var ts := seq(n, _ => PushData(Zeros(WORST_SIGNATURE)));
    if n > 0 {
      PushIsShort(Zeros(WORST_SIGNATURE));
      WorstPushes(n - 1);
      assert ts[1..] == seq(n - 1, _ => PushData(Zeros(WORST_SIGNATURE)));
    }
  }

  lemma FlagIsCode()
    ensures PushTokens([[1]]) == [Code(OP_TRUE)]
  {
    assert PushTokens([[1]][1..]) == [];
  }

  /** A settlement witness is never longer than the one the fee was reckoned for. */
  lemma WitnessFitsItsFee(curve: Curve, tx: Spend, t: Terms, signatures: map<Bytes, Bytes>)
    requires SettlementWitness(curve, tx, t, signatures).Some?
    ensures |SettlementWitness(curve, tx, t, signatures).value| <= |WorstScript(curve, t)|
  {
    hide Flat, Encode, PushData, Canonical, DescriptorScript, SettlementPushes, PushTokens;
    var members := Canonical(curve, t).value.members;
    var pushes := SettlementPushes(curve, tx, members, signatures).value;
    var script := DescriptorScript(curve, t).value;
    SettlementPushesSign(curve, tx, members, signatures);
    SettlementPushesCount(curve, tx, members, signatures);
    CanonicalCount(curve, t);
    PushesAreShort(pushes);
    WorstPushes(|t.members|);
    var ones, tail := PushTokens(pushes), [Code(OP_TRUE), PushData(script)];
    assert PushTokens(pushes + [[1]] + [script]) == ones + tail by {
      PushTokensAppend(pushes + [[1]], [script]);
      PushTokensAppend(pushes, [[1]]);
      FlagIsCode();
      OnePush(script);
    }
    FlatAppend(ones, tail);
    FlatAppend(seq(|t.members|, _ => PushData(Zeros(WORST_SIGNATURE))), tail);
  }

  lemma OnePush(d: Bytes)
    ensures PushTokens([d]) == [PushData(d)]
  {
    assert PushTokens([d][1..]) == [];
  }

  lemma CanonicalCount(curve: Curve, t: Terms)
    requires Canonical(curve, t).Some?
    ensures |Canonical(curve, t).value.members| == |t.members|
  {
    hide PublicKey, PublicKeys;
    PublicKeysAreKeys(curve, t.members);
    Sorting.SortSorts(HexAll(PublicKeys(curve, t.members).value), Sorting.Self);
  }

  lemma {:induction false} SettlementPushesCount(curve: Curve, tx: Spend, members: seq<Bytes>,
      signatures: map<Bytes, Bytes>)
    requires SettlementPushes(curve, tx, members, signatures).Some?
    ensures |SettlementPushes(curve, tx, members, signatures).value| == |members|
  {
    hide VerifySignature;
    if members != [] {
      SettlementPushesCount(curve, tx, members[1..], signatures);
    }
  }

  /** Shorter scripts make no larger a transaction. */
  ghost predicate Monotone(size: (seq<Bytes>, seq<Bytes>) -> nat) {
    forall a, b, outs ::
      |a| == |b| && (forall i :: 0 <= i < |a| ==> |a[i]| <= |b[i]|) ==> size(a, outs) <= size(b, outs)
  }

  /** The witnesses the members' signatures make, input by input. */
  predicate Witnesses(curve: Curve, inputs: seq<Input>, txs: seq<Spend>, signatures: seq<map<Bytes, Bytes>>,
      scripts: seq<Bytes>)
  {
    && |txs| == |signatures| == |scripts| == |inputs|
    && forall i :: 0 <= i < |inputs| ==>
         SettlementWitness(curve, txs[i], inputs[i].terms, signatures[i]) == Some(scripts[i])
  }

  /** The fee taken is the fee for a size that the signed transaction, with its own
      outputs and whatever signatures its members make, does not pass. */
  lemma FeeCoversTheSigned(r: Rules, p: Proposal, destinations: map<Bytes, Bytes>, txs: seq<Spend>,
      signatures: seq<map<Bytes, Bytes>>, scripts: seq<Bytes>)
    requires Build(r, p, destinations).Some? && Monotone(r.size)
    requires Witnesses(r.curve, Build(r, p, destinations).value.inputs, txs, signatures, scripts)
    ensures
      var b := Build(r, p, destinations).value;
      var outs := seq(|b.outs|, i requires 0 <= i < |b.outs| => b.outs[i].1);
      b.fee == r.fee(b.size) && r.size(scripts, outs) <= b.size
  {
    hide Canonical, Sorting.Sort, WorstScript, SettlementWitness, Balanced, NetFits, Monotone;
    var b := Build(r, p, destinations).value;
    var outs := seq(|b.outs|, i requires 0 <= i < |b.outs| => b.outs[i].1);
    var worst := WorstScripts(r.curve, b.inputs);
    assert outs == OutScripts(r, destinations, Sorting.Sort(p.payments, Payouts.KeyOf));
    forall i | 0 <= i < |scripts| ensures |scripts[i]| <= |worst[i]| {
      WitnessFitsItsFee(r.curve, txs[i], b.inputs[i].terms, signatures[i]);
    }
    NoLarger(r.size, scripts, worst, outs);
  }

  lemma NoLarger(size: (seq<Bytes>, seq<Bytes>) -> nat, a: seq<Bytes>, b: seq<Bytes>, outs: seq<Bytes>)
    requires Monotone(size) && |a| == |b| && forall i :: 0 <= i < |a| ==> |a[i]| <= |b[i]|
    ensures size(a, outs) <= size(b, outs)
  {
  }
}
