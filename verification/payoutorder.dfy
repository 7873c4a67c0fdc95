/** A payout is a function of what is proposed, not of how: neither the order of
    inputs, payments or members nor the case of any key in an input's terms reaches
    the transaction. */
module PayoutOrder {
  import opened ByteStrings
  import opened Sorting
  import opened Finance
  import opened Witness
  import opened Payouts

  // ---- Case ----

  function LowerDigit(c: byte): byte { if 65 <= c < 71 then c + 32 else c }

  function LowerHex(s: Bytes): Bytes { seq(|s|, i requires 0 <= i < |s| => LowerDigit(s[i])) }

  lemma DigitIgnoresCase(c: byte)
    ensures UnhexDigit(LowerDigit(c)) == UnhexDigit(c)
    ensures UnhexDigit(c).Some? ==> UnhexDigit(c).value < 16 && HexDigit(UnhexDigit(c).value) == LowerDigit(c)
  {
  }

  lemma {:induction false} UnhexIgnoresCase(s: Bytes)
    ensures Unhex(LowerHex(s)) == Unhex(s)
    decreases |s|
  {
    if |s| >= 2 {
      DigitIgnoresCase(s[0]);
      DigitIgnoresCase(s[1]);
      UnhexIgnoresCase(s[2..]);
      assert LowerHex(s)[2..] == LowerHex(s[2..]);
    } else if s == [] {
      assert LowerHex(s) == [];
    }
  }

  lemma {:induction false} HexOfUnhex(s: Bytes)
    requires Unhex(s).Some?
    ensures Hex(Unhex(s).value) == LowerHex(s)
    decreases |s|
  {
    if s == [] {
      assert LowerHex(s) == [];
    } else {
      var b, low := Unhex(s).value, LowerHex(s);
      HexOfUnhex(s[2..]);
      assert b[1..] == Unhex(s[2..]).value;
      PairRoundTrip(s[0], s[1]);
      assert low == [low[0], low[1]] + low[2..];
      assert low[2..] == LowerHex(s[2..]);
    }
  }

  /** Two digits and the byte they spell. */
  lemma PairRoundTrip(c: byte, d: byte)
    requires UnhexDigit(c).Some? && UnhexDigit(d).Some?
    ensures
      var b := UnhexDigit(c).value * 16 + UnhexDigit(d).value;
      b < 256 && HexDigit(b / 16) == LowerDigit(c) && HexDigit(b % 16) == LowerDigit(d)
  {
    DigitIgnoresCase(c);
    DigitIgnoresCase(d);
  }

  function LowerAll(texts: seq<Bytes>): seq<Bytes> { seq(|texts|, i requires 0 <= i < |texts| => LowerHex(texts[i])) }

  lemma {:induction false} AllKeysOrNone(curve: Curve, texts: seq<Bytes>)
    ensures PublicKeys(curve, texts).Some? <==> forall i :: 0 <= i < |texts| ==> PublicKey(curve, texts[i]).Some?
    ensures PublicKeys(curve, texts).Some? ==> HexAll(PublicKeys(curve, texts).value) == LowerAll(texts)
  {
    if texts != [] {
      AllKeysOrNone(curve, texts[1..]);
      if Unhex(texts[0]).Some? {
        HexOfUnhex(texts[0]);
      }
      assert LowerAll(texts) == [LowerHex(texts[0])] + LowerAll(texts[1..]);
      assert (forall i :: 0 <= i < |texts| ==> PublicKey(curve, texts[i]).Some?) <==>
             PublicKey(curve, texts[0]).Some? && forall i :: 0 <= i < |texts[1..]| ==>
               PublicKey(curve, texts[1..][i]).Some? by {
        assert forall i :: 0 < i < |texts| ==> texts[i] == texts[1..][i - 1];
      }
    } else {
      assert LowerAll(texts) == [];
    }
  }

  // ---- Descriptors ----

  /** A descriptor with case and member order put aside. */
  function Plain(t: Terms): Terms {
    t.(identity := LowerHex(t.identity), recovery := LowerHex(t.recovery), members := Sort(LowerAll(t.members), Self))
  }

  lemma PermutedAllKeys(curve: Curve, a: seq<Bytes>, b: seq<Bytes>)
    requires multiset(a) == multiset(b)
    ensures (forall i :: 0 <= i < |a| ==> PublicKey(curve, a[i]).Some?) ==> forall i :: 0 <= i < |b| ==>
      PublicKey(curve, b[i]).Some?
  {
    if forall i :: 0 <= i < |a| ==> PublicKey(curve, a[i]).Some? {
      forall i | 0 <= i < |b| ensures PublicKey(curve, b[i]).Some? {
        assert b[i] in multiset(a);
        var j :| 0 <= j < |a| && a[j] == b[i];
      }
    }
  }

  lemma LowerTwice(s: Bytes)
    ensures LowerHex(LowerHex(s)) == LowerHex(s)
  {
  }

  /** The members of a descriptor and of its plain form give the same keys, sorted. */
  lemma MembersOfPlain(curve: Curve, texts: seq<Bytes>)
    ensures
      var low := LowerAll(texts);
      var sorted := Sort(low, Self);
      && (PublicKeys(curve, sorted).Some? <==> PublicKeys(curve, texts).Some?)
      && (PublicKeys(curve, texts).Some? ==>
            Sort(HexAll(PublicKeys(curve, sorted).value), Self) == Sort(HexAll(PublicKeys(curve, texts).value), Self))
  {
    hide PublicKey;
    var low := LowerAll(texts);
    var sorted := Sort(low, Self);
    SortSorts(low, Self);
    AllKeysOrNone(curve, texts);
    AllKeysOrNone(curve, low);
    AllKeysOrNone(curve, sorted);
    PermutedAllKeys(curve, low, sorted);
    PermutedAllKeys(curve, sorted, low);
    forall i | 0 <= i < |texts| ensures PublicKey(curve, low[i]) == PublicKey(curve, texts[i]) {
      KeyIgnoresCase(curve, texts[i]);
    }
    assert LowerAll(sorted) == sorted by {
      forall i | 0 <= i < |sorted| ensures LowerHex(sorted[i]) == sorted[i] {
        assert sorted[i] in multiset(low);
        var j :| 0 <= j < |low| && low[j] == sorted[i];
        LowerTwice(texts[j]);
      }
    }
    SelfIdentifies(sorted);
    SortIgnoresOrder(sorted, low, Self);
  }

  lemma KeyIgnoresCase(curve: Curve, text: Bytes)
    ensures PublicKey(curve, LowerHex(text)) == PublicKey(curve, text)
  {
    UnhexIgnoresCase(text);
  }

  /** A descriptor has one canonical form, whatever its case and member order. */
  lemma CanonicalOfPlain(curve: Curve, t: Terms)
    ensures Canonical(curve, Plain(t)) == Canonical(curve, t)
  {
    hide PublicKey, PublicKeys, Sort, LowerAll, LowerHex, NoRepeats, RosterFits;
    KeyIgnoresCase(curve, t.identity);
    KeyIgnoresCase(curve, t.recovery);
    MembersOfPlain(curve, t.members);
  }

  // ---- Inputs ----

  function PlainInput(i: Input): Input { i.(terms := Plain(i.terms)) }

  function CanonicalInput(curve: Curve): Input -> Input {
    (i: Input) => i.(terms := Canonical(curve, i.terms).GetOr(i.terms))
  }

  lemma {:induction false} InputsAllOrNone(curve: Curve, inputs: seq<Input>)
    ensures CanonicalInputs(curve, inputs).Some? <==> forall i :: 0 <= i < |inputs| ==>
      Canonical(curve, inputs[i].terms).Some?
    ensures CanonicalInputs(curve, inputs).Some? ==>
      CanonicalInputs(curve, inputs).value == Map(CanonicalInput(curve), inputs)
  {
    hide Canonical;
    if inputs != [] {
      InputsAllOrNone(curve, inputs[1..]);
      assert Map(CanonicalInput(curve), inputs) ==
        [CanonicalInput(curve)(inputs[0])] + Map(CanonicalInput(curve), inputs[1..]);
      assert forall i :: 0 < i < |inputs| ==> inputs[i] == inputs[1..][i - 1];
    } else {
      assert Map(CanonicalInput(curve), inputs) == [];
    }
  }

  lemma PlainInputsAgree(curve: Curve, inputs: seq<Input>)
    ensures CanonicalInputs(curve, Map(PlainInput, inputs)) == CanonicalInputs(curve, inputs)
  {
    hide Canonical, Plain;
    var plain := Map(PlainInput, inputs);
    InputsAllOrNone(curve, inputs);
    InputsAllOrNone(curve, plain);
    forall i | 0 <= i < |inputs| ensures Canonical(curve, plain[i].terms) == Canonical(curve, inputs[i].terms) {
      CanonicalOfPlain(curve, inputs[i].terms);
    }
    if CanonicalInputs(curve, inputs).Some? {
      assert Map(CanonicalInput(curve), plain) == Map(CanonicalInput(curve), inputs) by {
        forall i | 0 <= i < |inputs| ensures CanonicalInput(curve)(plain[i]) == CanonicalInput(curve)(inputs[i]) {
          assert Canonical(curve, plain[i].terms) == Canonical(curve, inputs[i].terms);
          assert plain[i].outpoint == inputs[i].outpoint;
        }
      }
    } else {
      var i :| 0 <= i < |inputs| && Canonical(curve, inputs[i].terms).None?;
      assert Canonical(curve, plain[i].terms).None?;
    }
  }

  lemma PermutedInputsAgree(curve: Curve, a: seq<Input>, b: seq<Input>)
    requires multiset(a) == multiset(b)
    ensures CanonicalInputs(curve, a).Some? ==>
      CanonicalInputs(curve, b).Some? &&
        multiset(CanonicalInputs(curve, a).value) == multiset(CanonicalInputs(curve, b).value)
  {
    hide Canonical;
    InputsAllOrNone(curve, a);
    InputsAllOrNone(curve, b);
    MapPermutes(CanonicalInput(curve), a, b);
    if CanonicalInputs(curve, a).Some? {
      forall i | 0 <= i < |b| ensures Canonical(curve, b[i].terms).Some? {
        assert b[i] in multiset(a);
        var j :| 0 <= j < |a| && a[j] == b[i];
      }
    }
  }

  // ---- Sorting twice the same key ----

  /** Two equal keys in a sorted sequence have equal neighbours. */
  lemma SortedTwins<T>(s: seq<T>, key: T -> Bytes, i: nat, j: nat)
    requires SortedBy(s, key) && i < j < |s| && key(s[i]) == key(s[j])
    ensures key(s[i + 1]) == key(s[i])
  {
    LessTotal(key(s[i]), key(s[i + 1]));
    assert i + 1 < j ==> !Less(key(s[j]), key(s[i + 1]));
  }

  lemma TwinsOrIdentified<T>(s: seq<T>, t: seq<T>, key: T -> Bytes)
    requires multiset(s) == multiset(t) && SortedBy(t, key)
    ensures KeysIdentify(s, key) || exists i :: 0 < i < |t| && key(t[i]) == key(t[i - 1])
  {
    if !KeysIdentify(s, key) {
      var i, j :| 0 <= i < |s| && 0 <= j < |s| && key(s[i]) == key(s[j]) && s[i] != s[j];
      assert s[i] in multiset(t) && s[j] in multiset(t);
      var m :| 0 <= m < |t| && t[m] == s[i];
      var n :| 0 <= n < |t| && t[n] == s[j];
      var lo, hi := if m < n then m else n, if m < n then n else m;
      SortedTwins(t, key, lo, hi);
      assert key(t[lo + 1]) == key(t[lo + 1 - 1]);
    }
  }

  /** Two inputs of one owner, or two payments to one key, are refused. */
  lemma TwinsAreRefused(r: Rules, table: string, destinations: map<Bytes, Bytes>, inputs: seq<Input>,
      payments: seq<Payment>)
    requires inputs != [] && payments != []
    requires (exists i :: 0 < i < |inputs| && RecoveryOf(inputs[i]) == RecoveryOf(inputs[i - 1]))
          || (exists i :: 0 < i < |payments| && KeyOf(payments[i]) == KeyOf(payments[i - 1]))
    ensures BuildSorted(r, table, destinations, inputs, payments) == None
  {
    hide Covers, Owns;
    if i :| 0 < i < |inputs| && RecoveryOf(inputs[i]) == RecoveryOf(inputs[i - 1]) {
      assert !InputFits(table, inputs, i);
    } else {
      var i :| 0 < i < |payments| && KeyOf(payments[i]) == KeyOf(payments[i - 1]);
      assert !PaymentFits(r, inputs, destinations, payments, i);
    }
  }

  /** Whatever sort is used, its result is the same payout. */
  lemma AnySortBuildsTheSame(
    r: Rules, table: string, destinations: map<Bytes, Bytes>,
    a: seq<Input>, b: seq<Input>, p: seq<Payment>, q: seq<Payment>)
    requires a != [] && b != [] && p != [] && q != []
    requires multiset(a) == multiset(b) && SortedBy(a, RecoveryOf) && SortedBy(b, RecoveryOf)
    requires multiset(p) == multiset(q) && SortedBy(p, KeyOf) && SortedBy(q, KeyOf)
    ensures BuildSorted(r, table, destinations, a, p) == BuildSorted(r, table, destinations, b, q)
  {
    hide BuildSorted;
    TwinsOrIdentified(a, a, RecoveryOf);
    TwinsOrIdentified(p, p, KeyOf);
    if KeysIdentify(a, RecoveryOf) && KeysIdentify(p, KeyOf) {
      SortedUnique(a, b, RecoveryOf);
      SortedUnique(p, q, KeyOf);
    } else {
      if !KeysIdentify(a, RecoveryOf) {
        TwinsOrIdentified(a, b, RecoveryOf);
      } else {
        TwinsOrIdentified(p, q, KeyOf);
      }
      TwinsAreRefused(r, table, destinations, a, p);
      TwinsAreRefused(r, table, destinations, b, q);
    }
  }

  /** Permuting the inputs, the payments or any input's members, or changing the
      case of any key in an input's terms, changes neither whether a payout is built
      nor what it is. A payment's key is compared as it is given. */
  lemma BuildIgnoresOrderAndCase(r: Rules, p: Proposal, q: Proposal, destinations: map<Bytes, Bytes>)
    requires p.table == q.table
    requires multiset(Map(PlainInput, p.inputs)) == multiset(Map(PlainInput, q.inputs))
    requires multiset(p.payments) == multiset(q.payments)
    ensures Build(r, p, destinations) == Build(r, q, destinations)
  {
    hide BuildSorted, Sort, Plain, CanonicalInputs;
    var a, b := Map(PlainInput, p.inputs), Map(PlainInput, q.inputs);
    assert |a| == |p.inputs| && |b| == |q.inputs|;
    assert |multiset(a)| == |a| && |multiset(b)| == |b|;
    assert |multiset(p.payments)| == |p.payments| && |multiset(q.payments)| == |q.payments|;
    PlainInputsAgree(r.curve, p.inputs);
    PlainInputsAgree(r.curve, q.inputs);
    PermutedInputsAgree(r.curve, a, b);
    PermutedInputsAgree(r.curve, b, a);
    if Shaped(p) && CanonicalInputs(r.curve, a).Some? {
      var x, y := CanonicalInputs(r.curve, a).value, CanonicalInputs(r.curve, b).value;
      CanonicalLength(r.curve, p.inputs);
      CanonicalLength(r.curve, q.inputs);
      SortSorts(x, RecoveryOf);
      SortSorts(y, RecoveryOf);
      SortSorts(p.payments, KeyOf);
      SortSorts(q.payments, KeyOf);
      AnySortBuildsTheSame(r, p.table, destinations, Sort(x, RecoveryOf), Sort(y, RecoveryOf),
        Sort(p.payments, KeyOf), Sort(q.payments, KeyOf));
    }
  }
}
