/** Spending a deposit: the builders that make refund and settlement witnesses,
    and the proof that what they build spends the script it was built for. */
module Witness {
  import opened ByteStrings
  import opened Sorting
  import opened Script
  import opened Finance

  // ---- Hexadecimal order and byte order agree ----

  lemma {:induction false} HexInsert(x: Bytes, s: seq<Bytes>)
    ensures Insert(Hex(x), HexAll(s), Self) == HexAll(Insert(x, s, Self))
  {
    if s != [] {
      HexKeepsOrder(s[0], x);
      HexInsert(x, s[1..]);
      assert HexAll(s)[1..] == HexAll(s[1..]);
    }
  }

  /** A descriptor sorts the hexadecimal text of its members and the script
      sorts their bytes: both orders are the same. */
  lemma {:induction false} HexSort(s: seq<Bytes>)
    ensures Sort(HexAll(s), Self) == HexAll(Sort(s, Self))
  {
    if s != [] {
      assert HexAll(s)[1..] == HexAll(s[1..]);
      HexSort(s[1..]);
      HexInsert(s[0], Sort(s[1..], Self));
    }
  }

  lemma {:induction false} KeysOfHex(s: seq<Bytes>)
    ensures KeysOf(HexAll(s)) == s
  {
    if s != [] {
      UnhexHex(s[0]);
      assert HexAll(s)[1..] == HexAll(s[1..]);
      KeysOfHex(s[1..]);
    }
  }

  lemma HexAllKeepsRepeats(s: seq<Bytes>)
    ensures NoRepeats(HexAll(s)) <==> NoRepeats(s)
    ensures forall k :: Hex(k) in HexAll(s) <==> k in s
  {
    if NoRepeats(s) {
      forall i | 0 < i < |s| ensures HexAll(s)[i] != HexAll(s)[i - 1] {
        if Hex(s[i]) == Hex(s[i - 1]) {
          HexInjective(s[i], s[i - 1]);
        }
      }
    }
    if NoRepeats(HexAll(s)) {
      forall i | 0 < i < |s| ensures s[i] != s[i - 1] {
        assert HexAll(s)[i] != HexAll(s)[i - 1];
      }
    }
    forall k ensures Hex(k) in HexAll(s) <==> k in s {
      if Hex(k) in HexAll(s) {
        var i :| 0 <= i < |s| && HexAll(s)[i] == Hex(k);
        HexInjective(s[i], k);
      }
      if k in s {
        var i :| 0 <= i < |s| && s[i] == k;
        assert HexAll(s)[i] == Hex(k);
      }
    }
  }

  lemma {:induction false} PublicKeysAreKeys(curve: Curve, texts: seq<Bytes>)
    requires PublicKeys(curve, texts).Some?
    ensures
      var ks := PublicKeys(curve, texts).value;
      |ks| == |texts| && forall i :: 0 <= i < |ks| ==> IsKey(curve, ks[i])
  {
    if texts != [] {
      PublicKeysAreKeys(curve, texts[1..]);
    }
  }

  /** The member keys of a descriptor, in script order. */
  function MemberKeys(curve: Curve, t: Terms): seq<Bytes> {
    Sort(PublicKeys(curve, t.members).GetOr([]), Self)
  }

  function RecoveryKey(curve: Curve, t: Terms): Bytes {
    PublicKey(curve, t.recovery).GetOr([])
  }

  function IdentityKey(curve: Curve, t: Terms): Bytes {
    PublicKey(curve, t.identity).GetOr([])
  }

  /** A canonical descriptor's text spells its keys, in the order of the script. */
  lemma CanonicalSpellsKeys(curve: Curve, t: Terms)
    requires Canonical(curve, t).Some?
    ensures
      var c, keys := Canonical(curve, t).value, MemberKeys(curve, t);
      && c == t.(identity := Hex(IdentityKey(curve, t)), recovery := Hex(RecoveryKey(curve, t)),
        members := HexAll(keys))
      && IsKey(curve, IdentityKey(curve, t)) && IsKey(curve, RecoveryKey(curve, t))
      && IdentityKey(curve, t) != RecoveryKey(curve, t)
      && RosterFits(t.kind, HexAll(keys), Hex(RecoveryKey(curve, t))) && NoRepeats(HexAll(keys))
      && KeysOf(HexAll(keys)) == keys
  {
    HexSort(PublicKeys(curve, t.members).value);
    KeysOfHex(MemberKeys(curve, t));
  }

  /** The script's own sort of a sorted member list changes nothing. */
  lemma MemberKeysAreSorted(curve: Curve, t: Terms)
    requires Canonical(curve, t).Some?
    ensures Sort(MemberKeys(curve, t), Self) == MemberKeys(curve, t)
    ensures forall i :: 0 <= i < |MemberKeys(curve, t)| ==> IsKey(curve, MemberKeys(curve, t)[i])
  {
    var keys, raw := MemberKeys(curve, t), PublicKeys(curve, t.members).value;
    PublicKeysAreKeys(curve, t.members);
    SortedKeysAreKeys(curve, raw);
    SortSorts(raw, Self);
    SelfIdentifies(keys);
    SortIgnoresOrder(keys, raw, Self);
  }

  /** Every descriptor that has a canonical form has a script, and it is the
      script of its keys in order, whatever the case of its text. */
  lemma CanonicalHasScript(curve: Curve, t: Terms)
    requires Canonical(curve, t).Some?
    ensures DescriptorScript(curve, t) ==
      if t.kind == "seatbond" then AdmissionScript(curve, IdentityKey(curve, t), RecoveryKey(curve, t), t.lockBlocks)
      else CooperativeScript(curve, RecoveryKey(curve, t), MemberKeys(curve, t), t.lockBlocks)
    ensures DescriptorScript(curve, t).Some? && |DescriptorScript(curve, t).value| <= 500
  {
    var keys := MemberKeys(curve, t);
    var identity, recovery := IdentityKey(curve, t), RecoveryKey(curve, t);
    CanonicalSpellsKeys(curve, t);
    UnhexHex(identity);
    UnhexHex(recovery);
    if t.kind == "seatbond" {
      AdmissionSize(identity, recovery, t.lockBlocks);
    } else {
      MemberKeysAreSorted(curve, t);
      HexAllKeepsRepeats(keys);
      RosterHasScript(curve, keys, recovery, t.lockBlocks);
    }
  }

  lemma RosterHasScript(curve: Curve, keys: seq<Bytes>, owner: Bytes, blocks: nat)
    requires forall i :: 0 <= i < |keys| ==> IsKey(curve, keys[i])
    requires Sort(keys, Self) == keys && NoRepeats(keys) && owner in keys
    requires 2 <= |keys| <= MAX_MEMBERS && LockInRange(blocks)
    ensures CooperativeScript(curve, owner, keys, blocks).Some?
    ensures |CooperativeScript(curve, owner, keys, blocks).value| <= 500
  {
    var i :| 0 <= i < |keys| && keys[i] == owner;
    CooperativeSize(keys, owner, blocks);
  }

  lemma AdmissionSize(identity: Bytes, recovery: Bytes, blocks: nat)
    requires |identity| == KEY_LEN && |recovery| == KEY_LEN && LockInRange(blocks)
    ensures |Flat(AdmissionTokens(identity, recovery, blocks))| <= 77
  {
    hide PushInt, PushData, Flat;
    PushKeyPushes(identity);
    LockSize(blocks, recovery);
    var lock := LockTokens(blocks, recovery);
    assert AdmissionTokens(identity, recovery, blocks) ==
      [PushData(identity)] + ([Code(OP_DROP)] + (lock + [Code(OP_TRUE)]));
    FlatFirst(PushData(identity), [Code(OP_DROP)] + (lock + [Code(OP_TRUE)]));
    FlatFirst(Code(OP_DROP), lock + [Code(OP_TRUE)]);
    FlatAppend(lock, [Code(OP_TRUE)]);
    CodeWidth(OP_DROP);
    CodeSize(OP_TRUE);
  }

  // ---- The builders, as loops ----

  lemma {:induction false} PublicKeysExtend(curve: Curve, texts: seq<Bytes>, i: nat)
    requires i < |texts|
    ensures PublicKeys(curve, texts[..i + 1]) ==
      match (PublicKeys(curve, texts[..i]), PublicKey(curve, texts[i]))
      case (Some(ks), Some(k)) => Some(ks + [k])
      case _ => None
    decreases i
  {
    var more, less := texts[..i + 1], texts[..i];
    if i == 0 {
      assert more == [texts[0]] && more[1..] == [] && less == [];
      if PublicKey(curve, texts[0]).Some? {
        assert [PublicKey(curve, texts[0]).value] + [] == [] + [PublicKey(curve, texts[0]).value];
      }
    } else {
      assert more[1..] == texts[1..][..i] && less[1..] == texts[1..][..i - 1];
      PublicKeysExtend(curve, texts[1..], i - 1);
      assert more[0] == texts[0] && less[0] == texts[0];
      if PublicKeys(curve, more).Some? {
        var k0, ks := PublicKey(curve, texts[0]).value, PublicKeys(curve, texts[1..][..i - 1]).value;
        var k := PublicKey(curve, texts[i]).value;
        assert [k0] + (ks + [k]) == [k0] + ks + [k];
      }
    }
  }

  lemma {:induction false} OneBadKeyRefusesAll(curve: Curve, texts: seq<Bytes>, i: nat)
    requires i < |texts| && PublicKey(curve, texts[i]).None?
    ensures PublicKeys(curve, texts).None?
  {
    if i > 0 {
      OneBadKeyRefusesAll(curve, texts[1..], i - 1);
    }
  }

  /** Looking for a repeated key, the game's identity, and the owner. */
  method ScanRoster(members: seq<Bytes>, own: Bytes, owner: Bytes) returns (clean: bool, ours: bool)
    ensures clean <==> own !in members && NoRepeats(members)
    ensures clean ==> (ours <==> owner in members)
  {
    ours := false;
    for i := 0 to |members|
      invariant own !in members[..i] && NoRepeats(members[..i])
      invariant ours <==> owner in members[..i]
    {
      if members[i] == own || (i > 0 && members[i] == members[i - 1]) {
        assert members[i] in members;
        return false, ours;
      }
      ours := ours || members[i] == owner;
      assert members[..i + 1] == members[..i] + [members[i]];
    }
    assert members[..|members|] == members;
    clean := true;
  }

  /** Normalising a descriptor, key by key. */
  method Canonicalize(curve: Curve, t: Terms) returns (r: Option<Terms>)
    ensures r == Canonical(curve, t)
  {
    hide Unhex, Hex, Sort, Less;
    var identity, recovery := PublicKey(curve, t.identity), PublicKey(curve, t.recovery);
    if !ScopeFits(t) || identity.None? || recovery.None? || identity == recovery {
      return None;
    }
    var own, owner := Hex(identity.value), Hex(recovery.value);
    var texts: seq<Bytes> := [];
    ghost var keys: seq<Bytes> := [];
    for i := 0 to |t.members|
      invariant PublicKeys(curve, t.members[..i]) == Some(keys)
      invariant texts == HexAll(keys)
    {
      var key := PublicKey(curve, t.members[i]);
      PublicKeysExtend(curve, t.members, i);
      if key.None? {
        OneBadKeyRefusesAll(curve, t.members, i);
        return None;
      }
      keys := keys + [key.value];
      texts := texts + [Hex(key.value)];
    }
    assert t.members[..|t.members|] == t.members;
    var members := Sort(texts, Self);
    var clean, ours := ScanRoster(members, own, owner);
    if !clean {
      return None;
    }
    if t.kind == "seatbond" {
      if |members| != 0 {
        return None;
      }
    } else if t.kind == "stake" || t.kind == "tablebond" {
      if |members| < 2 || |members| > MAX_MEMBERS || !ours {
        return None;
      }
    } else {
      return None;
    }
    return Some(t.(identity := own, recovery := owner, members := members));
  }

  lemma {:induction false} ChecksExtend(keys: seq<Bytes>, k: Bytes)
    ensures Checks(keys + [k]) == Checks(keys) + [PushData(k), Code(OP_CHECKSIGVERIFY)]
  {
    if keys == [] {
      assert keys + [k] == [k] && [k][1..] == [];
    } else {
      assert (keys + [k])[1..] == keys[1..] + [k];
      ChecksExtend(keys[1..], k);
    }
  }

  /** Building a cooperative script check by check. */
  method BuildCooperativeScript(curve: Curve, owner: Bytes, members: seq<Bytes>, blocks: nat) returns (r: Option<Bytes>)
    ensures r == CooperativeScript(curve, owner, members, blocks)
  {
    hide Flat, Sort, PushData, PushInt;
    if blocks == 0 || blocks > MAX_LOCK_BLOCKS || |members| < 2 || |members| > MAX_MEMBERS {
      return None;
    }
    for i := 0 to |members|
      invariant forall k :: 0 <= k < i ==> IsKey(curve, members[k])
    {
      if !IsKey(curve, members[i]) {
        return None;
      }
    }
    var keys := Sort(members, Self);
    var ours := false;
    var ops := [Code(OP_IF)];
    for i := 0 to |keys|
      invariant NoRepeats(keys[..i])
      invariant ours <==> owner in keys[..i]
      invariant ops == [Code(OP_IF)] + Checks(keys[..i])
    {
      if i > 0 && keys[i] == keys[i - 1] {
        return None;
      }
      ours := ours || keys[i] == owner;
      ChecksExtend(keys[..i], keys[i]);
      assert keys[..i + 1] == keys[..i] + [keys[i]];
      ops := ops + [PushData(keys[i]), Code(OP_CHECKSIGVERIFY)];
    }
    assert keys[..|keys|] == keys;
    if !ours {
      return None;
    }
    ops := ops + [Code(OP_ELSE), PushInt(blocks), Code(OP_CHECKSEQUENCEVERIFY), Code(OP_DROP)]
           + [PushData(owner), Code(OP_CHECKSIGVERIFY), Code(OP_ENDIF), Code(OP_TRUE)];
    assert ops == CooperativeTokens(keys, owner, blocks);
    var script := Flat(ops);
    return if |script| > MAX_SCRIPT_ELEMENT then None else Some(script);
  }

  // ---- Witnesses ----

  /** A DER signature that signs the whole transaction for a key. */
  predicate VerifySignature(curve: Curve, tx: Spend, public: Bytes, sig: Bytes) {
    && PublicKey(curve, public).Some?
    && 8 <= |sig| <= 72
    && tx.ecdsa(SIG_HASH_ALL, sig, PublicKey(curve, public).value)
  }

  /** The pushes that satisfy the members' checks: the last member's first. */
  function SettlementPushes(curve: Curve, tx: Spend, members: seq<Bytes>,
      signatures: map<Bytes, Bytes>): Option<seq<Bytes>> {
    if members == [] then Some([])
    else
      var sig := if members[0] in signatures then signatures[members[0]] else [];
      match SettlementPushes(curve, tx, members[1..], signatures)
      case None => None
      case Some(below) =>
        if VerifySignature(curve, tx, members[0], sig) then Some(below + [sig + [SIG_HASH_ALL]]) else None
  }

  /** A signature script of plain pushes, the redeem script last. */
  function PushScript(items: seq<Bytes>, redeem: Bytes): Bytes {
    Flat(PushTokens(items + [redeem]))
  }

  function SettlementWitness(curve: Curve, tx: Spend, t: Terms, signatures: map<Bytes, Bytes>): Option<Bytes> {
    match (Canonical(curve, t), DescriptorScript(curve, t))
    case (Some(c), Some(script)) =>
      if c.kind == "seatbond" || |signatures| != |c.members| then None
      else (
        match SettlementPushes(curve, tx, c.members, signatures)
        case None => None
        case Some(pushes) => Some(PushScript(pushes + [[1]], script)))
    case _ => None
  }

  function RefundPushes(t: Terms, sig: Bytes): seq<Bytes> {
    [sig + [SIG_HASH_ALL]] + if t.kind == "seatbond" then [] else [[]]
  }

  function RefundWitness(curve: Curve, tx: Spend, t: Terms, sig: Bytes): Option<Bytes> {
    if !VerifySignature(curve, tx, t.recovery, sig) then None
    else
      match DescriptorScript(curve, t)
      case None => None
      case Some(script) => Some(PushScript(RefundPushes(t, sig), script))
  }

  /** The unsigned refund a bridge builds: one input, one output. */
  datatype RefundTx = RefundTx(version: nat, sequence: nat, valueIn: int, valueOut: int, destination: Bytes)

  function Refund(curve: Curve, t: Terms, regularTree: bool, destination: Bytes, fee: int): Option<RefundTx> {
    if DescriptorScript(curve, t).None? || destination == [] || fee <= 0 || fee >= t.atoms || !regularTree then None
    else Some(RefundTx(3, t.lockBlocks, t.atoms, t.atoms - fee, destination))
  }

  /** Appending the settlement's signatures from the last member to the first,
      and then the branch flag and the script. */
  method BuildSettlementWitness(curve: Curve, tx: Spend, t: Terms, signatures: map<Bytes, Bytes>)
    returns (sigScript: Option<Bytes>)
    ensures sigScript == SettlementWitness(curve, tx, t, signatures)
  {
    hide Flat, Tokenize, Sort, Canonical, DescriptorScript, VerifySignature;
    var terms := Canonical(curve, t);
    if terms.None? {
      return None;
    }
    var members := terms.value.members;
    var script := DescriptorScript(curve, t);
    if terms.value.kind == "seatbond" || |signatures| != |members| || script.None? {
      return None;
    }
    var pushes: seq<Bytes> := [];
    var i := |members|;
    while i > 0
      invariant 0 <= i <= |members|
      invariant SettlementPushes(curve, tx, members[i..], signatures) == Some(pushes)
    {
      i := i - 1;
      var member := members[i];
      var sig := if member in signatures then signatures[member] else [];
      assert members[i..][1..] == members[i + 1..];
      if !VerifySignature(curve, tx, member, sig) {
        OneRefusalRefusesAll(curve, tx, members, signatures, i);
        return None;
      }
      pushes := pushes + [sig + [SIG_HASH_ALL]];
    }
    assert members[0..] == members;
    sigScript := Some(PushScript(pushes + [[1]], script.value));
  }

  lemma {:induction false} OneRefusalRefusesAll(curve: Curve, tx: Spend, members: seq<Bytes>,
      signatures: map<Bytes, Bytes>, i: nat)
    requires i <= |members| && SettlementPushes(curve, tx, members[i..], signatures).None?
    ensures SettlementPushes(curve, tx, members, signatures).None?
    decreases i
  {
    if i == 0 {
      assert members[0..] == members;
    } else {
      assert members[i - 1..][1..] == members[i..];
      OneRefusalRefusesAll(curve, tx, members, signatures, i - 1);
    }
  }

  lemma VerifiedElementSigns(curve: Curve, tx: Spend, member: Bytes, sig: Bytes)
    requires VerifySignature(curve, tx, member, sig)
    ensures Signs(tx, sig + [SIG_HASH_ALL], Unhex(member).GetOr([])) && |sig| <= 72
  {
    hide Unhex;
    var element := sig + [SIG_HASH_ALL];
    assert element[..|element| - 1] == sig && element[|element| - 1] == SIG_HASH_ALL;
  }

  lemma {:induction false} SettlementPushesSign(curve: Curve, tx: Spend, members: seq<Bytes>,
      signatures: map<Bytes, Bytes>)
    requires SettlementPushes(curve, tx, members, signatures).Some?
    ensures AllSigned(tx, KeysOf(members), SettlementPushes(curve, tx, members, signatures).value)
    ensures
      var pushes := SettlementPushes(curve, tx, members, signatures).value;
      forall i :: 0 <= i < |pushes| ==> |pushes[i]| <= 73
  {
    hide VerifySignature, Signs, Unhex;
    if members != [] {
      SettlementPushesSign(curve, tx, members[1..], signatures);
      var sig := if members[0] in signatures then signatures[members[0]] else [];
      var pushes := SettlementPushes(curve, tx, members, signatures).value;
      VerifiedElementSigns(curve, tx, members[0], sig);
      assert pushes[..|pushes| - 1] == SettlementPushes(curve, tx, members[1..], signatures).value;
      assert KeysOf(members)[1..] == KeysOf(members[1..]);
    }
  }

  lemma PushesSpend(tx: Spend, sigScript: Bytes, ts: seq<Token>, items: seq<Bytes>, redeem: Bytes)
    requires Tokenize(sigScript) == Some(ts) && PushOnly(ts)
    requires Run(tx, ts, Machine([], [])) == Some(Machine(items + [redeem], []))
    ensures SpendsScript(tx, sigScript, redeem) <==> Accepts(tx, redeem, items)
  {
    var m := Machine(items + [redeem], []);
    assert Top(m) == redeem && Pop(m).stack == items;
  }

  /** What a script of pushes does to the output it is offered to. */
  lemma PushScriptSpends(tx: Spend, items: seq<Bytes>, redeem: Bytes)
    requires |redeem| < 0x1_0000 && forall i :: 0 <= i < |items| ==> |items[i]| < 0x1_0000
    ensures SpendsScript(tx, PushScript(items, redeem), redeem) <==> Accepts(tx, redeem, items)
  {
    var ds := items + [redeem];
    assert [] + ds == ds;
    RunPushes(tx, ds, []);
    TokenizeInvertsFlat(PushTokens(ds));
    PushesSpend(tx, PushScript(items, redeem), PushTokens(ds), items, redeem);
  }

  lemma SettlementPushesAccepted(curve: Curve, tx: Spend, t: Terms, signatures: map<Bytes, Bytes>, pushes: seq<Bytes>)
    requires Canonical(curve, t).Some? && Canonical(curve, t).value.kind != "seatbond"
    requires SettlementPushes(curve, tx, Canonical(curve, t).value.members, signatures) == Some(pushes)
    ensures DescriptorScript(curve, t).Some? && |DescriptorScript(curve, t).value| <= 500
    ensures Accepts(tx, DescriptorScript(curve, t).value, pushes + [[1]])
    ensures forall i :: 0 <= i < |pushes| ==> |pushes[i]| <= 73
  {
    hide Flat, Tokenize, Run, Sort, Accepts;
    var keys, items := MemberKeys(curve, t), pushes + [[1]];
    CanonicalHasScript(curve, t);
    CanonicalSpellsKeys(curve, t);
    MemberKeysAreSorted(curve, t);
    SettlementPushesSign(curve, tx, HexAll(keys), signatures);
    OneIsTrue();
    assert items[..|items| - 1] == pushes && items[|items| - 1] == [1];
    assert CooperativePolicy(tx, keys, RecoveryKey(curve, t), t.lockBlocks, items);
    CooperativeScriptIsItsPolicy(curve, tx, RecoveryKey(curve, t), keys, t.lockBlocks, items);
  }

  /** A settlement witness always spends the deposit it was built for. */
  lemma SettlementWitnessSpends(curve: Curve, tx: Spend, t: Terms, signatures: map<Bytes, Bytes>)
    requires SettlementWitness(curve, tx, t, signatures).Some?
    ensures SpendsScript(tx, SettlementWitness(curve, tx, t, signatures).value, DescriptorScript(curve, t).value)
  {
    hide Flat, Tokenize, Run, Sort, Canonical, SpendsScript, Accepts, PushScript;
    var pushes := SettlementPushes(curve, tx, Canonical(curve, t).value.members, signatures).value;
    SettlementPushesAccepted(curve, tx, t, signatures, pushes);
    PushScriptSpends(tx, pushes + [[1]], DescriptorScript(curve, t).value);
  }

  /** A settlement witness exists exactly when every member signed. */
  lemma SettlementNeedsEverySignature(curve: Curve, tx: Spend, t: Terms, signatures: map<Bytes, Bytes>)
    requires Canonical(curve, t).Some? && t.kind != "seatbond"
    ensures SettlementWitness(curve, tx, t, signatures).Some? <==>
      && |signatures| == |Canonical(curve, t).value.members|
      && forall m :: m in Canonical(curve, t).value.members ==>
           m in signatures && VerifySignature(curve, tx, m, signatures[m])
  {
    CanonicalHasScript(curve, t);
    PushesNeedEverySignature(curve, tx, Canonical(curve, t).value.members, signatures);
  }

  lemma {:induction false} PushesNeedEverySignature(curve: Curve, tx: Spend, members: seq<Bytes>,
      signatures: map<Bytes, Bytes>)
    ensures SettlementPushes(curve, tx, members, signatures).Some? <==>
      forall m :: m in members ==> m in signatures && VerifySignature(curve, tx, m, signatures[m])
  {
    if members != [] {
      PushesNeedEverySignature(curve, tx, members[1..], signatures);
      assert members == [members[0]] + members[1..];
    }
  }

  /** A refund witness spends the deposit exactly when the lock has passed. */
  lemma RefundWitnessSpends(curve: Curve, tx: Spend, t: Terms, sig: Bytes)
    requires RefundWitness(curve, tx, t, sig).Some?
    ensures SpendsScript(tx, RefundWitness(curve, tx, t, sig).value, DescriptorScript(curve, t).value)
      <==> LockMet(tx, t.lockBlocks)
  {
    hide Flat, Tokenize, Run, Sort, Canonical, SpendsScript, Accepts, PushScript;
    RefundPushesAccepted(curve, tx, t, sig);
    PushScriptSpends(tx, RefundPushes(t, sig), DescriptorScript(curve, t).value);
  }

  lemma RefundPushesAccepted(curve: Curve, tx: Spend, t: Terms, sig: Bytes)
    requires Canonical(curve, t).Some? && VerifySignature(curve, tx, t.recovery, sig)
    ensures DescriptorScript(curve, t).Some? && |DescriptorScript(curve, t).value| <= 500
    ensures Accepts(tx, DescriptorScript(curve, t).value, RefundPushes(t, sig)) <==> LockMet(tx, t.lockBlocks)
  {
    hide Flat, Tokenize, Run, Sort, Accepts, DescriptorScript;
    var items, owner, element := RefundPushes(t, sig), RecoveryKey(curve, t), sig + [SIG_HASH_ALL];
    CanonicalHasScript(curve, t);
    assert element[..|element| - 1] == sig && element[|element| - 1] == SIG_HASH_ALL;
    assert Signs(tx, element, owner);
    if t.kind == "seatbond" {
      assert items == [element];
      AdmissionScriptIsItsPolicy(curve, tx, IdentityKey(curve, t), owner, t.lockBlocks, items);
    } else {
      assert items == [element, []];
      assert items[..|items| - 1] == [element] && items[|items| - 1] == [];
      CooperativeScriptIsItsPolicy(curve, tx, owner, MemberKeys(curve, t), t.lockBlocks, items);
    }
  }

  lemma OwnSequenceMeetsLock(tx: Spend, blocks: nat)
    requires LockInRange(blocks) && tx.version == 3 && tx.sequence == blocks
    ensures LockMet(tx, blocks)
  {
  }

  /** The refund transaction a bridge builds meets the lock it is built for, so
      a signed refund always goes through and loses nothing but its fee. */
  lemma RefundGoesThrough(curve: Curve, t: Terms, destination: Bytes, fee: int, ecdsa: (byte, Bytes, Bytes) -> bool,
      sig: Bytes)
    requires Refund(curve, t, true, destination, fee).Some?
    ensures
      var refund := Refund(curve, t, true, destination, fee).value;
      var tx := Spend(refund.version, refund.sequence, ecdsa);
      var sigScript := RefundWitness(curve, tx, t, sig);
      && (sigScript.Some? <==> VerifySignature(curve, tx, t.recovery, sig))
      && (sigScript.Some? ==> SpendsScript(tx, sigScript.value, DescriptorScript(curve, t).value))
      && refund.valueOut + fee == t.atoms && 0 < refund.valueOut
  {
    var tx := Spend(3, t.lockBlocks, ecdsa);
    OwnSequenceMeetsLock(tx, t.lockBlocks);
    if VerifySignature(curve, tx, t.recovery, sig) {
      RefundWitnessSpends(curve, tx, t, sig);
    }
  }
}
