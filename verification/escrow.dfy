/** Reading escrow scripts back: the admission bond a join points at, and the
    member list of a cooperative script. */
module Escrow {
  import opened ByteStrings
  import opened Sorting
  import opened Script
  import opened Finance

  datatype BondTerms = BondTerms(owner: Bytes, recovery: Bytes, lockBlocks: nat)

  /** One step of a tokenizer that may already be at the end. */
  function Read(s: Bytes): (r: Option<(Token, Bytes)>)
    ensures r.Some? ==> |r.value.1| < |s|
  {
    if s == [] then None else Next(s)
  }

  function ReadCode(s: Bytes, op: byte): Option<Bytes> {
    match Read(s)
    case Some((t, rest)) => if t.op == op then Some(rest) else None
    case None => None
  }

  /** A pushed number, as a small-integer opcode or as one to four bytes. */
  function SmallIntOrData(t: Token): Option<nat> {
    if t.op == OP_0 then Some(0)
    else if OP_TRUE <= t.op <= OP_16 then Some(t.op - 0x50)
    else if 1 <= |t.data| <= 4 then Some(FromLE(t.data))
    else None
  }

  /** The loop that reads those bytes from the most significant end. */
  method ReadLittleEndian(data: Bytes) returns (n: nat)
    ensures n == FromLE(data)
  {
    n := 0;
    var i := |data|;
    while i > 0
      invariant 0 <= i <= |data|
      invariant n == FromLE(data[i..])
    {
      i := i - 1;
      assert data[i..][1..] == data[i + 1..];
      n := n * 256 + data[i];
    }
    assert data[0..] == data;
  }

  function ReadLock(s: Bytes): Option<(nat, Bytes)> {
    match Read(s)
    case None => None
    case Some((t, rest)) =>
      match SmallIntOrData(t)
      case Some(n) => if LockInRange(n) then Some((n, rest)) else None
      case None => None
  }

  function ReadKey(s: Bytes): Option<(Bytes, Bytes)> {
    match Read(s)
    case Some((t, rest)) => if t.op == OP_DATA_33 then Some((t.data, rest)) else None
    case None => None
  }

  function BondParts(s: Bytes): Option<BondTerms> {
    match ReadKey(s)
    case None => None
    case Some((identity, s1)) =>
    match ReadCode(s1, OP_DROP)
    case None => None
    case Some(s2) =>
    match ReadLock(s2)
    case None => None
    case Some((blocks, s3)) =>
    match ReadCode(s3, OP_CHECKSEQUENCEVERIFY)
    case None => None
    case Some(s4) =>
    match ReadCode(s4, OP_DROP)
    case None => None
    case Some(s5) =>
    match ReadKey(s5)
    case None => None
    case Some((recovery, _)) => Some(BondTerms(identity, recovery, blocks))
  }

  /** Reads a bond script, and refuses any that is not the one script its own
      terms compile to. */
  function ParseBond(curve: Curve, bond: Bytes): Option<BondTerms> {
    match BondParts(bond)
    case None => None
    case Some(b) =>
      if AdmissionScript(curve, b.owner, b.recovery, b.lockBlocks) == Some(bond) then Some(b) else None
  }

  lemma ReadFirst(t: Token, rest: seq<Token>)
    requires WellFormed(t)
    ensures Read(Flat([t] + rest)) == Some((t, Flat(rest)))
  {
    assert ([t] + rest)[1..] == rest;
    NextReadsEncode(t, Flat(rest));
  }

  lemma ReadKeyFirst(k: Bytes, rest: seq<Token>)
    requires |k| == KEY_LEN
    ensures ReadKey(Flat([PushData(k)] + rest)) == Some((k, Flat(rest)))
  {
    PushKeyPushes(k);
    ReadFirst(PushData(k), rest);
  }

  lemma ReadCodeFirst(op: byte, rest: seq<Token>)
    requires op in {OP_DROP, OP_CHECKSEQUENCEVERIFY}
    ensures ReadCode(Flat([Code(op)] + rest), op) == Some(Flat(rest))
  {
    ReadFirst(Code(op), rest);
  }

  lemma ReadLockFirst(blocks: nat, rest: seq<Token>)
    requires LockInRange(blocks)
    ensures ReadLock(Flat([PushInt(blocks)] + rest)) == Some((blocks, Flat(rest)))
  {
    PushIntPushes(blocks);
    ScriptNumReads(blocks);
    ReadFirst(PushInt(blocks), rest);
  }

  lemma BondPartsOfScript(identity: Bytes, recovery: Bytes, blocks: nat)
    requires |identity| == KEY_LEN && |recovery| == KEY_LEN && LockInRange(blocks)
    ensures BondParts(Flat(AdmissionTokens(identity, recovery, blocks))) == Some(BondTerms(identity, recovery, blocks))
  {
    var r6 := [Code(OP_CHECKSIGVERIFY), Code(OP_TRUE)];
    var r5 := [PushData(recovery)] + r6;
    var r4 := [Code(OP_DROP)] + r5;
    var r3 := [Code(OP_CHECKSEQUENCEVERIFY)] + r4;
    var r2 := [PushInt(blocks)] + r3;
    var r1 := [Code(OP_DROP)] + r2;
    assert AdmissionTokens(identity, recovery, blocks) == [PushData(identity)] + r1;
    ReadKeyFirst(identity, r1);
    ReadCodeFirst(OP_DROP, r2);
    ReadLockFirst(blocks, r3);
    ReadCodeFirst(OP_CHECKSEQUENCEVERIFY, r4);
    ReadCodeFirst(OP_DROP, r5);
    ReadKeyFirst(recovery, r6);
    PartsInOrder(Flat(AdmissionTokens(identity, recovery, blocks)), Flat(r1), Flat(r2), Flat(r3), Flat(r4), Flat(r5),
      Flat(r6), identity, recovery, blocks);
  }

  lemma PartsInOrder(s: Bytes, s1: Bytes, s2: Bytes, s3: Bytes, s4: Bytes, s5: Bytes, s6: Bytes, identity: Bytes,
      recovery: Bytes, blocks: nat)
    requires ReadKey(s) == Some((identity, s1)) && ReadCode(s1, OP_DROP) == Some(s2)
    requires ReadLock(s2) == Some((blocks, s3)) && ReadCode(s3, OP_CHECKSEQUENCEVERIFY) == Some(s4)
    requires ReadCode(s4, OP_DROP) == Some(s5) && ReadKey(s5) == Some((recovery, s6))
    ensures BondParts(s) == Some(BondTerms(identity, recovery, blocks))
  {
  }

  /** The parser accepts a script with some terms exactly when the builder makes
      that script of those terms. */
  lemma ParseBondInvertsAdmissionScript(curve: Curve, bond: Bytes, b: BondTerms)
    ensures ParseBond(curve, bond) == Some(b) <==>
      AdmissionScript(curve, b.owner, b.recovery, b.lockBlocks) == Some(bond)
  {
    if AdmissionScript(curve, b.owner, b.recovery, b.lockBlocks) == Some(bond) {
      BondPartsOfScript(b.owner, b.recovery, b.lockBlocks);
    }
  }

  // ---- The member list ----

  /** The keys a settlement branch checks, read up to the refund branch. */
  function MembersFrom(s: Bytes, pending: Bytes, keys: seq<Bytes>): Option<seq<Bytes>>
    decreases |s|
  {
    match Read(s)
    case None => None
    case Some((t, rest)) =>
      if t.op == OP_DATA_33 then MembersFrom(rest, t.data, keys)
      else if t.op == OP_CHECKSIGVERIFY then
        if |pending| != KEY_LEN then None else MembersFrom(rest, [], keys + [pending])
      else if t.op == OP_ELSE then
        if keys == [] then None else Some(keys)
      else MembersFrom(rest, pending, keys)
  }

  /** How many checks precede the refund branch. */
  function CountFrom(s: Bytes, n: nat): Option<nat>
    decreases |s|
  {
    match Read(s)
    case None => None
    case Some((t, rest)) =>
      if t.op == OP_CHECKSIGVERIFY then CountFrom(rest, n + 1)
      else if t.op == OP_ELSE then if n == 0 then None else Some(n)
      else CountFrom(rest, n)
  }

  /** Whatever is read as members is some compressed keys, and whatever is counted is
      some. */
  lemma {:induction false} MembersAreKeys(s: Bytes, pending: Bytes, keys: seq<Bytes>)
    requires forall i :: 0 <= i < |keys| ==> |keys[i]| == 33
    ensures
      var r := MembersFrom(s, pending, keys);
      r.Some? ==> r.value != [] && forall i :: 0 <= i < |r.value| ==> |r.value[i]| == 33
    decreases |s|
  {
    if Read(s).Some? {
      var t, rest := Read(s).value.0, Read(s).value.1;
      if t.op == OP_DATA_33 {
        MembersAreKeys(rest, t.data, keys);
      } else if t.op == OP_CHECKSIGVERIFY {
        if |pending| == KEY_LEN {
          MembersAreKeys(rest, [], keys + [pending]);
        }
      } else if t.op != OP_ELSE {
        MembersAreKeys(rest, pending, keys);
      }
    }
  }

  lemma {:induction false} CountIsSome(s: Bytes, n: nat)
    ensures CountFrom(s, n).Some? ==> CountFrom(s, n).value > 0 && CountFrom(s, n).value >= n
    decreases |s|
  {
    if Read(s).Some? {
      CountIsSome(Read(s).value.1, if Read(s).value.0.op == OP_CHECKSIGVERIFY then n + 1 else n);
    }
  }

  method Members(redeem: Bytes) returns (r: Option<seq<Bytes>>)
    ensures r == MembersFrom(redeem, [], [])
    ensures r.Some? ==> r.value != [] && forall i :: 0 <= i < |r.value| ==> |r.value[i]| == 33
  {
    MembersAreKeys(redeem, [], []);
    var rest, pending, keys := redeem, [], [];
    while true
      invariant MembersFrom(redeem, [], []) == MembersFrom(rest, pending, keys)
      decreases |rest|
    {
      var next := Read(rest);
      if next.None? {
        return None;
      }
      var t := next.value.0;
      rest := next.value.1;
      if t.op == OP_DATA_33 {
        pending := t.data;
      } else if t.op == OP_CHECKSIGVERIFY {
        if |pending| != KEY_LEN {
          return None;
        }
        keys := keys + [pending];
        pending := [];
      } else if t.op == OP_ELSE {
        return if keys == [] then None else Some(keys);
      }
    }
  }

  method MemberCount(redeem: Bytes) returns (r: Option<nat>)
    ensures r == CountFrom(redeem, 0)
    ensures r.Some? ==> r.value > 0
  {
    CountIsSome(redeem, 0);
    var rest, n := redeem, 0;
    while true
      invariant CountFrom(redeem, 0) == CountFrom(rest, n)
      decreases |rest|
    {
      var next := Read(rest);
      if next.None? {
        return None;
      }
      rest := next.value.1;
      if next.value.0.op == OP_CHECKSIGVERIFY {
        n := n + 1;
      } else if next.value.0.op == OP_ELSE {
        return if n == 0 then None else Some(n);
      }
    }
  }

  lemma ReadOneCheck(k: Bytes, rest: seq<Token>, read: seq<Bytes>, n: nat)
    requires |k| == KEY_LEN
    ensures
      var s := Flat([PushData(k)] + ([Code(OP_CHECKSIGVERIFY)] + rest));
      && MembersFrom(s, [], read) == MembersFrom(Flat(rest), [], read + [k])
      && CountFrom(s, n) == CountFrom(Flat(rest), n + 1)
  {
    PushKeyPushes(k);
    ReadFirst(PushData(k), [Code(OP_CHECKSIGVERIFY)] + rest);
    ReadFirst(Code(OP_CHECKSIGVERIFY), rest);
  }

  lemma ReadElse(tail: seq<Token>, read: seq<Bytes>, n: nat)
    requires read != [] && n != 0
    ensures MembersFrom(Flat([Code(OP_ELSE)] + tail), [], read) == Some(read)
    ensures CountFrom(Flat([Code(OP_ELSE)] + tail), n) == Some(n)
  {
    ReadFirst(Code(OP_ELSE), tail);
  }

  lemma {:induction false} ReadChecks(keys: seq<Bytes>, after: seq<Token>, read: seq<Bytes>)
    requires AllKeys(keys)
    ensures MembersFrom(Flat(Checks(keys) + after), [], read) == MembersFrom(Flat(after), [], read + keys)
    ensures CountFrom(Flat(Checks(keys) + after), |read|) == CountFrom(Flat(after), |read + keys|)
  {
    hide Flat, MembersFrom, CountFrom;
    if keys == [] {
      assert Checks(keys) + after == after && read + keys == read;
    } else {
      var key, next := keys[0], read + [keys[0]];
      ChecksFirst(keys, after);
      assert read + keys == next + keys[1..];
      ReadChecks(keys[1..], after, next);
      ReadOneCheck(key, Checks(keys[1..]) + after, read, |read|);
    }
  }

  lemma ChecksFirst(keys: seq<Bytes>, after: seq<Token>)
    requires keys != []
    ensures Checks(keys) + after == [PushData(keys[0])] + ([Code(OP_CHECKSIGVERIFY)] + (Checks(keys[1..]) + after))
  {
  }

  lemma ReadIf(rest: seq<Token>)
    ensures MembersFrom(Flat([Code(OP_IF)] + rest), [], []) == MembersFrom(Flat(rest), [], [])
    ensures CountFrom(Flat([Code(OP_IF)] + rest), 0) == CountFrom(Flat(rest), 0)
  {
    ReadFirst(Code(OP_IF), rest);
  }

  /** The member list read out of a cooperative script is the canonical list it
      was built from, and its length the number of signatures it needs. */
  lemma MembersOfCooperativeScript(curve: Curve, owner: Bytes, members: seq<Bytes>, blocks: nat)
    requires CooperativeScript(curve, owner, members, blocks).Some?
    ensures
      var script := CooperativeScript(curve, owner, members, blocks).value;
      && MembersFrom(script, [], []) == Some(Sort(members, Self))
      && CountFrom(script, 0) == Some(|members|)
      && |script| <= 500
  {
    hide Flat, MembersFrom, CountFrom, Checks, Sort;
    var keys := Sort(members, Self);
    SortedKeysAreKeys(curve, members);
    CooperativeSize(keys, owner, blocks);
    var tail := LockTokens(blocks, owner) + [Code(OP_ENDIF), Code(OP_TRUE)];
    var after := [Code(OP_ELSE)] + tail;
    assert CooperativeTokens(keys, owner, blocks) == [Code(OP_IF)] + (Checks(keys) + after);
    ReadIf(Checks(keys) + after);
    assert [] + keys == keys;
    ReadChecks(keys, after, []);
    ReadElse(tail, keys, |keys|);
  }

  // ---- Membership order ----

  /** The sorted member list, or a refusal. */
  function CanonicalMembers(curve: Curve, members: seq<Bytes>): Option<seq<Bytes>> {
    if members == [] || |members| > MAX_MEMBERS then None
    else if exists i :: 0 <= i < |members| && !IsKey(curve, members[i]) then None
    else
      var sorted := Sort(members, Self);
      if NoRepeats(sorted) then Some(sorted) else None
  }

  /** There is a canonical list exactly for one to thirteen readable compressed keys, no
      two alike; and it is those keys in order. */
  lemma CanonicalMembersAre(curve: Curve, members: seq<Bytes>)
    ensures CanonicalMembers(curve, members).Some? <==>
      && 1 <= |members| <= 13 && Distinct(members)
      && forall i :: 0 <= i < |members| ==> |members[i]| == 33 && curve(members[i])
    ensures
      var r := CanonicalMembers(curve, members);
      r.Some? ==> SortedBy(r.value, Self) && multiset(r.value) == multiset(members)
  {
    hide Sort;
    var sorted := Sort(members, Self);
    SortSorts(members, Self);
    if NoRepeats(sorted) {
      StrictlyDistinct(sorted);
      SamePlaces(sorted, members);
    } else {
      var i :| 0 < i < |sorted| && sorted[i] == sorted[i - 1];
      assert !Distinct(sorted);
      if Distinct(members) {
        SamePlaces(members, sorted);
      }
    }
  }

  lemma StrictlyDistinct(s: seq<Bytes>)
    requires SortedBy(s, Self) && NoRepeats(s)
    ensures Distinct(s)
  {
    forall i, j | 0 <= i < j < |s| ensures s[i] != s[j] {
      if s[i] == s[j] {
        assert !Less(s[i + 1], s[i]) && (i + 1 < j ==> !Less(s[j], s[i + 1]));
        LessTotal(s[i], s[i + 1]);
      }
    }
  }

  /** Permutations of distinct elements are distinct. */
  lemma SamePlaces<T>(a: seq<T>, b: seq<T>)
    requires Distinct(a) && multiset(a) == multiset(b)
    ensures Distinct(b)
  {
    forall i, j | 0 <= i < j < |b| ensures b[i] != b[j] {
      if b[i] == b[j] {
        TwicePlaced(b, i, j);
        OncePlaced(a, b[i]);
      }
    }
  }

  lemma {:induction false} OncePlaced<T>(a: seq<T>, x: T)
    requires Distinct(a)
    ensures multiset(a)[x] <= 1
  {
    if a != [] {
      var last := |a| - 1;
      assert a == a[..last] + [a[last]];
      OncePlaced(a[..last], x);
    }
  }

  /** The loops behind it: every key checked, then no two neighbours equal. */
  method SortMembers(curve: Curve, members: seq<Bytes>) returns (r: Option<seq<Bytes>>)
    ensures r == CanonicalMembers(curve, members)
  {
    if |members| == 0 || |members| > MAX_MEMBERS {
      return None;
    }
    for i := 0 to |members|
      invariant forall k :: 0 <= k < i ==> IsKey(curve, members[k])
    {
      if !IsKey(curve, members[i]) {
        return None;
      }
    }
    var sorted := Sort(members, Self);
    for i := 1 to |sorted|
      invariant forall k :: 0 < k < i ==> sorted[k] != sorted[k - 1]
    {
      if sorted[i - 1] == sorted[i] {
        return None;
      }
    }
    return Some(sorted);
  }
}
