/** Deposit descriptors and the scripts they compile to: what a deposit script
    demands, that the witness builders meet it, and that the parsers read back
    what the builders wrote. */
module Finance {
  import opened ByteStrings
  import opened Sorting
  import opened Script

  const VERSION: nat := 2
  const MAX_LOCK_BLOCKS: nat := 65535
  const MAX_ATOMS: int := 21_000_000 * 100_000_000
  const MAX_MEMBERS: nat := 13
  const MAX_SCRIPT_ELEMENT: nat := 2048
  const KEY_LEN: nat := 33

  /** secp256k1.ParsePubKey on a compressed key: whether it names a point. */
  type Curve = Bytes -> bool

  // ---- Descriptors ----

  datatype Terms = Terms(
    version: nat, game: string, network: string, account: nat, table: string, kind: string,
    atoms: int, lockBlocks: nat, identity: Bytes, recovery: Bytes, members: seq<Bytes>)

  predicate IsKey(curve: Curve, k: Bytes) {
    |k| == KEY_LEN && curve(k)
  }

  function PublicKey(curve: Curve, text: Bytes): Option<Bytes> {
    match Unhex(text)
    case None => None
    case Some(k) => if IsKey(curve, k) then Some(k) else None
  }

  function PublicKeys(curve: Curve, texts: seq<Bytes>): Option<seq<Bytes>> {
    if texts == [] then Some([])
    else
      match (PublicKey(curve, texts[0]), PublicKeys(curve, texts[1..]))
      case (Some(k), Some(ks)) => Some([k] + ks)
      case _ => None
  }

  function HexAll(ks: seq<Bytes>): (texts: seq<Bytes>)
    ensures |texts| == |ks|
    ensures forall i :: 0 <= i < |ks| ==> texts[i] == Hex(ks[i])
  {
    if ks == [] then [] else [Hex(ks[0])] + HexAll(ks[1..])
  }

  predicate NoRepeats(s: seq<Bytes>) {
    forall i :: 0 < i < |s| ==> s[i] != s[i - 1]
  }

  predicate RosterFits(kind: string, members: seq<Bytes>, recovery: Bytes) {
    if kind == "seatbond" then members == []
    else if kind == "stake" || kind == "tablebond" then
      2 <= |members| <= MAX_MEMBERS && recovery in members
    else false
  }

  predicate ScopeFits(t: Terms) {
    && t.version == VERSION && t.game != "" && t.network != "" && t.table != ""
    && 0 < t.atoms <= MAX_ATOMS
    && 0 < t.lockBlocks <= MAX_LOCK_BLOCKS
  }

  /** The one form of a descriptor: keys in lower case, members in order. */
  function Canonical(curve: Curve, t: Terms): Option<Terms> {
    if !ScopeFits(t) then None
    else
      match (PublicKey(curve, t.identity), PublicKey(curve, t.recovery), PublicKeys(curve, t.members))
      case (Some(identity), Some(recovery), Some(keys)) =>
        var members := Sort(HexAll(keys), Self);
        if identity == recovery || Hex(identity) in members || !NoRepeats(members)
           || !RosterFits(t.kind, members, Hex(recovery))
        then None
        else Some(t.(identity := Hex(identity), recovery := Hex(recovery), members := members))
      case _ => None
  }

  // ---- Scripts ----

  function Checks(keys: seq<Bytes>): seq<Token> {
    if keys == [] then [] else [PushData(keys[0]), Code(OP_CHECKSIGVERIFY)] + Checks(keys[1..])
  }

  function LockTokens(blocks: nat, owner: Bytes): seq<Token> {
    [PushInt(blocks), Code(OP_CHECKSEQUENCEVERIFY), Code(OP_DROP), PushData(owner), Code(OP_CHECKSIGVERIFY)]
  }

  function CooperativeTokens(keys: seq<Bytes>, owner: Bytes, blocks: nat): seq<Token> {
    [Code(OP_IF)] + Checks(keys) + [Code(OP_ELSE)] + LockTokens(blocks, owner) + [Code(OP_ENDIF), Code(OP_TRUE)]
  }

  function AdmissionTokens(identity: Bytes, recovery: Bytes, blocks: nat): seq<Token> {
    [PushData(identity), Code(OP_DROP)] + LockTokens(blocks, recovery) + [Code(OP_TRUE)]
  }

  predicate LockInRange(blocks: nat) {
    0 < blocks <= MAX_LOCK_BLOCKS
  }

  function CooperativeScript(curve: Curve, owner: Bytes, members: seq<Bytes>, blocks: nat): Option<Bytes> {
    if !LockInRange(blocks) || !(2 <= |members| <= MAX_MEMBERS) then None
    else if exists i :: 0 <= i < |members| && !IsKey(curve, members[i]) then None
    else
      var keys := Sort(members, Self);
      if !NoRepeats(keys) || owner !in keys then None
      else
        var script := Flat(CooperativeTokens(keys, owner, blocks));
        if |script| > MAX_SCRIPT_ELEMENT then None else Some(script)
  }

  function AdmissionScript(curve: Curve, identity: Bytes, recovery: Bytes, blocks: nat): Option<Bytes> {
    if !IsKey(curve, identity) || !IsKey(curve, recovery) || identity == recovery || !LockInRange(blocks) then None
    else Some(Flat(AdmissionTokens(identity, recovery, blocks)))
  }

  function KeysOf(texts: seq<Bytes>): seq<Bytes> {
    if texts == [] then [] else [Unhex(texts[0]).GetOr([])] + KeysOf(texts[1..])
  }

  /** The redeem script of a descriptor. */
  function DescriptorScript(curve: Curve, t: Terms): Option<Bytes> {
    match Canonical(curve, t)
    case None => None
    case Some(c) =>
      var recovery := Unhex(c.recovery).GetOr([]);
      if c.kind == "seatbond" then AdmissionScript(curve, Unhex(c.identity).GetOr([]), recovery, c.lockBlocks)
      else CooperativeScript(curve, recovery, KeysOf(c.members), c.lockBlocks)
  }

  // ---- What a script demands ----

  /** The relative lock of DCP0003 in blocks, as an input's sequence meets it. */
  predicate LockMet(tx: Spend, blocks: nat) {
    && tx.version >= 2
    && (tx.sequence / SEQUENCE_DISABLED) % 2 == 0
    && (tx.sequence / SEQUENCE_IS_SECONDS) % 2 == 0
    && blocks <= tx.sequence % SEQUENCE_RANGE
  }

  /** Every member signed: the first key's signature is on top, the last
      key's at the bottom, and nothing lies between or below. */
  predicate AllSigned(tx: Spend, keys: seq<Bytes>, sigs: seq<Bytes>) {
    if keys == [] then sigs == []
    else sigs != [] && Signs(tx, sigs[|sigs| - 1], keys[0]) && AllSigned(tx, keys[1..], sigs[..|sigs| - 1])
  }

  /** All members together, or the owner alone once the lock has passed. */
  predicate CooperativePolicy(tx: Spend, keys: seq<Bytes>, owner: Bytes, blocks: nat, stack: seq<Bytes>) {
    stack != [] &&
    var flag, rest := stack[|stack| - 1], stack[..|stack| - 1];
    if Truthy(flag) then AllSigned(tx, keys, rest)
    else |rest| == 1 && Signs(tx, rest[0], owner) && LockMet(tx, blocks)
  }

  predicate AdmissionPolicy(tx: Spend, recovery: Bytes, blocks: nat, stack: seq<Bytes>) {
    |stack| == 1 && Signs(tx, stack[0], recovery) && LockMet(tx, blocks)
  }

  predicate AllKeys(keys: seq<Bytes>) {
    forall i :: 0 <= i < |keys| ==> |keys[i]| == KEY_LEN
  }

  lemma LockIsSequence(tx: Spend, blocks: nat)
    requires LockInRange(blocks)
    ensures SequenceAllows(tx, blocks) <==> LockMet(tx, blocks)
  {
  }

  lemma PushIntPushes(n: nat)
    requires LockInRange(n)
    ensures WellFormed(PushInt(n)) && Pushed(PushInt(n)) == Some(ScriptNum(n))
    ensures |Encode(PushInt(n))| <= 4
  {
    ScriptNumReads(n);
    PushDataPushes(ScriptNum(n));
    if n <= 16 {
      assert Magnitude(n) == [n];
    }
  }

  lemma PushKeyPushes(k: Bytes)
    requires |k| == KEY_LEN
    ensures PushData(k) == Token(OP_DATA_33, k) && WellFormed(PushData(k)) && Pushed(PushData(k)) == Some(k)
    ensures |Encode(PushData(k))| == 34
  {
  }

  lemma {:induction false} ChecksShape(keys: seq<Bytes>)
    requires AllKeys(keys)
    ensures |Checks(keys)| == 2 * |keys| && |Flat(Checks(keys))| == 35 * |keys|
    ensures forall i :: 0 <= i < |Checks(keys)| ==>
      WellFormed(Checks(keys)[i]) && Checks(keys)[i].op in {OP_DATA_33, OP_CHECKSIGVERIFY}
  {
    if keys != [] {
      PushKeyPushes(keys[0]);
      ChecksShape(keys[1..]);
      var head := [PushData(keys[0]), Code(OP_CHECKSIGVERIFY)];
      FlatAppend(head, Checks(keys[1..]));
      assert head[1..] == [Code(OP_CHECKSIGVERIFY)];
      assert |Flat(head)| == 35;
    }
  }

  /** The cooperative branch consumes one signature a member, in key order. */
  lemma {:induction false} RunChecks(tx: Spend, keys: seq<Bytes>, stack: seq<Bytes>, conds: seq<Cond>)
    requires AllKeys(keys) && Executing(Machine(stack, conds))
    ensures
      var signed := |stack| >= |keys| && AllSigned(tx, keys, stack[|stack| - |keys|..]);
      Run(tx, Checks(keys), Machine(stack, conds)) ==
      if signed then Some(Machine(stack[..|stack| - |keys|], conds)) else None
  {
    hide Signs, PushData, Truthy;
    var m, n := Machine(stack, conds), |stack|;
    if keys == [] {
      assert stack[..n] == stack;
    } else {
      var ts, key, rest := Checks(keys), keys[0], keys[1..];
      PushKeyPushes(key);
      var pushed := m.(stack := stack + [key]);
      assert Step(tx, ts[0], m) == Some(pushed);
      assert ts[1..][0] == Code(OP_CHECKSIGVERIFY) && ts[1..][1..] == Checks(rest);
      assert Pop(pushed).stack == stack;
      if n > 0 {
        var below := stack[..n - 1];
        assert Step(tx, ts[1], pushed) == if Signs(tx, stack[n - 1], key) then Some(Machine(below, conds)) else None;
        RunChecks(tx, rest, below, conds);
        if n >= |keys| {
          TailShortens(stack, |keys|);
        }
      } else {
        assert Step(tx, ts[1], pushed) == None;
      }
    }
  }

  lemma TailShortens(s: seq<Bytes>, k: nat)
    requires 0 < k <= |s|
    ensures s[|s| - k..][..k - 1] == s[..|s| - 1][|s| - k..]
    ensures s[..|s| - 1][..|s| - k] == s[..|s| - k]
  {
  }

  /** The number pushed for the lock reads back as the lock. */
  lemma LockIsRead(tx: Spend, blocks: nat, m: Machine)
    requires LockInRange(blocks) && Executing(m)
    ensures
      var num := m.(stack := m.stack + [ScriptNum(blocks)]);
      && WellFormed(PushInt(blocks))
      && Step(tx, PushInt(blocks), m) == Some(num)
      && Step(tx, Code(OP_CHECKSEQUENCEVERIFY), num) == (if LockMet(tx, blocks) then Some(num) else None)
      && Step(tx, Code(OP_DROP), num) == Some(m)
  {
    hide PushInt, ReadNum, ScriptNum, WellFormed, LockMet;
    PushIntPushes(blocks);
    ScriptNumReads(blocks);
    LockIsSequence(tx, blocks);
    var num := m.(stack := m.stack + [ScriptNum(blocks)]);
    assert Top(num) == ScriptNum(blocks) && Pop(num) == m;
  }

  lemma RunSequenceCheck(tx: Spend, blocks: nat, rest: seq<Token>, m: Machine)
    requires LockInRange(blocks) && Executing(m)
    ensures Run(tx, [PushInt(blocks)] + ([Code(OP_CHECKSEQUENCEVERIFY)] + ([Code(OP_DROP)] + rest)), m) ==
      if LockMet(tx, blocks) then Run(tx, rest, m) else None
  {
    hide Run, Step, PushInt, ScriptNum, LockMet, Executing;
    LockIsRead(tx, blocks, m);
    var num := m.(stack := m.stack + [ScriptNum(blocks)]);
    RunFirst(tx, PushInt(blocks), [Code(OP_CHECKSEQUENCEVERIFY)] + ([Code(OP_DROP)] + rest), m);
    RunFirst(tx, Code(OP_CHECKSEQUENCEVERIFY), [Code(OP_DROP)] + rest, num);
    RunFirst(tx, Code(OP_DROP), rest, num);
  }

  /** The owner's key pushed, and its signature checked. */
  lemma OwnerIsAsked(tx: Spend, owner: Bytes, stack: seq<Bytes>, conds: seq<Cond>)
    requires |owner| == KEY_LEN && Executing(Machine(stack, conds))
    ensures
      var key := Machine(stack + [owner], conds);
      && Step(tx, PushData(owner), Machine(stack, conds)) == Some(key)
      && Step(tx, Code(OP_CHECKSIGVERIFY), key) ==
         if stack != [] && Signs(tx, stack[|stack| - 1], owner)
         then Some(Machine(stack[..|stack| - 1], conds)) else None
  {
    hide PushData;
    PushKeyPushes(owner);
    var m, key := Machine(stack, conds), Machine(stack + [owner], conds);
    assert Top(key) == owner && Pop(key) == m;
  }

  /** The refund branch asks for the lock and then for the owner. */
  lemma RunLock(tx: Spend, blocks: nat, owner: Bytes, stack: seq<Bytes>, conds: seq<Cond>)
    requires LockInRange(blocks) && |owner| == KEY_LEN && Executing(Machine(stack, conds))
    ensures Run(tx, LockTokens(blocks, owner), Machine(stack, conds)) ==
      if stack != [] && LockMet(tx, blocks) && Signs(tx, stack[|stack| - 1], owner)
      then Some(Machine(stack[..|stack| - 1], conds)) else None
  {
    hide Run, Step, PushInt, PushData, LockMet, Executing, Signs;
    var m, key := Machine(stack, conds), Machine(stack + [owner], conds);
    var check := [PushData(owner)] + ([Code(OP_CHECKSIGVERIFY)] + []);
    assert LockTokens(blocks, owner) ==
      [PushInt(blocks)] + ([Code(OP_CHECKSEQUENCEVERIFY)] + ([Code(OP_DROP)] + check));
    RunSequenceCheck(tx, blocks, check, m);
    OwnerIsAsked(tx, owner, stack, conds);
    RunFirst(tx, PushData(owner), [Code(OP_CHECKSIGVERIFY)] + [], m);
    RunFirst(tx, Code(OP_CHECKSIGVERIFY), [], key);
    RunNothing(tx, m);
    RunNothing(tx, key);
    if stack != [] {
      RunNothing(tx, Machine(stack[..|stack| - 1], conds));
    }
  }

  lemma RunNothing(tx: Spend, m: Machine)
    ensures Run(tx, [], m) == Some(m)
  {
  }

  lemma LockShape(blocks: nat, owner: Bytes)
    requires LockInRange(blocks) && |owner| == KEY_LEN
    ensures forall i :: 0 <= i < 5 ==> WellFormed(LockTokens(blocks, owner)[i])
    ensures forall i :: 0 <= i < 5 ==> LockTokens(blocks, owner)[i].op !in {OP_IF, OP_ELSE, OP_ENDIF}
  {
    hide PushInt, PushData;
    PushIntPushes(blocks);
    PushKeyPushes(owner);
  }

  lemma LockSize(blocks: nat, owner: Bytes)
    requires LockInRange(blocks) && |owner| == KEY_LEN
    ensures |Flat(LockTokens(blocks, owner))| <= 41
  {
    hide PushInt, PushData, Flat;
    PushIntPushes(blocks);
    PushKeyPushes(owner);
    var t4 := [Code(OP_CHECKSIGVERIFY)] + [];
    var t3 := [PushData(owner)] + t4;
    var t2 := [Code(OP_DROP)] + t3;
    var t1 := [Code(OP_CHECKSEQUENCEVERIFY)] + t2;
    assert LockTokens(blocks, owner) == [PushInt(blocks)] + t1;
    FlatFirst(PushInt(blocks), t1);
    FlatFirst(Code(OP_CHECKSEQUENCEVERIFY), t2);
    FlatFirst(Code(OP_DROP), t3);
    FlatFirst(PushData(owner), t4);
    CodeSize(OP_CHECKSIGVERIFY);
    assert t4 == [Code(OP_CHECKSIGVERIFY)];
    CodeWidth(OP_CHECKSEQUENCEVERIFY);
    CodeWidth(OP_DROP);
  }

  lemma CodeWidth(op: byte)
    requires op > OP_PUSHDATA4
    ensures |Encode(Code(op))| == 1
  {
  }

  lemma CodeSize(op: byte)
    requires op > OP_PUSHDATA4
    ensures |Flat([Code(op)])| == 1
  {
    assert [Code(op)][1..] == [];
  }

  lemma CooperativeParses(keys: seq<Bytes>, owner: Bytes, blocks: nat)
    requires AllKeys(keys) && |owner| == KEY_LEN && LockInRange(blocks)
    ensures Tokenize(Flat(CooperativeTokens(keys, owner, blocks))) == Some(CooperativeTokens(keys, owner, blocks))
  {
    hide PushInt, PushData, Flat, Tokenize, Checks;
    ChecksShape(keys);
    LockShape(blocks, owner);
    var front, lock, back := [Code(OP_IF)] + Checks(keys) + [Code(OP_ELSE)], LockTokens(blocks, owner),
      [Code(OP_ENDIF), Code(OP_TRUE)];
    var ts := CooperativeTokens(keys, owner, blocks);
    assert ts == front + lock + back;
    forall i | 0 <= i < |ts| ensures WellFormed(ts[i]) {
      if i < |front| {
        assert ts[i] == front[i];
      } else if i < |front| + 5 {
        assert ts[i] == lock[i - |front|];
      } else {
        assert ts[i] == back[i - |front| - 5];
      }
    }
    TokenizeInvertsFlat(ts);
  }

  lemma CooperativeSize(keys: seq<Bytes>, owner: Bytes, blocks: nat)
    requires AllKeys(keys) && |owner| == KEY_LEN && LockInRange(blocks)
    ensures |Flat(CooperativeTokens(keys, owner, blocks))| <= 45 + 35 * |keys|
  {
    hide PushInt, PushData, Flat;
    ChecksShape(keys);
    LockSize(blocks, owner);
    var checks, lock, back := Checks(keys), LockTokens(blocks, owner), [Code(OP_ENDIF)] + [Code(OP_TRUE)];
    assert CooperativeTokens(keys, owner, blocks) == [Code(OP_IF)] + (checks + ([Code(OP_ELSE)] + (lock + back)));
    FlatFirst(Code(OP_IF), checks + ([Code(OP_ELSE)] + (lock + back)));
    FlatAppend(checks, [Code(OP_ELSE)] + (lock + back));
    FlatFirst(Code(OP_ELSE), lock + back);
    FlatAppend(lock, back);
    FlatFirst(Code(OP_ENDIF), [Code(OP_TRUE)]);
    CodeSize(OP_TRUE);
    CodeWidth(OP_IF);
    CodeWidth(OP_ELSE);
    CodeWidth(OP_ENDIF);
  }

  lemma NothingLeft(tx: Spend, stack: seq<Bytes>, c: Cond)
    ensures Run(tx, [Code(OP_ENDIF), Code(OP_TRUE)], Machine(stack, [c])) == Some(Machine(stack + [[1]], []))
  {
    var m := Machine(stack, [c]);
    assert [c][..0] == [];
    assert [Code(OP_ENDIF), Code(OP_TRUE)] == [Code(OP_ENDIF)] + ([Code(OP_TRUE)] + []);
    RunFirst(tx, Code(OP_ENDIF), [Code(OP_TRUE)] + [], m);
    RunFirst(tx, Code(OP_TRUE), [], m.(conds := []));
  }

  lemma OneIsTrue()
    ensures Truthy([1])
  {
    var b: Bytes := [1];
    assert b[0] != 0;
  }

  /** Taking the cooperative branch. */
  lemma CooperativeRunSettles(tx: Spend, keys: seq<Bytes>, owner: Bytes, blocks: nat, rest: seq<Bytes>, flag: Bytes)
    requires AllKeys(keys) && |owner| == KEY_LEN && LockInRange(blocks) && Truthy(flag)
    ensures Run(tx, CooperativeTokens(keys, owner, blocks), Machine(rest + [flag], [])) ==
      if |rest| >= |keys| && AllSigned(tx, keys, rest[|rest| - |keys|..])
      then Some(Machine(rest[..|rest| - |keys|] + [[1]], [])) else None
  {
    hide Run, Checks, AllSigned, Signs;
    var lock, back, checks := LockTokens(blocks, owner), [Code(OP_ENDIF), Code(OP_TRUE)], Checks(keys);
    var m := Machine(rest, [IsTrue]);
    EnterBranch(tx, keys, owner, blocks, rest, flag);
    RunChecks(tx, keys, rest, [IsTrue]);
    if |rest| >= |keys| && AllSigned(tx, keys, rest[|rest| - |keys|..]) {
      var left := Machine(rest[..|rest| - |keys|], [IsTrue]);
      AfterElse(tx, lock, back, left);
      LockShape(blocks, owner);
      RunSkips(tx, lock, left.(conds := [IsFalse]));
      NothingLeft(tx, left.stack, IsFalse);
    }
  }

  /** Taking the refund branch. */
  lemma CooperativeRunRefunds(tx: Spend, keys: seq<Bytes>, owner: Bytes, blocks: nat, rest: seq<Bytes>, flag: Bytes)
    requires AllKeys(keys) && |owner| == KEY_LEN && LockInRange(blocks) && !Truthy(flag)
    ensures Run(tx, CooperativeTokens(keys, owner, blocks), Machine(rest + [flag], [])) ==
      if rest != [] && LockMet(tx, blocks) && Signs(tx, rest[|rest| - 1], owner)
      then Some(Machine(rest[..|rest| - 1] + [[1]], [])) else None
  {
    hide Run, Checks, Signs, LockMet;
    var lock, back, checks := LockTokens(blocks, owner), [Code(OP_ENDIF), Code(OP_TRUE)], Checks(keys);
    var m := Machine(rest, [IsFalse]);
    EnterBranch(tx, keys, owner, blocks, rest, flag);
    ChecksShape(keys);
    RunSkips(tx, checks, m);
    AfterElse(tx, lock, back, m);
    RunLock(tx, blocks, owner, rest, [IsTrue]);
    if rest != [] {
      NothingLeft(tx, rest[..|rest| - 1], IsTrue);
    }
  }

  lemma EnterBranch(tx: Spend, keys: seq<Bytes>, owner: Bytes, blocks: nat, rest: seq<Bytes>, flag: Bytes)
    ensures
      var tail := [Code(OP_ELSE)] + (LockTokens(blocks, owner) + [Code(OP_ENDIF), Code(OP_TRUE)]);
      Run(tx, CooperativeTokens(keys, owner, blocks), Machine(rest + [flag], [])) ==
      match Run(tx, Checks(keys), Machine(rest, [if Truthy(flag) then IsTrue else IsFalse]))
      case None => None
      case Some(n) => Run(tx, tail, n)
  {
    var tail := [Code(OP_ELSE)] + (LockTokens(blocks, owner) + [Code(OP_ENDIF), Code(OP_TRUE)]);
    var m, n := Machine(rest + [flag], []), Machine(rest, [if Truthy(flag) then IsTrue else IsFalse]);
    assert CooperativeTokens(keys, owner, blocks) == [Code(OP_IF)] + (Checks(keys) + tail);
    assert Pop(m).stack == rest && Top(m) == flag && [] + n.conds == n.conds;
    assert Step(tx, Code(OP_IF), m) == Some(n);
    RunFirst(tx, Code(OP_IF), Checks(keys) + tail, m);
    RunAppend(tx, Checks(keys), tail, n);
  }

  lemma AfterElse(tx: Spend, lock: seq<Token>, back: seq<Token>, m: Machine)
    requires |m.conds| == 1
    ensures Run(tx, [Code(OP_ELSE)] + (lock + back), m) ==
      match Run(tx, lock, m.(conds := [Flip(m.conds[0])])) case None => None case Some(n) => Run(tx, back, n)
  {
    var next := m.(conds := [Flip(m.conds[0])]);
    assert m.conds[0 := Flip(m.conds[0])] == [Flip(m.conds[0])];
    assert Step(tx, Code(OP_ELSE), m) == Some(next);
    assert ([Code(OP_ELSE)] + (lock + back))[1..] == lock + back;
    RunAppend(tx, lock, back, next);
  }

  lemma SortedKeysAreKeys(curve: Curve, members: seq<Bytes>)
    requires forall i :: 0 <= i < |members| ==> IsKey(curve, members[i])
    ensures forall i :: 0 <= i < |Sort(members, Self)| ==> IsKey(curve, Sort(members, Self)[i])
    ensures AllKeys(Sort(members, Self)) && |Sort(members, Self)| == |members|
  {
    SortSorts(members, Self);
    var keys := Sort(members, Self);
    forall i | 0 <= i < |keys| ensures IsKey(curve, keys[i]) {
      assert keys[i] in multiset(members);
    }
  }

  lemma {:induction false} AllSignedCounts(tx: Spend, keys: seq<Bytes>, sigs: seq<Bytes>)
    requires AllSigned(tx, keys, sigs)
    ensures |sigs| == |keys|
  {
    if keys != [] {
      AllSignedCounts(tx, keys[1..], sigs[..|sigs| - 1]);
    }
  }

  /** A cooperative script accepts exactly the stacks its policy names. */
  lemma CooperativeScriptIsItsPolicy(curve: Curve, tx: Spend, owner: Bytes, members: seq<Bytes>, blocks: nat,
      stack: seq<Bytes>)
    requires CooperativeScript(curve, owner, members, blocks).Some?
    ensures Accepts(tx, CooperativeScript(curve, owner, members, blocks).value, stack)
      <==> CooperativePolicy(tx, Sort(members, Self), owner, blocks, stack)
  {
    hide Flat, Tokenize, Run, Sort, Checks;
    var keys := Sort(members, Self);
    SortedKeysAreKeys(curve, members);
    CooperativeParses(keys, owner, blocks);
    var ts := CooperativeTokens(keys, owner, blocks);
    if stack == [] {
      var tail := Checks(keys) + [Code(OP_ELSE)] + LockTokens(blocks, owner) + [Code(OP_ENDIF), Code(OP_TRUE)];
      assert ts == [Code(OP_IF)] + tail;
      RunFirst(tx, Code(OP_IF), tail, Machine(stack, []));
    } else {
      var rest, flag := stack[..|stack| - 1], stack[|stack| - 1];
      assert stack == rest + [flag];
      OneIsTrue();
      if Truthy(flag) {
        CooperativeRunSettles(tx, keys, owner, blocks, rest, flag);
        if AllSigned(tx, keys, rest) {
          AllSignedCounts(tx, keys, rest);
        }
        if |rest| == |keys| {
          assert rest[|rest| - |keys|..] == rest && rest[..|rest| - |keys|] + [[1]] == [[1]];
        }
      } else {
        CooperativeRunRefunds(tx, keys, owner, blocks, rest, flag);
        if |rest| == 1 {
          assert rest[..|rest| - 1] + [[1]] == [[1]];
        }
      }
    }
  }

  lemma AdmissionRun(tx: Spend, identity: Bytes, recovery: Bytes, blocks: nat, stack: seq<Bytes>)
    requires |identity| == KEY_LEN && |recovery| == KEY_LEN && LockInRange(blocks)
    ensures Run(tx, AdmissionTokens(identity, recovery, blocks), Machine(stack, [])) ==
      if stack != [] && LockMet(tx, blocks) && Signs(tx, stack[|stack| - 1], recovery)
      then Some(Machine(stack[..|stack| - 1] + [[1]], [])) else None
  {
    var m, lock, end := Machine(stack, []), LockTokens(blocks, recovery), [Code(OP_TRUE)] + [];
    var named := m.(stack := stack + [identity]);
    PushKeyPushes(identity);
    assert Pop(named) == m;
    assert AdmissionTokens(identity, recovery, blocks) == [PushData(identity)] + ([Code(OP_DROP)] + (lock + end));
    RunFirst(tx, PushData(identity), [Code(OP_DROP)] + (lock + end), m);
    RunFirst(tx, Code(OP_DROP), lock + end, named);
    RunAppend(tx, lock, end, m);
    RunLock(tx, blocks, recovery, stack, []);
    if stack != [] {
      RunFirst(tx, Code(OP_TRUE), [], Machine(stack[..|stack| - 1], []));
    }
  }

  /** An admission bond accepts exactly one recovery signature after its lock. */
  lemma AdmissionScriptIsItsPolicy(curve: Curve, tx: Spend, identity: Bytes, recovery: Bytes, blocks: nat,
      stack: seq<Bytes>)
    requires AdmissionScript(curve, identity, recovery, blocks).Some?
    ensures Accepts(tx, AdmissionScript(curve, identity, recovery, blocks).value, stack)
      <==> AdmissionPolicy(tx, recovery, blocks, stack)
  {
    hide Flat, Tokenize, Run, Sort;
    AdmissionShape(identity, recovery, blocks);
    AdmissionRun(tx, identity, recovery, blocks, stack);
    OneIsTrue();
    if |stack| == 1 {
      assert stack[..|stack| - 1] + [[1]] == [[1]];
    }
  }

  lemma AdmissionShape(identity: Bytes, recovery: Bytes, blocks: nat)
    requires |identity| == KEY_LEN && |recovery| == KEY_LEN && LockInRange(blocks)
    ensures Tokenize(Flat(AdmissionTokens(identity, recovery, blocks))) ==
      Some(AdmissionTokens(identity, recovery, blocks))
  {
    PushKeyPushes(identity);
    LockShape(blocks, recovery);
    TokenizeInvertsFlat(AdmissionTokens(identity, recovery, blocks));
  }
}
