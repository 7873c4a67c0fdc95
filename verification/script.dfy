/** The part of Decred's script language the escrow scripts use: the opcode
    stream, its tokenizer, the canonical push builder and the stack machine. */
module Script {
  import opened ByteStrings

  const OP_0: byte := 0x00
  const OP_DATA_33: byte := 0x21
  const OP_PUSHDATA1: byte := 0x4c
  const OP_PUSHDATA2: byte := 0x4d
  const OP_PUSHDATA4: byte := 0x4e
  const OP_1NEGATE: byte := 0x4f
  const OP_TRUE: byte := 0x51
  const OP_16: byte := 0x60
  const OP_IF: byte := 0x63
  const OP_ELSE: byte := 0x67
  const OP_ENDIF: byte := 0x68
  const OP_DROP: byte := 0x75
  const OP_CHECKSIGVERIFY: byte := 0xad
  const OP_CHECKSEQUENCEVERIFY: byte := 0xb2

  const SIG_HASH_ALL: byte := 1
  const SEQUENCE_DISABLED := 0x8000_0000
  const SEQUENCE_IS_SECONDS := 0x40_0000
  const SEQUENCE_RANGE := 0x1_0000

  // ---- Tokens ----

  /** One opcode with the data it pushes, if it pushes any. */
  datatype Token = Token(op: byte, data: Bytes)

  function Code(op: byte): Token { Token(op, []) }

  /** The width of the length field that follows a push opcode. */
  function LengthWidth(op: byte): nat {
    if op == OP_PUSHDATA1 then 1 else if op == OP_PUSHDATA2 then 2 else if op == OP_PUSHDATA4 then 4 else 0
  }

  predicate WellFormed(t: Token) {
    if 1 <= t.op <= 75 then |t.data| == t.op
    else if LengthWidth(t.op) > 0 then |t.data| < Pow256(LengthWidth(t.op))
    else t.data == []
  }

  function LE(n: nat, w: nat): (b: Bytes)
    ensures |b| == w
  {
    if w == 0 then [] else [n % 256] + LE(n / 256, w - 1)
  }

  function FromLE(b: Bytes): nat {
    if b == [] then 0 else b[0] + 256 * FromLE(b[1..])
  }

  lemma {:induction false} FromLEInvertsLE(n: nat, w: nat)
    requires n < Pow256(w)
    ensures FromLE(LE(n, w)) == n
  {
    if w > 0 {
      FromLEInvertsLE(n / 256, w - 1);
      assert LE(n, w)[1..] == LE(n / 256, w - 1);
    }
  }

  function Encode(t: Token): Bytes {
    [t.op] + LE(|t.data|, LengthWidth(t.op)) + t.data
  }

  function Flat(ts: seq<Token>): Bytes {
    if ts == [] then [] else Encode(ts[0]) + Flat(ts[1..])
  }

  /** One step of the tokenizer: the first token and what follows it. */
  function Next(s: Bytes): (r: Option<(Token, Bytes)>)
    requires s != []
    ensures r.Some? ==> |r.value.1| < |s|
  {
    var op, w := s[0], LengthWidth(s[0]);
    if 1 + w > |s| then None
    else
      var size := if 1 <= op <= 75 then op else FromLE(s[1..1 + w]);
      if 1 + w + size > |s| then None
      else Some((Token(op, s[1 + w..1 + w + size]), s[1 + w + size..]))
  }

  function Tokenize(s: Bytes): Option<seq<Token>>
    decreases |s|
  {
    if s == [] then Some([])
    else
      match Next(s)
      case None => None
      case Some((t, rest)) =>
        match Tokenize(rest)
        case None => None
        case Some(ts) => Some([t] + ts)
  }

  lemma NextReadsEncode(t: Token, rest: Bytes)
    requires WellFormed(t)
    ensures Next(Encode(t) + rest) == Some((t, rest))
  {
    var s, w := Encode(t) + rest, LengthWidth(t.op);
    assert s[1..1 + w] == LE(|t.data|, w);
    if w > 0 {
      FromLEInvertsLE(|t.data|, w);
    } else {
      assert s[1..1 + w] == [];
    }
    assert s[1 + w..1 + w + |t.data|] == t.data;
    assert s[1 + w + |t.data|..] == rest;
  }

  /** Reading back what was written gives the same tokens. */
  lemma {:induction false} TokenizeInvertsFlat(ts: seq<Token>)
    requires forall i :: 0 <= i < |ts| ==> WellFormed(ts[i])
    ensures Tokenize(Flat(ts)) == Some(ts)
  {
    if ts != [] {
      NextReadsEncode(ts[0], Flat(ts[1..]));
      TokenizeInvertsFlat(ts[1..]);
      assert ts == [ts[0]] + ts[1..];
    }
  }

  lemma FlatFirst(t: Token, rest: seq<Token>)
    ensures Flat([t] + rest) == Encode(t) + Flat(rest)
  {
    assert ([t] + rest)[1..] == rest;
  }

  lemma {:induction false} FlatAppend(a: seq<Token>, b: seq<Token>)
    ensures Flat(a + b) == Flat(a) + Flat(b)
  {
    if a == [] {
      assert a + b == b;
    } else {
      assert (a + b)[1..] == a[1..] + b;
      FlatAppend(a[1..], b);
    }
  }

  // ---- Numbers and pushes ----

  /** The minimal little-endian magnitude of a number. */
  function Magnitude(n: nat): Bytes {
    if n == 0 then [] else [n % 256] + Magnitude(n / 256)
  }

  /** A script number: a set top bit would read as a minus sign, so one zero
      byte is added above it. */
  function ScriptNum(n: nat): Bytes {
    var m := Magnitude(n);
    if m != [] && m[|m| - 1] >= 128 then m + [0] else m
  }

  /** makeScriptNum with a five-byte limit: too long or not minimal is refused. */
  function ReadNum(b: Bytes): Option<int> {
    if |b| > 5 then None
    else if b == [] then Some(0)
    else
      var top := b[|b| - 1];
      if top % 128 == 0 && (|b| == 1 || b[|b| - 2] < 128) then None
      else if top >= 128 then var size: int := FromLE(b[..|b| - 1] + [top - 128]); Some(-size)
      else Some(FromLE(b))
  }

  /** ScriptBuilder.AddData: the shortest opcode that pushes the data. */
  function PushData(d: Bytes): Token {
    if d == [] then Code(OP_0)
    else if |d| == 1 && 1 <= d[0] <= 16 then Code(0x50 + d[0])
    else if d == [0x81] then Code(OP_1NEGATE)
    else if |d| <= 75 then Token(|d|, d)
    else if |d| <= 0xff then Token(OP_PUSHDATA1, d)
    else Token(OP_PUSHDATA2, d)
  }

  /** ScriptBuilder.AddInt64 for a number that is not negative. */
  function PushInt(n: nat): Token {
    if n == 0 then Code(OP_0) else if n <= 16 then Code(0x50 + n) else PushData(ScriptNum(n))
  }

  /** What a token leaves on the stack, when it is a push at all. */
  function Pushed(t: Token): Option<Bytes> {
    if t.op <= OP_PUSHDATA4 then Some(t.data)
    else if t.op == OP_1NEGATE then Some([0x81])
    else if OP_TRUE <= t.op <= OP_16 then Some([t.op - 0x50])
    else None
  }

  lemma PushDataPushes(d: Bytes)
    requires |d| < 0x1_0000
    ensures WellFormed(PushData(d)) && Pushed(PushData(d)) == Some(d)
  {
    PowersOf256();
    if |d| == 1 {
      assert d == [d[0]];
    }
  }

  lemma FromLETwo(a: byte, b: byte)
    ensures FromLE([a]) == a && FromLE([a, b]) == a + 256 * b
  {
    assert [a][1..] == [] && [a, b][1..] == [b] && [b][1..] == [];
  }

  /** Every lock a descriptor may carry is read back as itself. */
  lemma ScriptNumReads(n: nat)
    requires 0 < n < 0x1_0000
    ensures ReadNum(ScriptNum(n)) == Some(n)
    ensures FromLE(ScriptNum(n)) == n
    ensures 1 <= |ScriptNum(n)| <= 3
  {
    var lo, hi := n % 256, n / 256;
    if n < 256 {
      assert Magnitude(n) == [n];
      assert ScriptNum(n) == if n >= 128 then [n, 0] else [n];
      FromLETwo(n, 0);
    } else {
      assert Magnitude(hi) == [hi];
      assert Magnitude(n) == [lo] + [hi] == [lo, hi];
      assert ScriptNum(n) == if hi >= 128 then [lo, hi, 0] else [lo, hi];
      FromLETwo(lo, hi);
      FromLETwo(hi, 0);
      assert [lo, hi, 0][1..] == [hi, 0];
    }
  }

  // ---- The machine ----

  /** What the spending transaction shows the script: its version, the input's
      sequence, and whether a signature of a hash type verifies for a key. */
  datatype Spend = Spend(version: nat, sequence: nat, ecdsa: (byte, Bytes, Bytes) -> bool)

  datatype Cond = IsTrue | IsFalse | Skipped

  /** The data stack, its top last, and the open conditionals. */
  datatype Machine = Machine(stack: seq<Bytes>, conds: seq<Cond>)

  predicate Truthy(b: Bytes) {
    exists i :: 0 <= i < |b| && b[i] != 0 && !(i == |b| - 1 && b[i] == 0x80)
  }

  predicate Executing(m: Machine) {
    m.conds == [] || m.conds[|m.conds| - 1] == IsTrue
  }

  /** A signature element: a DER signature of legal length and its hash type. */
  predicate Signs(tx: Spend, element: Bytes, key: Bytes) {
    9 <= |element| <= 73 && tx.ecdsa(element[|element| - 1], element[..|element| - 1], key)
  }

  /** OP_CHECKSEQUENCEVERIFY of DCP0003 on a stack top read as a number. */
  predicate SequenceAllows(tx: Spend, n: int) {
    if n < 0 then false
    else if (n / SEQUENCE_DISABLED) % 2 == 1 then true
    else
      && tx.version >= 2
      && (tx.sequence / SEQUENCE_DISABLED) % 2 == 0
      && (tx.sequence / SEQUENCE_IS_SECONDS) % 2 == (n / SEQUENCE_IS_SECONDS) % 2
      && n % SEQUENCE_RANGE <= tx.sequence % SEQUENCE_RANGE
  }

  function Pop(m: Machine): Machine
    requires m.stack != []
  {
    m.(stack := m.stack[..|m.stack| - 1])
  }

  function Top(m: Machine): Bytes
    requires m.stack != []
  {
    m.stack[|m.stack| - 1]
  }

  function Flip(c: Cond): Cond {
    match c
    case IsTrue => IsFalse
    case IsFalse => IsTrue
    case Skipped => Skipped
  }

  function Step(tx: Spend, t: Token, m: Machine): Option<Machine> {
    var last := |m.conds| - 1;
    if t.op == OP_IF then
      if !Executing(m) then Some(m.(conds := m.conds + [Skipped]))
      else if m.stack == [] then None
      else Some(Pop(m).(conds := m.conds + [if Truthy(Top(m)) then IsTrue else IsFalse]))
    else if t.op == OP_ELSE then
      if m.conds == [] then None else Some(m.(conds := m.conds[last := Flip(m.conds[last])]))
    else if t.op == OP_ENDIF then
      if m.conds == [] then None else Some(m.(conds := m.conds[..last]))
    else if !Executing(m) then Some(m)
    else if Pushed(t).Some? then Some(m.(stack := m.stack + [Pushed(t).value]))
    else if t.op == OP_DROP then
      if m.stack == [] then None else Some(Pop(m))
    else if t.op == OP_CHECKSEQUENCEVERIFY then
      if m.stack == [] then None
      else
        match ReadNum(Top(m))
        case None => None
        case Some(n) => if SequenceAllows(tx, n) then Some(m) else None
    else if t.op == OP_CHECKSIGVERIFY then
      if |m.stack| < 2 then None
      else if Signs(tx, Top(Pop(m)), Top(m)) then Some(Pop(Pop(m)))
      else None
    else None
  }

  function Run(tx: Spend, ts: seq<Token>, m: Machine): Option<Machine> {
    if ts == [] then Some(m)
    else
      match Step(tx, ts[0], m)
      case None => None
      case Some(next) => Run(tx, ts[1..], next)
  }

  /** A redeem script accepts a witness stack when it parses, runs through and
      leaves nothing but one true element. */
  predicate Accepts(tx: Spend, redeem: Bytes, below: seq<Bytes>) {
    match Tokenize(redeem)
    case None => false
    case Some(ts) =>
      match Run(tx, ts, Machine(below, []))
      case None => false
      case Some(m) => m.conds == [] && |m.stack| == 1 && Truthy(m.stack[0])
  }

  predicate PushOnly(ts: seq<Token>) {
    forall i :: 0 <= i < |ts| ==> Pushed(ts[i]).Some?
  }

  /** Spending a pay-to-script-hash output: the signature script only pushes,
      its last push is the script that was hashed, and that script accepts the
      pushes below it. */
  predicate SpendsScript(tx: Spend, sigScript: Bytes, redeem: Bytes) {
    match Tokenize(sigScript)
    case None => false
    case Some(ts) =>
      && PushOnly(ts)
      && match Run(tx, ts, Machine([], []))
         case None => false
         case Some(m) => m.stack != [] && Top(m) == redeem && Accepts(tx, redeem, Pop(m).stack)
  }

  lemma RunFirst(tx: Spend, t: Token, rest: seq<Token>, m: Machine)
    ensures Run(tx, [t] + rest, m) == match Step(tx, t, m) case None => None case Some(n) => Run(tx, rest, n)
  {
    assert ([t] + rest)[1..] == rest;
  }

  lemma {:induction false} RunAppend(tx: Spend, a: seq<Token>, b: seq<Token>, m: Machine)
    ensures Run(tx, a + b, m) == match Run(tx, a, m) case None => None case Some(n) => Run(tx, b, n)
  {
    if a == [] {
      assert a + b == b;
    } else {
      assert (a + b)[1..] == a[1..] + b;
      match Step(tx, a[0], m)
      case None =>
      case Some(n) => RunAppend(tx, a[1..], b, n);
    }
  }

  /** A branch that is not taken moves nothing. */
  lemma {:induction false} RunSkips(tx: Spend, ts: seq<Token>, m: Machine)
    requires !Executing(m)
    requires forall i :: 0 <= i < |ts| ==> ts[i].op !in {OP_IF, OP_ELSE, OP_ENDIF}
    ensures Run(tx, ts, m) == Some(m)
  {
    if ts != [] {
      assert ts[0].op !in {OP_IF, OP_ELSE, OP_ENDIF};
      RunSkips(tx, ts[1..], m);
    }
  }

  function PushTokens(ds: seq<Bytes>): seq<Token> {
    if ds == [] then [] else [PushData(ds[0])] + PushTokens(ds[1..])
  }

  lemma {:induction false} PushTokensAppend(a: seq<Bytes>, b: seq<Bytes>)
    ensures PushTokens(a + b) == PushTokens(a) + PushTokens(b)
  {
    if a == [] {
      assert a + b == b;
    } else {
      assert (a + b)[1..] == a[1..] + b;
      PushTokensAppend(a[1..], b);
    }
  }

  /** A script of canonical pushes leaves exactly the data it was built from. */
  lemma {:induction false} RunPushes(tx: Spend, ds: seq<Bytes>, below: seq<Bytes>)
    requires forall i :: 0 <= i < |ds| ==> |ds[i]| < 0x1_0000
    ensures Run(tx, PushTokens(ds), Machine(below, [])) == Some(Machine(below + ds, []))
    ensures PushOnly(PushTokens(ds))
    ensures forall i :: 0 <= i < |PushTokens(ds)| ==> WellFormed(PushTokens(ds)[i])
  {
    if ds == [] {
      assert below + ds == below;
    } else {
      PushDataPushes(ds[0]);
      RunPushes(tx, ds[1..], below + [ds[0]]);
      assert below + ds == below + [ds[0]] + ds[1..];
      assert PushTokens(ds)[1..] == PushTokens(ds[1..]);
    }
  }
}
