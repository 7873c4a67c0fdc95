/** Signatures whose nonce is fixed by where they sit, so that two of them at one
    place give the key away, and bond branches that such a key opens. */
module Forfeit {
  import opened ByteStrings
  import opened Scalars

  /** A group of points: scalars below n act on it, and each point shows an
      x-coordinate and the parity of its y-coordinate. */
  datatype Group<!P> = Group(
    n: nat, base: P, zero: P, plus: (P, P) -> P, times: (nat, P) -> P,
    x: P -> Bytes, odd: P -> bool, onCurve: P -> bool, parses: Bytes -> bool)

  /** Scalars act on the points as the field's sum and product say. */
  ghost predicate Acts<P(!new)>(g: Group<P>) {
    && Prime(g.n) && g.n <= Pow256(32) && g.onCurve(g.base)
    && (forall a: nat, p :: g.onCurve(p) ==> g.onCurve(g.times(a, p)))
    && (forall a: nat, b: nat, p :: g.onCurve(p) && a < g.n && b < g.n ==>
          && g.times(Add(g.n, a, b), p) == g.plus(g.times(a, p), g.times(b, p))
          && g.times(Mul(g.n, a, b), p) == g.times(a, g.times(b, p)))
  }

  /** Different scalars take the base to different points, and to every point there is. */
  ghost predicate Generates<P(!new)>(g: Group<P>) {
    && g.times(0, g.base) == g.zero
    && (forall a: nat, b: nat :: a < g.n && b < g.n && g.times(a, g.base) == g.times(b, g.base) ==> a == b)
    && (forall p :: g.onCurve(p) ==> exists a: nat :: a < g.n && g.times(a, g.base) == p)
  }

  /** A point and its negation share an x-coordinate and differ in parity. */
  ghost predicate Shows<P(!new)>(g: Group<P>)
    requires g.n > 0
  {
    && (forall p :: |g.x(p)| == 32)
    && (forall k: nat :: 0 < k < g.n ==>
          && g.x(g.times(Neg(g.n, k), g.base)) == g.x(g.times(k, g.base))
          && g.odd(g.times(Neg(g.n, k), g.base)) != g.odd(g.times(k, g.base)))
  }

  /** What the signing algebra needs of the curve. */
  ghost predicate IsGroup<P(!new)>(g: Group<P>) { Acts(g) && Generates(g) && Shows(g) }

  function Public<P>(g: Group<P>, d: nat): P { g.times(d, g.base) }

  function Compressed<P>(g: Group<P>, p: P): Bytes { [if g.odd(p) then 3 else 2] + g.x(p) }

  // ---- Nonces and coefficients ----

  const TRIES: nat := 8

  /** The first of a counter's digests that is a scalar and not zero. */
  function FirstScalar(hash: Bytes -> Hash32, n: nat, input: nat -> Bytes, i: nat): (r: Option<nat>)
    ensures r.Some? ==> 0 < r.value < n
    decreases TRIES - i
  {
    if i >= TRIES then None
    else
      var k := ToNat(hash(input(i)));
      if 0 < k < n then Some(k) else FirstScalar(hash, n, input, i + 1)
  }

  method DeriveScalar(hash: Bytes -> Hash32, n: nat, input: nat -> Bytes) returns (r: Option<nat>)
    ensures r == FirstScalar(hash, n, input, 0)
  {
    for i := 0 to TRIES
      invariant FirstScalar(hash, n, input, 0) == FirstScalar(hash, n, input, i)
    {
      var k := ToNat(hash(input(i)));
      if k < n && k != 0 {
        return Some(k);
      }
    }
    r := None;
  }

  // ---- Signing ----

  datatype Position = Position(table: Text, domain: Text, number: u64)

  function Committed(): set<Bytes> { {Ascii("cardkey"), Ascii("shuffle"), Ascii("secrets")} }

  function Known(): set<Bytes> {
    Committed() + {Ascii("entry"), Ascii("head"), Ascii("checkpoint"), Ascii("leaving"), Ascii("challenge"),
      Ascii("shufflecomplaint")}
  }

  /** What a try at a nonce is made of: the key, the position, the try. */
  function NonceBytes(d: nat, p: Position, i: nat): Bytes {
    Ascii("dcrpoker/forfeit/nonce/v1") +
    (Prefixed(BE(d, 32)) + (Prefixed(p.table) + (Prefixed(p.domain) + (BE(p.number, 8) + BE(i, 4)))))
  }

  /** What it is made of when the message counts too. */
  function CommittedNonceBytes(d: nat, p: Position, m: Text, i: nat): Bytes {
    Ascii("dcrpoker/forfeit/nonce-committed/v1") +
    (Prefixed(BE(d, 32)) +
     (Prefixed(p.table) + (Prefixed(p.domain) + (BE(p.number, 8) + (Prefixed(m) + BE(i, 4))))))
  }

  /** A nonce from the key and the position, and from nothing else. */
  function Nonce(hash: Bytes -> Hash32, n: nat, d: nat, p: Position): (r: Option<nat>)
    ensures r.Some? ==> 0 < r.value < n
  {
    if p.domain == [] || p.table == [] then None
    else FirstScalar(hash, n, i => NonceBytes(d, p, i), 0)
  }

  /** A nonce from the message as well. */
  function CommittedNonce(hash: Bytes -> Hash32, n: nat, d: nat, p: Position, m: Text): (r: Option<nat>)
    ensures r.Some? ==> 0 < r.value < n
  {
    if p.domain == [] || p.table == [] then None
    else FirstScalar(hash, n, i => CommittedNonceBytes(d, p, m, i), 0)
  }

  function Challenge(hash: Bytes -> Hash32, r: Bytes, m: Bytes): nat { ToNat(hash(r + m)) }

  /** Schnorr over a digest with a given nonce; no signature when the challenge is
      over the order, since the nonce may not be drawn again. */
  function SignWith<P>(g: Group<P>, hash: Bytes -> Hash32, d: nat, p: Position, m: Bytes,
      nonce: Option<nat>): Option<Bytes>
    requires g.n > 0
  {
    if |m| != 32 || d == 0 || p.domain !in Known() || nonce.None? then None
    else
      var point := Public(g, nonce.value);
      var k := if g.odd(point) then Neg(g.n, nonce.value) else nonce.value;
      var e := Challenge(hash, g.x(point), m);
      if e >= g.n then None else Some(g.x(point) + BE(Response(g.n, k, e, d), 32))
  }

  function Sign<P>(g: Group<P>, hash: Bytes -> Hash32, d: nat, p: Position, m: Bytes): Option<Bytes>
    requires g.n > 0
  {
    if p.domain in Committed() then None else SignWith(g, hash, d, p, m, Nonce(hash, g.n, d, p))
  }

  function SignCommitted<P>(g: Group<P>, hash: Bytes -> Hash32, d: nat, p: Position, m: Text): Option<Bytes>
    requires g.n > 0
  {
    if p.domain !in Committed() then None else SignWith(g, hash, d, p, m, CommittedNonce(hash, g.n, d, p, m))
  }

  /** What commits to its message is never signed by its position, and what its position
      fixes never with a nonce of its message: each of the nine domains has one way. */
  lemma DomainsKeepTheirWay<P>(g: Group<P>, hash: Bytes -> Hash32, d: nat, p: Position, m: Text)
    requires g.n > 0
    ensures Sign(g, hash, d, p, m).Some? ==>
      p.domain in {Ascii("entry"), Ascii("head"), Ascii("checkpoint"), Ascii("leaving"), Ascii("challenge"),
        Ascii("shufflecomplaint")} && p.table != [] && |m| == 32 && d != 0
    ensures SignCommitted(g, hash, d, p, m).Some? ==>
      p.domain in {Ascii("cardkey"), Ascii("shuffle"), Ascii("secrets")} && p.table != [] && |m| == 32 && d != 0
    ensures Sign(g, hash, d, p, m).None? || SignCommitted(g, hash, d, p, m).None?
  {
    hide NonceBytes, CommittedNonceBytes, Challenge, Response;
  }

  /** The stock verifier. */
  predicate Verifies<P(==)>(g: Group<P>, hash: Bytes -> Hash32, pub: P, m: Bytes, sig: Bytes) {
    && |sig| == 64 && |m| == 32
    && var r, s, e := sig[..32], ToNat(sig[32..]), Challenge(hash, sig[..32], m);
       && s < g.n && e < g.n
       && var point := g.plus(g.times(s, g.base), g.times(e, pub));
          point != g.zero && !g.odd(point) && g.x(point) == r
  }

  // ---- Recovering the key ----

  function Recover<P(==)>(g: Group<P>, hash: Bytes -> Hash32, pub: P, mA: Bytes, sigA: Bytes, mB: Bytes,
      sigB: Bytes): Option<nat>
    requires g.n > 0
  {
    if |sigA| != 64 || |sigB| != 64 || |mA| != 32 || |mB| != 32 then None
    else if sigA[..32] != sigB[..32] then None
    else
      var eA, eB := Challenge(hash, sigA[..32], mA), Challenge(hash, sigB[..32], mB);
      if eA >= g.n || eB >= g.n || eA == eB then None
      else
        var sA, sB := ToNat(sigA[32..]), ToNat(sigB[32..]);
        if sA >= g.n || sB >= g.n then None
        else
          var num, den := Add(g.n, Neg(g.n, sB), sA), Add(g.n, Neg(g.n, eA), eB);
          if den == 0 then None
          else
            var d := Mul(g.n, num, Inverse(g.n, den));
            if d == 0 || Public(g, d) != pub then None else Some(d)
  }

  // ---- Branches ----

  datatype Branch = Branch(table: Text, seat: Text)

  predicate ValidBranch<P>(g: Group<P>, br: Branch) {
    Trim(br.table) != [] && br.table == Trim(br.table) && |br.seat| == 33 && g.parses(br.seat)
  }

  /** What a try at a weight is made of: the half it is for, the branch, both keys and
      the try. */
  function WeightBytes(role: byte, br: Branch, l: Text, p: Text, i: nat): Bytes {
    Ascii("dcrpoker/forfeit/keyagg/v1") +
    ([role] + (Prefixed(br.table) + (Prefixed(l) + (Prefixed(p) + (Prefixed(br.seat) + BE(i, 4))))))
  }

  function Coefficient<P>(g: Group<P>, hash: Bytes -> Hash32, role: byte, br: Branch, l: Text,
      p: Text): (r: Option<nat>)
    ensures r.Some? ==> 0 < r.value < g.n
  {
    FirstScalar(hash, g.n, i => WeightBytes(role, br, l, p, i), 0)
  }

  /** The two weights of a branch, if both can be drawn. */
  function Coefficients<P>(g: Group<P>, hash: Bytes -> Hash32, br: Branch, log: P, punisher: P): (r: Option<(nat, nat)>)
    ensures r.Some? ==> 0 < r.value.0 < g.n && 0 < r.value.1 < g.n
  {
    var l, p := Compressed(g, log), Compressed(g, punisher);
    if |l| >= 0x1_0000_0000 || |p| >= 0x1_0000_0000 then None
    else
      match (Coefficient(g, hash, 0, br, l, p), Coefficient(g, hash, 1, br, l, p))
      case (Some(cl), Some(cp)) => Some((cl, cp))
      case _ => None
  }

  predicate Pairable<P(==)>(g: Group<P>, br: Branch, log: P, punisher: P) {
    && g.onCurve(log) && g.onCurve(punisher) && ValidBranch(g, br)
    && log != punisher
    && !(g.odd(log) != g.odd(punisher) && g.x(log) == g.x(punisher))
  }

  /** The key a punishment branch pays to. */
  function ForfeitKey<P(==)>(g: Group<P>, hash: Bytes -> Hash32, br: Branch, log: P, punisher: P): Option<P> {
    if !Pairable(g, br, log, punisher) then None
    else
      match Coefficients(g, hash, br, log, punisher)
      case None => None
      case Some((cl, cp)) =>
        var sum := g.plus(g.times(cl, log), g.times(cp, punisher));
        if sum == g.zero then None else Some(sum)
  }

  /** The secret that spends it. */
  function ForfeitPrivKey<P(==)>(g: Group<P>, hash: Bytes -> Hash32, br: Branch, recovered: nat,
      punisher: nat): Option<nat>
    requires g.n > 0
  {
    var log, pun := Public(g, recovered), Public(g, punisher);
    if ForfeitKey(g, hash, br, log, pun).None? then None
    else
      match Coefficients(g, hash, br, log, pun)
      case None => None
      case Some((cl, cp)) =>
        var d := Add(g.n, Mul(g.n, cl, recovered), Mul(g.n, cp, punisher));
        if d == 0 then None else Some(d)
  }

  // ---- The algebra ----

  /** A signature is its nonce point's x-coordinate and one response under a nonce
      whose point has even y. */
  lemma SignedWith<P(!new)>(g: Group<P>, hash: Bytes -> Hash32, d: nat, p: Position, m: Bytes, nonce: nat)
    requires IsGroup(g) && d < g.n && 0 < nonce < g.n && SignWith(g, hash, d, p, m, Some(nonce)).Some?
    ensures
      var sig := SignWith(g, hash, d, p, m, Some(nonce)).value;
      var k := if g.odd(Public(g, nonce)) then Neg(g.n, nonce) else nonce;
      var e := Challenge(hash, sig[..32], m);
      && |sig| == 64 && |m| == 32 && d != 0 && e < g.n && 0 < k < g.n
      && sig[..32] == g.x(Public(g, nonce)) == g.x(Public(g, k)) && !g.odd(Public(g, k))
      && ToNat(sig[32..]) == Response(g.n, k, e, d)
  {
    hide FirstScalar, ToNat, Response, Known, Generates;
    var sig := SignWith(g, hash, d, p, m, Some(nonce)).value;
    var k := if g.odd(Public(g, nonce)) then Neg(g.n, nonce) else nonce;
    var e := Challenge(hash, g.x(Public(g, nonce)), m);
    assert sig[..32] == g.x(Public(g, nonce)) && sig[32..] == BE(Response(g.n, k, e, d), 32);
    assert Response(g.n, k, e, d) < g.n by { ResponseIs(g.n, k, e, d); }
    ToNatReadsBE(Response(g.n, k, e, d), 32);
    RemainderIsUnique(-(nonce as int), -1, g.n - nonce, g.n);
  }

  /** Whatever the nonce, what is signed is an ordinary signature: the stock
      verifier accepts it under the signer's own key. */
  lemma SignaturesVerify<P(!new)>(g: Group<P>, hash: Bytes -> Hash32, d: nat, p: Position, m: Bytes, nonce: nat)
    requires IsGroup(g) && d < g.n && 0 < nonce < g.n && SignWith(g, hash, d, p, m, Some(nonce)).Some?
    ensures Verifies(g, hash, Public(g, d), m, SignWith(g, hash, d, p, m, Some(nonce)).value)
  {
    hide SignWith, Mul, Add, Neg, Challenge, Known;
    SignedWith(g, hash, d, p, m, nonce);
    var sig := SignWith(g, hash, d, p, m, Some(nonce)).value;
    var k := if g.odd(Public(g, nonce)) then Neg(g.n, nonce) else nonce;
    var e := Challenge(hash, sig[..32], m);
    var s := Response(g.n, k, e, d);
    MulBelow(g.n, e, d);
    ResponseIs(g.n, k, e, d);
    TakeAndGive(g.n, k, Mul(g.n, e, d));
    assert g.plus(g.times(s, g.base), g.times(e, Public(g, d))) == Public(g, k);
    assert Public(g, k) != g.zero;
  }

  lemma MulBelow(n: nat, a: nat, b: nat)
    requires n > 0
    ensures Mul(n, a, b) < n
  {
  }

  /** Equivocation gives the key away: two signatures by one key at one position,
      over messages with different challenges, recover exactly that key, whatever
      the parity of the nonce point; with equal challenges they recover nothing. */
  lemma EquivocationYieldsTheKey<P(!new)>(g: Group<P>, hash: Bytes -> Hash32, d: nat, p: Position, mA: Bytes, mB: Bytes)
    requires IsGroup(g) && d < g.n
    requires Sign(g, hash, d, p, mA).Some? && Sign(g, hash, d, p, mB).Some?
    ensures
      var sigA, sigB := Sign(g, hash, d, p, mA).value, Sign(g, hash, d, p, mB).value;
      Recover(g, hash, Public(g, d), mA, sigA, mB, sigB) ==
      if |sigA| >= 32 && |sigB| >= 32 && Challenge(hash, sigA[..32], mA) != Challenge(hash, sigB[..32], mB)
        then Some(d) else None
  {
    hide SignWith, Nonce, Challenge, Response, Committed;
    var nonce := Nonce(hash, g.n, d, p);
    assert nonce.Some? by { SignedNeedsNonce(g, hash, d, p, mA, nonce); }
    SignedWith(g, hash, d, p, mA, nonce.value);
    SignedWith(g, hash, d, p, mB, nonce.value);
    var sigA, sigB := Sign(g, hash, d, p, mA).value, Sign(g, hash, d, p, mB).value;
    var k := if g.odd(Public(g, nonce.value)) then Neg(g.n, nonce.value) else nonce.value;
    var eA, eB := Challenge(hash, sigA[..32], mA), Challenge(hash, sigB[..32], mB);
    ResponseIs(g.n, k, eA, d);
    ResponseIs(g.n, k, eB, d);
    if eA != eB {
      TwoResponsesSolve(g.n, k, d, eA, eB);
    }
  }

  lemma SignedNeedsNonce<P>(g: Group<P>, hash: Bytes -> Hash32, d: nat, p: Position, m: Bytes, nonce: Option<nat>)
    requires g.n > 0 && SignWith(g, hash, d, p, m, nonce).Some?
    ensures nonce.Some?
  {
  }

  /** Whatever is recovered is the secret of the key it was asked about. */
  lemma RecoveredIsTheSecret<P>(g: Group<P>, hash: Bytes -> Hash32, pub: P, mA: Bytes, sigA: Bytes, mB: Bytes,
      sigB: Bytes)
    requires g.n > 0 && Recover(g, hash, pub, mA, sigA, mB, sigB).Some?
    ensures
      var d := Recover(g, hash, pub, mA, sigA, mB, sigB).value;
      0 < d < g.n && Public(g, d) == pub
  {
    hide Challenge, ToNat, Inverse;
  }

  /** The secret of a branch exists whenever its key does, and is that key's
      discrete logarithm. */
  lemma BranchSecretOpensBranchKey<P(!new)>(g: Group<P>, hash: Bytes -> Hash32, br: Branch, l: nat, p: nat)
    requires IsGroup(g) && l < g.n && p < g.n
    ensures
      var key := ForfeitKey(g, hash, br, Public(g, l), Public(g, p));
      var secret := ForfeitPrivKey(g, hash, br, l, p);
      && (secret.Some? <==> key.Some?)
      && (key.Some? ==> 0 < secret.value < g.n && Public(g, secret.value) == key.value)
  {
    hide Coefficients, Pairable, Mul;
    var log, pun := Public(g, l), Public(g, p);
    match Coefficients(g, hash, br, log, pun)
    case None =>
    case Some((cl, cp)) =>
      MulBelow(g.n, cl, l);
      MulBelow(g.n, cp, p);
      var d := Add(g.n, Mul(g.n, cl, l), Mul(g.n, cp, p));
      assert Public(g, d) == g.plus(g.times(cl, log), g.times(cp, pun));
  }

  /** Equivocation opens the bond: from two conflicting position signatures the
      punished branch's spending key follows, and it is the secret of the very
      key the bond pays to. */
  lemma EquivocationOpensTheBond<P(!new)>(
    g: Group<P>, hash: Bytes -> Hash32, d: nat, pos: Position, mA: Bytes, mB: Bytes, br: Branch, punisher: nat)
    requires IsGroup(g) && d < g.n && punisher < g.n
    requires Sign(g, hash, d, pos, mA).Some? && Sign(g, hash, d, pos, mB).Some?
    requires
      var sigA, sigB := Sign(g, hash, d, pos, mA).value, Sign(g, hash, d, pos, mB).value;
      |sigA| >= 32 && |sigB| >= 32 && Challenge(hash, sigA[..32], mA) != Challenge(hash, sigB[..32], mB)
    requires ForfeitKey(g, hash, br, Public(g, d), Public(g, punisher)).Some?
    ensures
      var sigA, sigB := Sign(g, hash, d, pos, mA).value, Sign(g, hash, d, pos, mB).value;
      var found := Recover(g, hash, Public(g, d), mA, sigA, mB, sigB);
      && found.Some? && found.value < g.n
      && ForfeitPrivKey(g, hash, br, found.value, punisher).Some?
      && Public(g, ForfeitPrivKey(g, hash, br, found.value, punisher).value)
           == ForfeitKey(g, hash, br, Public(g, d), Public(g, punisher)).value
  {
    hide Sign, Recover, ForfeitKey, ForfeitPrivKey, Challenge;
    EquivocationYieldsTheKey(g, hash, d, pos, mA, mB);
    BranchSecretOpensBranchKey(g, hash, br, d, punisher);
  }

  // ---- No two signatures of an honest key share a nonce ----

  /** What a nonce is drawn from: a position, or a position and a message. */
  datatype Source = FromPosition(p: Position) | FromMessage(p: Position, m: Text)

  function TryBytes(d: nat, s: Source, i: nat): Bytes {
    match s
    case FromPosition(p) => NonceBytes(d, p, i)
    case FromMessage(p, m) => CommittedNonceBytes(d, p, m, i)
  }

  function NonceFrom(hash: Bytes -> Hash32, n: nat, d: nat, s: Source): Option<nat> {
    match s
    case FromPosition(p) => Nonce(hash, n, d, p)
    case FromMessage(p, m) => CommittedNonce(hash, n, d, p, m)
  }

  /** The bytes of a try determine the key, the position and the try. */
  lemma NonceBytesInjective(d: nat, p: Position, i: nat, e: nat, q: Position, j: nat)
    requires d < Pow256(32) && e < Pow256(32) && i < TRIES && j < TRIES
    requires NonceBytes(d, p, i) == NonceBytes(e, q, j)
    ensures d == e && p == q && i == j
  {
    hide BE, Prefixed, Pow256;
    PowersOf256();
    var tag := Ascii("dcrpoker/forfeit/nonce/v1");
    var x1, y1 := BE(p.number, 8) + BE(i, 4), BE(q.number, 8) + BE(j, 4);
    var x2, y2 := Prefixed(p.domain) + x1, Prefixed(q.domain) + y1;
    var x3, y3 := Prefixed(p.table) + x2, Prefixed(q.table) + y2;
    SplitEqual(tag, tag, Prefixed(BE(d, 32)) + x3, Prefixed(BE(e, 32)) + y3);
    PrefixedSplit(BE(d, 32), BE(e, 32), x3, y3);
    BEInjective(d, e, 32);
    PrefixedSplit(p.table, q.table, x2, y2);
    PrefixedSplit(p.domain, q.domain, x1, y1);
    NumberSplit(p.number, q.number, 8, BE(i, 4), BE(j, 4));
    BEInjective(i, j, 4);
  }

  /** With a message, they determine the message too. */
  lemma CommittedNonceBytesInjective(d: nat, p: Position, m: Text, i: nat, e: nat, q: Position, k: Text, j: nat)
    requires d < Pow256(32) && e < Pow256(32) && i < TRIES && j < TRIES
    requires CommittedNonceBytes(d, p, m, i) == CommittedNonceBytes(e, q, k, j)
    ensures d == e && p == q && m == k && i == j
  {
    hide BE, Prefixed, Pow256;
    PowersOf256();
    var tag := Ascii("dcrpoker/forfeit/nonce-committed/v1");
    var x0, y0 := Prefixed(m) + BE(i, 4), Prefixed(k) + BE(j, 4);
    var x1, y1 := BE(p.number, 8) + x0, BE(q.number, 8) + y0;
    var x2, y2 := Prefixed(p.domain) + x1, Prefixed(q.domain) + y1;
    var x3, y3 := Prefixed(p.table) + x2, Prefixed(q.table) + y2;
    SplitEqual(tag, tag, Prefixed(BE(d, 32)) + x3, Prefixed(BE(e, 32)) + y3);
    PrefixedSplit(BE(d, 32), BE(e, 32), x3, y3);
    BEInjective(d, e, 32);
    PrefixedSplit(p.table, q.table, x2, y2);
    PrefixedSplit(p.domain, q.domain, x1, y1);
    NumberSplit(p.number, q.number, 8, x0, y0);
    PrefixedSplit(m, k, BE(i, 4), BE(j, 4));
    BEInjective(i, j, 4);
  }

  /** No bytes make a nonce both with and without the message. */
  lemma NonceKindsAreApart(d: nat, p: Position, i: nat, e: nat, q: Position, m: Text, j: nat)
    ensures NonceBytes(d, p, i) != CommittedNonceBytes(e, q, m, j)
  {
    hide BE, Prefixed;
    assert NonceBytes(d, p, i)[22] == '/' as int;
    assert CommittedNonceBytes(e, q, m, j)[22] == '-' as int;
  }

  /** So what a nonce of one key is drawn from is told by any of its tries. */
  lemma TriesTellSources(d: nat, s: Source, i: nat, t: Source, j: nat)
    requires d < Pow256(32) && i < TRIES && j < TRIES && TryBytes(d, s, i) == TryBytes(d, t, j)
    ensures s == t
  {
    hide NonceBytes, CommittedNonceBytes, Pow256;
    match (s, t)
    case (FromPosition(p), FromPosition(q)) => NonceBytesInjective(d, p, i, d, q, j);
    case (FromMessage(p, m), FromMessage(q, k)) => CommittedNonceBytesInjective(d, p, m, i, d, q, k, j);
    case (FromPosition(p), FromMessage(q, k)) => NonceKindsAreApart(d, p, i, d, q, k, j);
    case (FromMessage(p, m), FromPosition(q)) => NonceKindsAreApart(d, q, j, d, p, m, i);
  }

  /** Every string a key's nonce may be drawn from. */
  function Tries(d: nat, s: Source): set<Bytes> { set i | 0 <= i < TRIES :: TryBytes(d, s, i) }

  lemma FirstScalarIsDrawn(hash: Bytes -> Hash32, n: nat, input: nat -> Bytes, i: nat)
    requires FirstScalar(hash, n, input, i).Some?
    ensures exists k: nat :: k < TRIES && FirstScalar(hash, n, input, i) == Some(ToNat(hash(input(k))))
    decreases TRIES - i
  {
    var k := ToNat(hash(input(i)));
    if !(0 < k < n) {
      FirstScalarIsDrawn(hash, n, input, i + 1);
    }
  }

  lemma NonceIsDrawn(hash: Bytes -> Hash32, n: nat, d: nat, s: Source) returns (i: nat)
    requires NonceFrom(hash, n, d, s).Some?
    ensures i < TRIES && TryBytes(d, s, i) in Tries(d, s)
    ensures NonceFrom(hash, n, d, s) == Some(ToNat(hash(TryBytes(d, s, i))))
  {
    hide NonceBytes, CommittedNonceBytes, ToNat, FirstScalar;
    match s
    case FromPosition(p) =>
      var input := (j: nat) => NonceBytes(d, p, j);
      FirstScalarIsDrawn(hash, n, input, 0);
      i :| i < TRIES && FirstScalar(hash, n, input, 0) == Some(ToNat(hash(input(i))));
    case FromMessage(p, m) =>
      var input := (j: nat) => CommittedNonceBytes(d, p, m, j);
      FirstScalarIsDrawn(hash, n, input, 0);
      i :| i < TRIES && FirstScalar(hash, n, input, 0) == Some(ToNat(hash(input(i))));
  }

  lemma {:induction false} ToNatInjective(a: Bytes, b: Bytes)
    requires |a| == |b| && ToNat(a) == ToNat(b)
    ensures a == b
    decreases |a|
  {
    if a != [] {
      var m := |a| - 1;
      ToNatInjective(a[..m], b[..m]);
      assert a == a[..m] + [a[m]] && b == b[..m] + [b[m]];
    }
  }

  /** No digest of these strings is another's negative. */
  ghost predicate NoOpposites(hash: Bytes -> Hash32, n: nat, strings: set<Bytes>) {
    forall x, y :: x in strings && y in strings ==> ToNat(hash(x)) + ToNat(hash(y)) != n
  }

  /** A point's x-coordinate tells it from every point but its negation. */
  ghost predicate Tells<P(!new)>(g: Group<P>) {
    forall a: nat, b: nat :: 0 < a < g.n && 0 < b < g.n && g.x(Public(g, a)) == g.x(Public(g, b)) ==>
      a == b || a + b == g.n
  }

  /** What keeps two nonces of one key apart: digests that neither collide nor come out
      as each other's negatives. */
  ghost predicate SourcesApart<P(!new)>(g: Group<P>, hash: Bytes -> Hash32, d: nat, s: Source, t: Source) {
    && Tells(g) && NoCollision(hash, Tries(d, s) + Tries(d, t))
    && NoOpposites(hash, g.n, Tries(d, s) + Tries(d, t))
  }

  /** One key's nonces from two sources differ, when its tries do not collide. */
  lemma SourcesHaveOwnNonces(hash: Bytes -> Hash32, n: nat, d: nat, s: Source, t: Source)
    requires s != t && d < Pow256(32) && NonceFrom(hash, n, d, s).Some? && NonceFrom(hash, n, d, t).Some?
    requires NoCollision(hash, Tries(d, s) + Tries(d, t))
    ensures NonceFrom(hash, n, d, s) != NonceFrom(hash, n, d, t)
  {
    hide NonceFrom, TryBytes, ToNat, Tries, Pow256;
    var i := NonceIsDrawn(hash, n, d, s);
    var j := NonceIsDrawn(hash, n, d, t);
    if NonceFrom(hash, n, d, s) == NonceFrom(hash, n, d, t) {
      ToNatInjective(hash(TryBytes(d, s, i)), hash(TryBytes(d, t, j)));
      TriesTellSources(d, s, i, t, j);
    }
  }

  lemma NoncesAreNotOpposite(hash: Bytes -> Hash32, n: nat, d: nat, s: Source, t: Source)
    requires NonceFrom(hash, n, d, s).Some? && NonceFrom(hash, n, d, t).Some?
    requires NoOpposites(hash, n, Tries(d, s) + Tries(d, t))
    ensures NonceFrom(hash, n, d, s).value + NonceFrom(hash, n, d, t).value != n
  {
    hide NonceFrom, TryBytes, ToNat, Tries;
    var i := NonceIsDrawn(hash, n, d, s);
    var j := NonceIsDrawn(hash, n, d, t);
  }

  lemma TellsApart<P(!new)>(g: Group<P>, a: nat, b: nat)
    requires Tells(g) && 0 < a < g.n && 0 < b < g.n && a != b && a + b != g.n
    ensures g.x(Public(g, a)) != g.x(Public(g, b))
  {
  }

  /** What an honest key signs: a message by its position, or one its position does not
      determine. */
  datatype Signing = ByPosition(p: Position, m: Bytes) | Committing(p: Position, text: Text)

  function MessageOf(x: Signing): Bytes {
    match x
    case ByPosition(_, m) => m
    case Committing(_, m) => m
  }

  function SourceOf(x: Signing): Source {
    match x
    case ByPosition(p, _) => FromPosition(p)
    case Committing(p, m) => FromMessage(p, m)
  }

  function Made<P>(g: Group<P>, hash: Bytes -> Hash32, d: nat, x: Signing): Option<Bytes>
    requires g.n > 0
  {
    match x
    case ByPosition(p, m) => Sign(g, hash, d, p, m)
    case Committing(p, m) => SignCommitted(g, hash, d, p, m)
  }

  lemma MadeWith<P>(g: Group<P>, hash: Bytes -> Hash32, d: nat, x: Signing)
    requires g.n > 0 && Made(g, hash, d, x).Some?
    ensures
      var nonce := NonceFrom(hash, g.n, d, SourceOf(x));
      nonce.Some? && 0 < nonce.value < g.n && Made(g, hash, d, x) == SignWith(g, hash, d, x.p, MessageOf(x), nonce)
  {
    hide Nonce, CommittedNonce, Committed;
    SignedNeedsNonce(g, hash, d, x.p, MessageOf(x), NonceFrom(hash, g.n, d, SourceOf(x)));
  }

  /** Two signatures of one key whose nonces come from different sources recover
      nothing: an entry and a head at one number, two messages committed to at one
      position, or one of each. */
  lemma SourcesKeepTheKey<P(!new)>(g: Group<P>, hash: Bytes -> Hash32, d: nat, x: Signing, y: Signing)
    requires IsGroup(g) && d < g.n && SourceOf(x) != SourceOf(y)
    requires Made(g, hash, d, x).Some? && Made(g, hash, d, y).Some?
    requires SourcesApart(g, hash, d, SourceOf(x), SourceOf(y))
    ensures
      Recover(g, hash, Public(g, d), MessageOf(x), Made(g, hash, d, x).value, MessageOf(y), Made(g, hash, d, y).value)
        == None
  {
    hide SignWith, NonceFrom, Challenge, Response, Made, Tries, ToNat, Tells, Inverse;
    var s, t := SourceOf(x), SourceOf(y);
    MadeWith(g, hash, d, x);
    MadeWith(g, hash, d, y);
    var a, b := NonceFrom(hash, g.n, d, s).value, NonceFrom(hash, g.n, d, t).value;
    SignedWith(g, hash, d, x.p, MessageOf(x), a);
    SignedWith(g, hash, d, y.p, MessageOf(y), b);
    SourcesHaveOwnNonces(hash, g.n, d, s, t);
    NoncesAreNotOpposite(hash, g.n, d, s, t);
    assert g.x(Public(g, a)) != g.x(Public(g, b)) by { TellsApart(g, a, b); }
  }

  /** An honest signer keeps its key: from its signatures at two different positions,
      an entry and a head at one number among them, nothing is recovered. */
  lemma PositionsKeepTheKey<P(!new)>(
      g: Group<P>, hash: Bytes -> Hash32, d: nat, p: Position, q: Position, mA: Bytes, mB: Bytes)
    requires IsGroup(g) && d < g.n && p != q && SourcesApart(g, hash, d, FromPosition(p), FromPosition(q))
    requires Sign(g, hash, d, p, mA).Some? && Sign(g, hash, d, q, mB).Some?
    ensures Recover(g, hash, Public(g, d), mA, Sign(g, hash, d, p, mA).value, mB, Sign(g, hash, d, q, mB).value) == None
  {
    hide Sign, Recover, IsGroup, SourcesApart;
    SourcesKeepTheKey(g, hash, d, ByPosition(p, mA), ByPosition(q, mB));
  }

  /** Committing to two messages, at one position or at two, is two signatures and no
      disclosure. */
  lemma CommittingKeepsTheKey<P(!new)>(
      g: Group<P>, hash: Bytes -> Hash32, d: nat, p: Position, q: Position, mA: Text, mB: Text)
    requires IsGroup(g) && d < g.n && mA != mB && SourcesApart(g, hash, d, FromMessage(p, mA), FromMessage(q, mB))
    requires SignCommitted(g, hash, d, p, mA).Some? && SignCommitted(g, hash, d, q, mB).Some?
    ensures
      var sigA, sigB := SignCommitted(g, hash, d, p, mA).value, SignCommitted(g, hash, d, q, mB).value;
      Recover(g, hash, Public(g, d), mA, sigA, mB, sigB) == None
  {
    hide SignCommitted, Recover, IsGroup, SourcesApart;
    SourcesKeepTheKey(g, hash, d, Committing(p, mA), Committing(q, mB));
  }

  /** One signature shown twice recovers nothing. */
  lemma OneSignatureKeepsTheKey<P>(g: Group<P>, hash: Bytes -> Hash32, pub: P, m: Bytes, sig: Bytes)
    requires g.n > 0
    ensures Recover(g, hash, pub, m, sig, m, sig) == None
  {
    hide Challenge, ToNat, Inverse;
  }

  /** The smallest group that meets every requirement: the three residues modulo
      three, so none of the above is about nothing. */
  function Three(): Group<int> {
    Group(3, 1, 0, (a: int, b: int) => (a + b) % 3, (k: nat, p: int) => (k * p) % 3,
          (p: int) => BE(if p == 0 then 0 else 1, 32), (p: int) => p == 2, (p: int) => 0 <= p < 3, (b: Bytes) => true)
  }

  lemma ThreeIsAGroup()
    ensures IsGroup(Three()) && Tells(Three())
  {
    hide Shows, Generates, Acts, Tells;
    ThreeActs();
    ThreeShows();
    ThreeTells();
    assert Generates(Three()) by { ThreeGenerates(); }
  }

  lemma ThreeTells()
    ensures Tells(Three())
  {
    hide BE;
    assert BE(0, 32) != BE(1, 32) by { ZeroIsNotOne(); }
  }

  lemma ZeroIsNotOne()
    ensures BE(0, 32) != BE(1, 32)
  {
    assert BE(0, 32)[31] == 0 && BE(1, 32)[31] == 1;
  }

  lemma ThreeActs()
    ensures Acts(Three())
  {
    hide BE, Pow256, Add, Mul;
    var g := Three();
    assert 3 <= Pow256(32) by {
      PowersOf256();
      PowerGrows(1, 32);
    }
    forall a: nat, b: nat, p | 0 <= p < 3 && a < 3 && b < 3
      ensures g.times(Add(3, a, b), p) == g.plus(g.times(a, p), g.times(b, p))
      ensures g.times(Mul(3, a, b), p) == g.times(a, g.times(b, p))
    {
      ThreeDistributes(a, b, p);
    }
  }

  lemma ThreeGenerates()
    ensures Generates(Three())
  {
    hide BE;
    var g := Three();
    forall p | g.onCurve(p) ensures exists a: nat :: a < 3 && g.times(a, 1) == p {
      assert g.times(p, 1) == p;
    }
  }

  lemma ThreeShows()
    ensures Shows(Three())
  {
    hide Neg;
    forall p ensures |Three().x(p)| == 32 {
      assert Three().x(p) == BE(if p == 0 then 0 else 1, 32);
    }
    var g := Three();
    forall k: nat | 0 < k < 3
      ensures g.x(g.times(Neg(3, k), 1)) == g.x(g.times(k, 1)) && g.odd(g.times(Neg(3, k), 1)) != g.odd(g.times(k, 1))
    {
      ThreeNegates(k);
    }
  }

  lemma ThreeNegates(k: nat)
    requires 0 < k < 3
    ensures Neg(3, k) * 1 % 3 == 3 - k && k * 1 % 3 == k
  {
  }

  lemma ThreeDistributes(a: nat, b: nat, p: int)
    requires a < 3 && b < 3 && 0 <= p < 3
    ensures Add(3, a, b) * p % 3 == (a * p % 3 + b * p % 3) % 3
    ensures Mul(3, a, b) * p % 3 == a * (b * p % 3) % 3
  {
    ReduceProduct(a + b, p, 3);
    ReduceSum(a * p, b * p % 3, 3);
    ReduceSum(b * p, a * p, 3);
    assert (a + b) * p == a * p + b * p;
    ReduceProduct(a * b, p, 3);
    ReduceProduct(b * p, a, 3);
    assert a * b * p == b * p * a;
  }

  lemma {:induction false} PowerGrows(a: nat, b: nat)
    requires a <= b
    ensures Pow256(a) <= Pow256(b)
    decreases b
  {
    if a < b {
      PowerGrows(a, b - 1);
      PowerPositive(b - 1);
    }
  }

  lemma PowerPositive(w: nat)
    ensures Pow256(w) > 0
  {
  }
}
