/** Why a branch key weighs its two halves: each by a weight of its own, so that a
    half announced to cancel the other cancels nothing. */
module Branches {
  import opened ByteStrings
  import opened Scalars
  import opened Forfeit

  // ---- Each half has a weight of its own ----

  /** The bytes of a try determine the half, the branch, both keys and the try. */
  lemma WeightBytesInjective(role: byte, br: Branch, l: Text, p: Text, i: nat, part: byte, other: Branch, k: Text,
      q: Text, j: nat)
    requires i < TRIES && j < TRIES && WeightBytes(role, br, l, p, i) == WeightBytes(part, other, k, q, j)
    ensures role == part && br == other && l == k && p == q && i == j
  {
    hide BE, Prefixed, Pow256;
    PowersOf256();
    var tag := Ascii("dcrpoker/forfeit/keyagg/v1");
    var x1, y1 := Prefixed(br.seat) + BE(i, 4), Prefixed(other.seat) + BE(j, 4);
    var x2, y2 := Prefixed(p) + x1, Prefixed(q) + y1;
    var x3, y3 := Prefixed(l) + x2, Prefixed(k) + y2;
    var x4, y4 := Prefixed(br.table) + x3, Prefixed(other.table) + y3;
    SplitEqual(tag, tag, [role] + x4, [part] + y4);
    SplitEqual([role], [part], x4, y4);
    PrefixedSplit(br.table, other.table, x3, y3);
    PrefixedSplit(l, k, x2, y2);
    PrefixedSplit(p, q, x1, y1);
    PrefixedSplit(br.seat, other.seat, BE(i, 4), BE(j, 4));
    BEInjective(i, j, 4);
  }

  /** Every string a weight may be drawn from. */
  function WeightTries(role: byte, br: Branch, l: Text, p: Text): set<Bytes> {
    set i | 0 <= i < TRIES :: WeightBytes(role, br, l, p, i)
  }

  lemma WeightIsDrawn<P>(g: Group<P>, hash: Bytes -> Hash32, role: byte, br: Branch, l: Text, p: Text)
    returns (i: nat)
    requires Coefficient(g, hash, role, br, l, p).Some?
    ensures i < TRIES && WeightBytes(role, br, l, p, i) in WeightTries(role, br, l, p)
    ensures Coefficient(g, hash, role, br, l, p) == Some(ToNat(hash(WeightBytes(role, br, l, p, i))))
  {
    hide WeightBytes, ToNat, FirstScalar;
    var input := (j: nat) => WeightBytes(role, br, l, p, j);
    FirstScalarIsDrawn(hash, g.n, input, 0);
    i :| i < TRIES && FirstScalar(hash, g.n, input, 0) == Some(ToNat(hash(input(i))));
  }

  /** Two halves, two branches, or two pairs of keys never share a weight: a branch
      cannot be lifted to another table or seat. */
  lemma WeightsAreOwn<P>(g: Group<P>, hash: Bytes -> Hash32, role: byte, br: Branch, l: Text, p: Text, part: byte,
      other: Branch, k: Text, q: Text)
    requires (role, br, l, p) != (part, other, k, q)
    requires Coefficient(g, hash, role, br, l, p).Some? && Coefficient(g, hash, part, other, k, q).Some?
    requires NoCollision(hash, WeightTries(role, br, l, p) + WeightTries(part, other, k, q))
    ensures Coefficient(g, hash, role, br, l, p) != Coefficient(g, hash, part, other, k, q)
  {
    hide Coefficient, WeightBytes, ToNat, WeightTries;
    var i := WeightIsDrawn(g, hash, role, br, l, p);
    var j := WeightIsDrawn(g, hash, part, other, k, q);
    if Coefficient(g, hash, role, br, l, p) == Coefficient(g, hash, part, other, k, q) {
      ToNatInjective(hash(WeightBytes(role, br, l, p, i)), hash(WeightBytes(part, other, k, q, j)));
      WeightBytesInjective(role, br, l, p, i, part, other, k, q, j);
    }
  }

  /** No two of the strings a branch's weights are drawn from have one digest. */
  ghost predicate WeightsApart<P>(g: Group<P>, hash: Bytes -> Hash32, br: Branch, log: P, punisher: P) {
    var l, p := Compressed(g, log), Compressed(g, punisher);
    |l| < 0x1_0000_0000 && |p| < 0x1_0000_0000 ==>
      NoCollision(hash, WeightTries(0, br, l, p) + WeightTries(1, br, l, p))
  }

  /** So the two halves of one branch key weigh differently. */
  lemma HalvesWeighDifferently<P>(g: Group<P>, hash: Bytes -> Hash32, br: Branch, log: P, punisher: P)
    requires WeightsApart(g, hash, br, log, punisher) && Coefficients(g, hash, br, log, punisher).Some?
    ensures
      var (cl, cp) := Coefficients(g, hash, br, log, punisher).value;
      cl != cp
  {
    hide Coefficient, WeightTries, Compressed;
    var l, p := Compressed(g, log), Compressed(g, punisher);
    WeightsAreOwn(g, hash, 0, br, l, p, 1, br, l, p);
  }

  // ---- A key made from the other half ----

  lemma ZeroProduct(n: nat, a: nat, b: nat)
    requires Prime(n) && a < n && b < n
    ensures Mul(n, a, b) == 0 <==> a == 0 || b == 0
  {
    hide Prime, Inverse;
    if a != 0 && Mul(n, a, b) == 0 {
      InverseCancels(n, a);
      Cancels(n, a, b, Inverse(n, a));
    }
  }

  lemma Swapped(a: int, b: int, c: int)
    ensures a * b * c == a * c * b
  {
    Rearrange(a, b, c);
  }

  lemma Cancels(n: nat, a: nat, b: nat, v: nat)
    requires n > 1 && b < n && a * v % n == 1 && a * b % n == 0
    ensures b == 0
  {
    var x, y := a * v, a * b;
    assert x * b == y * v by { Swapped(a, v, b); }
    ReduceProduct(x, b, n);
    ReduceProduct(y, v, n);
    assert 1 * b == b && 0 * v == 0;
    RemainderIsUnique(b, 0, b, n);
    RemainderIsUnique(0, 0, 0, n);
  }

  /** The part of a weighted sum that goes with l, where the other half is a + b l. */
  lemma PartsOf(n: nat, cl: nat, cp: nat, a: nat, b: nat, l: nat)
    requires n > 0
    ensures
      var w := Add(n, cl, Mul(n, cp, b));
      Add(n, Mul(n, cl, l), Mul(n, cp, Add(n, a, Mul(n, b, l)))) == Add(n, Mul(n, w, l), Mul(n, cp, a))
  {
    var w, q := Add(n, cl, Mul(n, cp, b)), Add(n, a, Mul(n, b, l));
    SumsReduce(n, cl * l, cp * q);
    SumsReduce(n, w * l, cp * a);
    ReduceSum(b * l, a, n);
    ReduceSum(cp * b, cl, n);
    InnerReduces(n, cl * l, cp, a + b * l);
    InnerReduces(n, cp * a, l, cl + cp * b);
    Expands(cl, cp, a, b, l);
  }

  lemma InnerReduces(n: nat, x: int, k: int, y: int)
    requires n > 0
    ensures (x + k * (y % n)) % n == (x + k * y) % n && (k * (y % n) + x) % n == (k * y + x) % n
    ensures (x + y % n * k) % n == (x + y * k) % n && (y % n * k + x) % n == (y * k + x) % n
  {
    Commutes(k, y);
    Commutes(k, y % n);
    ReduceProduct(y, k, n);
    ReduceSum(y % n * k, x, n);
    ReduceSum(y * k, x, n);
  }

  lemma Expands(cl: int, cp: int, a: int, b: int, l: int)
    ensures cl * l + cp * (a + b * l) == (cl + cp * b) * l + cp * a
  {
    Rearrange(cp, b, l);
    assert cp * (a + b * l) == cp * a + cp * (b * l);
    assert (cl + cp * b) * l == cl * l + cp * b * l;
  }

  lemma SumsReduce(n: nat, x: nat, y: nat)
    requires n > 0
    ensures Add(n, x % n, y % n) == (x + y) % n
  {
    ReduceSum(x, y % n, n);
    ReduceSum(y, x, n);
  }

  lemma SumIsPart(n: nat, x: nat, y: nat)
    requires n > 0 && x < n && y < n
    ensures Add(n, x, y) == y <==> x == 0
  {
    if x + y >= n {
      RemainderIsUnique(x + y, 1, x + y - n, n);
    } else {
      RemainderIsUnique(x + y, 0, x + y, n);
    }
  }

  /** A branch key is its two halves' secrets, weighed and added. */
  lemma BranchKeyIs<P(!new)>(g: Group<P>, hash: Bytes -> Hash32, br: Branch, l: nat, p: nat)
    requires IsGroup(g) && l < g.n && p < g.n && ForfeitKey(g, hash, br, Public(g, l), Public(g, p)).Some?
    ensures Coefficients(g, hash, br, Public(g, l), Public(g, p)).Some?
    ensures
      var (cl, cp) := Coefficients(g, hash, br, Public(g, l), Public(g, p)).value;
      ForfeitKey(g, hash, br, Public(g, l), Public(g, p)) ==
        Some(Public(g, Add(g.n, Mul(g.n, cl, l), Mul(g.n, cp, p))))
  {
    hide Coefficients, Pairable, Mul;
    var (cl, cp) := Coefficients(g, hash, br, Public(g, l), Public(g, p)).value;
    MulBelow(g.n, cl, l);
    MulBelow(g.n, cp, p);
  }

  /** The punisher's half announced as a G + b L, whatever it picks a and b to be: the
      branch key is the weighted part of a that it knows, with nothing of the log key
      in it, exactly when the weights meet b, or the log key is nothing. */
  lemma AnnouncedHalfIsExact<P(!new)>(g: Group<P>, hash: Bytes -> Hash32, br: Branch, l: nat, a: nat, b: nat)
    requires IsGroup(g) && l < g.n && a < g.n && b < g.n
    requires ForfeitKey(g, hash, br, Public(g, l), g.plus(Public(g, a), g.times(b, Public(g, l)))).Some?
    ensures Coefficients(g, hash, br, Public(g, l), g.plus(Public(g, a), g.times(b, Public(g, l)))).Some?
    ensures
      var pun := g.plus(Public(g, a), g.times(b, Public(g, l)));
      var (cl, cp) := Coefficients(g, hash, br, Public(g, l), pun).value;
      ForfeitKey(g, hash, br, Public(g, l), pun) == Some(Public(g, Mul(g.n, cp, a))) <==>
        Add(g.n, cl, Mul(g.n, cp, b)) == 0 || l == 0
  {
    hide ForfeitKey, Coefficients, Mul, Add, Shows, Prime;
    var p := Add(g.n, a, Mul(g.n, b, l));
    Below(g.n, a, b, l);
    assert Public(g, p) == g.plus(Public(g, a), g.times(b, Public(g, l)));
    BranchKeyIs(g, hash, br, l, p);
    var (cl, cp) := Coefficients(g, hash, br, Public(g, l), Public(g, p)).value;
    var w := Add(g.n, cl, Mul(g.n, cp, b));
    PartsOf(g.n, cl, cp, a, b, l);
    Below(g.n, cl, cp, b);
    Below(g.n, Mul(g.n, w, l), cp, a);
    MulBelow(g.n, w, l);
    SumIsPart(g.n, Mul(g.n, w, l), Mul(g.n, cp, a));
    ZeroProduct(g.n, w, l);
  }

  lemma Below(n: nat, a: nat, b: nat, c: nat)
    requires n > 0
    ensures Mul(n, b, c) < n && Add(n, a, Mul(n, b, c)) < n
  {
  }

  /** The log key announced as a G + b P, the other way round. */
  lemma AnnouncedLogKeyIsExact<P(!new)>(g: Group<P>, hash: Bytes -> Hash32, br: Branch, p: nat, a: nat, b: nat)
    requires IsGroup(g) && p < g.n && a < g.n && b < g.n
    requires ForfeitKey(g, hash, br, g.plus(Public(g, a), g.times(b, Public(g, p))), Public(g, p)).Some?
    ensures Coefficients(g, hash, br, g.plus(Public(g, a), g.times(b, Public(g, p))), Public(g, p)).Some?
    ensures
      var log := g.plus(Public(g, a), g.times(b, Public(g, p)));
      var (cl, cp) := Coefficients(g, hash, br, log, Public(g, p)).value;
      ForfeitKey(g, hash, br, log, Public(g, p)) == Some(Public(g, Mul(g.n, cl, a))) <==>
        Add(g.n, cp, Mul(g.n, cl, b)) == 0 || p == 0
  {
    hide ForfeitKey, Coefficients, Mul, Shows, Prime;
    var l := Add(g.n, a, Mul(g.n, b, p));
    Below(g.n, a, b, p);
    assert Public(g, l) == g.plus(Public(g, a), g.times(b, Public(g, p)));
    BranchKeyIs(g, hash, br, l, p);
    var (cl, cp) := Coefficients(g, hash, br, Public(g, l), Public(g, p)).value;
    var w := Add(g.n, cp, Mul(g.n, cl, b));
    PartsOf(g.n, cp, cl, a, b, p);
    Below(g.n, cp, cl, b);
    Below(g.n, Mul(g.n, w, p), cl, a);
    MulBelow(g.n, w, p);
    SumIsPart(g.n, Mul(g.n, w, p), Mul(g.n, cl, a));
    ZeroProduct(g.n, w, p);
  }

  /** Minus one meets two weights exactly when they are equal. */
  lemma CancelsOnlyEqual(n: nat, x: nat, y: nat)
    requires n > 1 && x < n && y < n
    ensures Add(n, x, Mul(n, y, Neg(n, 1))) == 0 <==> x == y
  {
    assert Neg(n, 1) == n - 1 by { RemainderIsUnique(-1, -1, n - 1, n); }
    assert y * (n - 1) == -(y as int) + y * n;
    Shift(-(y as int), y, n);
    ReduceSum(-(y as int), x, n);
    if x >= y {
      RemainderIsUnique(x - y, 0, x - y, n);
    } else {
      RemainderIsUnique(x - y, -1, x - y + n, n);
    }
  }

  lemma DifferenceIsSum(n: nat, k: nat, d: nat)
    requires n > 1 && k < n && d < n
    ensures Add(n, Add(n, k, d), Mul(n, Neg(n, 1), k)) == d
  {
    assert Neg(n, 1) == n - 1 by { RemainderIsUnique(-1, -1, n - 1, n); }
    assert (n - 1) * k == -(k as int) + k * n;
    Shift(-(k as int), k, n);
    ReduceSum(-(k as int), Add(n, k, d), n);
    ReduceSum(k + d, -(k as int), n);
    RemainderIsUnique(d, 0, d, n);
  }

  /** The other half, told by what the two make together. */
  lemma DifferencePoint<P(!new)>(g: Group<P>, k: nat, q: P, s: nat)
    requires IsGroup(g) && k < g.n && s < g.n && g.onCurve(q) && g.plus(Public(g, k), q) == Public(g, s)
    ensures q == g.plus(Public(g, s), g.times(Neg(g.n, 1), Public(g, k)))
  {
    hide Shows, Mul, Add, Neg;
    var d: nat :| d < g.n && g.times(d, g.base) == q;
    Below(g.n, k, 0, 0);
    SumBelow(g.n, k, d);
    assert Public(g, Add(g.n, k, d)) == g.plus(Public(g, k), Public(g, d));
    var one := NegBelow(g.n, 1);
    SumBelow(g.n, s, Mul(g.n, one, k));
    assert Public(g, Add(g.n, s, Mul(g.n, one, k))) == g.plus(Public(g, s), Public(g, Mul(g.n, one, k))) by {
      MulBelow(g.n, one, k);
    }
    assert Public(g, Mul(g.n, one, k)) == g.times(one, Public(g, k));
    DifferenceIsSum(g.n, k, d);
  }

  lemma SumBelow(n: nat, a: nat, b: nat)
    requires n > 0
    ensures Add(n, a, b) < n
  {
  }

  lemma NegBelow(n: nat, a: nat) returns (r: nat)
    requires n > 0
    ensures r == Neg(n, a) && r < n
  {
    r := Neg(n, a);
  }

  /** The rogue half: a punisher who announces whatever makes its key and the log key
      add up to a point of its own does not get a branch key of its own. */
  lemma RogueHalfGainsNothing<P(!new)>(g: Group<P>, hash: Bytes -> Hash32, br: Branch, l: nat, pun: P, s: nat)
    requires IsGroup(g) && 0 < l < g.n && s < g.n && g.onCurve(pun) && g.plus(Public(g, l), pun) == Public(g, s)
    requires ForfeitKey(g, hash, br, Public(g, l), pun).Some? && WeightsApart(g, hash, br, Public(g, l), pun)
    ensures Coefficients(g, hash, br, Public(g, l), pun).Some?
    ensures
      var (cl, cp) := Coefficients(g, hash, br, Public(g, l), pun).value;
      ForfeitKey(g, hash, br, Public(g, l), pun).value != Public(g, Mul(g.n, cp, s))
  {
    hide ForfeitKey, Coefficients, WeightsApart, Shows, Mul;
    DifferencePoint(g, l, pun, s);
    assert Neg(g.n, 1) < g.n;
    AnnouncedHalfIsExact(g, hash, br, l, s, Neg(g.n, 1));
    var (cl, cp) := Coefficients(g, hash, br, Public(g, l), pun).value;
    HalvesWeighDifferently(g, hash, br, Public(g, l), pun);
    CancelsOnlyEqual(g.n, cl, cp);
  }

  /** Nor does an owner who chooses its log key after seeing the punisher's. */
  lemma RogueLogKeyGainsNothing<P(!new)>(g: Group<P>, hash: Bytes -> Hash32, br: Branch, log: P, p: nat, s: nat)
    requires IsGroup(g) && 0 < p < g.n && s < g.n && g.onCurve(log) && g.plus(Public(g, p), log) == Public(g, s)
    requires ForfeitKey(g, hash, br, log, Public(g, p)).Some? && WeightsApart(g, hash, br, log, Public(g, p))
    ensures Coefficients(g, hash, br, log, Public(g, p)).Some?
    ensures
      var (cl, cp) := Coefficients(g, hash, br, log, Public(g, p)).value;
      ForfeitKey(g, hash, br, log, Public(g, p)).value != Public(g, Mul(g.n, cl, s))
  {
    hide ForfeitKey, Coefficients, WeightsApart, Shows, Mul;
    DifferencePoint(g, p, log, s);
    assert Neg(g.n, 1) < g.n;
    AnnouncedLogKeyIsExact(g, hash, br, p, s, Neg(g.n, 1));
    var (cl, cp) := Coefficients(g, hash, br, log, Public(g, p)).value;
    HalvesWeighDifferently(g, hash, br, log, Public(g, p));
    CancelsOnlyEqual(g.n, cp, cl);
  }

  /** A branch is of a table that is named, without space around it, and of a seat's
      readable compressed key, between two points of the curve. */
  lemma BranchIsNamed<P>(g: Group<P>, hash: Bytes -> Hash32, br: Branch, log: P, pun: P)
    requires ForfeitKey(g, hash, br, log, pun).Some?
    ensures br.table != [] && Trim(br.table) == br.table && |br.seat| == 33 && g.parses(br.seat)
    ensures g.onCurve(log) && g.onCurve(pun) && log != pun
    ensures ForfeitKey(g, hash, br, log, pun) != Some(g.zero)
  {
    hide Coefficients, Trim;
  }

  /** The log key itself, or its negation, as the punisher's half makes no branch: its
      owner would open it alone. */
  lemma OwnKeyMakesNoBranch<P(!new)>(g: Group<P>, hash: Bytes -> Hash32, br: Branch, l: nat)
    requires IsGroup(g) && 0 < l < g.n
    ensures ForfeitKey(g, hash, br, Public(g, l), Public(g, l)).None?
    ensures ForfeitKey(g, hash, br, Public(g, l), Public(g, Neg(g.n, l))).None?
  {
    hide Coefficients, Acts, Generates;
  }
}
