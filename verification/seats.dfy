/** Seats drawn from a block: a shuffle in place, and that its draws are one to
    one with the seatings. */
module Seats {
  import opened ByteStrings
  import opened Sorting

  function Swap<T>(s: seq<T>, i: nat, j: nat): seq<T>
    requires i < |s| && j < |s|
  {
    s[i := s[j]][j := s[i]]
  }

  /** A number for every position, each within the positions not yet filled. */
  predicate Draws(d: seq<nat>, n: nat) { |d| == n && forall i :: 0 <= i < n ==> d[i] <= i }

  /** The shuffle from position i down to the first. */
  function Shuffle<T>(s: seq<T>, i: nat, d: seq<nat>): (r: seq<T>)
    requires i < |s| && Draws(d, |s|)
    ensures |r| == |s|
    decreases i
  {
    if i == 0 then s else Shuffle(Swap(s, i, d[i]), i - 1, d)
  }

  lemma SwapPermutes<T>(s: seq<T>, i: nat, j: nat)
    requires i < |s| && j < |s|
    ensures multiset(Swap(s, i, j)) == multiset(s)
    ensures Distinct(s) ==> Distinct(Swap(s, i, j))
  {
  }

  /** A shuffle moves members and neither adds nor drops one, and leaves the
      positions above where it starts alone. */
  lemma {:induction false} ShufflePermutes<T>(s: seq<T>, i: nat, d: seq<nat>)
    requires i < |s| && Draws(d, |s|)
    ensures multiset(Shuffle(s, i, d)) == multiset(s)
    ensures forall k :: i < k < |s| ==> Shuffle(s, i, d)[k] == s[k]
    ensures i > 0 ==> Shuffle(s, i, d)[i] == s[d[i]]
    decreases i
  {
    if i > 0 {
      SwapPermutes(s, i, d[i]);
      ShufflePermutes(Swap(s, i, d[i]), i - 1, d);
    }
  }

  // ---- One draw vector for each seating ----

  /** Different draws seat differently. */
  lemma {:induction false} DrawsAreTold<T>(s: seq<T>, i: nat, d: seq<nat>, e: seq<nat>)
    requires Distinct(s) && i < |s| && Draws(d, |s|) && Draws(e, |s|)
    requires Shuffle(s, i, d) == Shuffle(s, i, e)
    ensures forall k :: 0 < k <= i ==> d[k] == e[k]
    decreases i
  {
    if i > 0 {
      ShufflePermutes(s, i, d);
      ShufflePermutes(s, i, e);
      assert s[d[i]] == s[e[i]];
      assert d[i] == e[i];
      SwapPermutes(s, i, d[i]);
      DrawsAreTold(Swap(s, i, d[i]), i - 1, d, e);
    }
  }

  function IndexIn<T(==)>(s: seq<T>, x: T): (i: nat)
    requires x in s
    ensures i < |s| && s[i] == x
  {
    if s[0] == x then 0 else 1 + IndexIn(s[1..], x)
  }

  /** The draws from position i down that end in a given seating. */
  function DrawsFor<T(==)>(s: seq<T>, t: seq<T>, i: nat): (d: seq<nat>)
    requires i < |s| && |t| == |s|
    requires Matches(s, t, i)
    ensures |d| == i + 1 && forall k :: 0 <= k <= i ==> d[k] <= k
    decreases i
  {
    if i == 0 then [0]
    else
      StillHas(s, t, i);
      var j := IndexIn(s[..i + 1], t[i]);
      SwapMatches(s, t, i, j);
      DrawsFor(Swap(s, i, j), t, i - 1) + [j]
  }

  /** Two arrangements of the same members that agree above position i. */
  predicate Matches<T(==)>(s: seq<T>, t: seq<T>, i: nat) {
    |s| == |t| && multiset(s) == multiset(t) && forall k :: i < k < |s| ==> s[k] == t[k]
  }

  lemma StillHas<T>(s: seq<T>, t: seq<T>, i: nat)
    requires i < |s| && Matches(s, t, i)
    ensures t[i] in s[..i + 1]
  {
    assert s == s[..i + 1] + s[i + 1..] && t == t[..i + 1] + t[i + 1..];
    assert s[i + 1..] == t[i + 1..];
    assert multiset(s[..i + 1]) == multiset(s) - multiset(s[i + 1..]);
    assert multiset(t[..i + 1]) == multiset(t) - multiset(t[i + 1..]);
    assert t[..i + 1][i] in multiset(t[..i + 1]);
    assert t[i] in multiset(s[..i + 1]);
  }

  lemma SwapMatches<T>(s: seq<T>, t: seq<T>, i: nat, j: nat)
    requires 0 < i < |s| && j <= i && Matches(s, t, i) && s[j] == t[i]
    ensures Matches(Swap(s, i, j), t, i - 1)
  {
    SwapPermutes(s, i, j);
  }

  lemma {:induction false} DrawsReach<T>(s: seq<T>, t: seq<T>, i: nat, d: seq<nat>)
    requires i < |s| && Matches(s, t, i) && Draws(d, |s|)
    requires d[..i + 1] == DrawsFor(s, t, i)
    ensures Shuffle(s, i, d) == t
    decreases i
  {
    if i == 0 {
      StillHas(s, t, 0);
      assert s[..1] == [s[0]];
      assert s == t;
    } else {
      StillHas(s, t, i);
      var j := IndexIn(s[..i + 1], t[i]);
      SwapMatches(s, t, i, j);
      var rest := DrawsFor(Swap(s, i, j), t, i - 1);
      assert d[..i + 1] == rest + [j];
      assert d[i] == d[..i + 1][i] == j;
      assert d[..i] == d[..i + 1][..i] == rest;
      DrawsReach(Swap(s, i, j), t, i - 1, d);
    }
  }

  lemma MatchesAbove<T>(s: seq<T>, t: seq<T>)
    requires s != [] && multiset(s) == multiset(t) && |s| == |t|
    ensures Matches(s, t, |s| - 1)
  {
  }

  /** The draw is a bijection: for distinct members, every seating of them is
      reached by exactly one vector of draws, and every vector seats everyone. */
  lemma EverySeatingHasOneDraw<T>(s: seq<T>, t: seq<T>)
    requires s != [] && Distinct(s) && multiset(s) == multiset(t) && |s| == |t|
    ensures
      var d := DrawsFor(s, t, |s| - 1);
      && Draws(d, |s|) && Shuffle(s, |s| - 1, d) == t
      && forall e :: Draws(e, |s|) && Shuffle(s, |s| - 1, e) == t ==> e == d
  {
    hide Shuffle, DrawsFor, Distinct, Matches;
    var n := |s| - 1;
    assert Matches(s, t, n) by { MatchesAbove(s, t); }
    var d := DrawsFor(s, t, n);
    assert d[..n + 1] == d;
    DrawsReach(s, t, n, d);
    forall e | Draws(e, |s|) && Shuffle(s, n, e) == t ensures e == d {
      DrawsAreTold(s, n, e, d);
      assert e[0] == 0 && d[0] == 0;
    }
  }

  // ---- The drawing itself ----

  /** What one step of the drawing is made of: the roster, the block and the position. */
  function SeatBytes(roster: Hash32, beacon: Bytes, i: nat): Bytes {
    Ascii("gaming/table/seats/v1") + roster + BE(|beacon|, 4) + beacon + BE(i, 4)
  }

  /** One step's number. */
  function SeatDraw(hash: Bytes -> Hash32, roster: Hash32, beacon: Bytes, i: nat): nat {
    ToNat(hash(SeatBytes(roster, beacon, i))[..8])
  }

  function SeatDraws(hash: Bytes -> Hash32, roster: Hash32, beacon: Bytes, n: nat): (d: seq<nat>)
    ensures Draws(d, n)
  {
    seq(n, i requires 0 <= i < n => SeatDraw(hash, roster, beacon, i) % (i + 1))
  }

  /** The bytes of a step determine the roster, the block and the position. */
  lemma SeatBytesInjective(roster: Hash32, beacon: Text, i: u32, other: Hash32, block: Text, j: u32)
    requires SeatBytes(roster, beacon, i) == SeatBytes(other, block, j)
    ensures roster == other && beacon == block && i == j
  {
    hide BE;
    PowersOf256();
    var tag := Ascii("gaming/table/seats/v1");
    assert SeatBytes(roster, beacon, i) == tag + (roster + (Prefixed(beacon) + BE(i, 4)));
    assert SeatBytes(other, block, j) == tag + (other + (Prefixed(block) + BE(j, 4)));
    SplitEqual(tag, tag, roster + (Prefixed(beacon) + BE(i, 4)), other + (Prefixed(block) + BE(j, 4)));
    SplitEqual(roster, other, Prefixed(beacon) + BE(i, 4), Prefixed(block) + BE(j, 4));
    PrefixedSplit(beacon, block, BE(i, 4), BE(j, 4));
    BEInjective(i, j, 4);
  }

  /** A digest whose first eight bytes are this number. */
  function Showing(k: nat): Hash32 { BE(k, 8) + BE(0, 24) }

  lemma ShowsNumber(k: nat)
    requires k < 0x1_0000_0000
    ensures ToNat(Showing(k)[..8]) == k
  {
    hide BE;
    PowersOf256();
    assert Showing(k)[..8] == BE(k, 8);
    ToNatReadsBE(k, 8);
  }

  /** The step a string is, under one roster and one block, or the number of steps. */
  function StepOf(roster: Hash32, beacon: Bytes, n: nat, x: Bytes, i: nat): (r: nat)
    requires i <= n
    ensures i <= r <= n && (r < n ==> x == SeatBytes(roster, beacon, r))
    ensures forall j :: i <= j < r ==> x != SeatBytes(roster, beacon, j)
    decreases n - i
  {
    if i == n || x == SeatBytes(roster, beacon, i) then i else StepOf(roster, beacon, n, x, i + 1)
  }

  /** A hash that draws one vector from one block and another from another. */
  function Drawing(roster: Hash32, beacon: Bytes, d: seq<nat>, block: Bytes, e: seq<nat>): Bytes -> Hash32 {
    x =>
      var i, j := StepOf(roster, beacon, |d|, x, 0), StepOf(roster, block, |e|, x, 0);
      if i < |d| then Showing(d[i]) else if j < |e| then Showing(e[j]) else Showing(0)
  }

  lemma StepIsTold(roster: Hash32, beacon: Text, n: nat, block: Text, i: nat)
    requires i < 0x1_0000_0000 && n <= 0x1_0000_0000
    ensures StepOf(roster, beacon, n, SeatBytes(roster, block, i), 0) == if beacon == block && i < n then i else n
  {
    hide SeatBytes;
    var k := StepOf(roster, beacon, n, SeatBytes(roster, block, i), 0);
    if k < n {
      SeatBytesInjective(roster, block, i, roster, beacon, k);
    }
  }

  lemma DrawnAt(roster: Hash32, beacon: Text, d: seq<nat>, block: Text, e: seq<nat>, i: nat)
    requires beacon != block && Draws(d, |d|) && Draws(e, |e|) && |d| < 0x1_0000_0000 && |e| < 0x1_0000_0000
    ensures i < |d| ==> SeatDraw(Drawing(roster, beacon, d, block, e), roster, beacon, i) == d[i]
    ensures i < |e| ==> SeatDraw(Drawing(roster, beacon, d, block, e), roster, block, i) == e[i]
  {
    hide SeatBytes, Showing, ToNat, StepOf;
    if i < |d| {
      StepIsTold(roster, beacon, |d|, beacon, i);
      ShowsNumber(d[i]);
    }
    if i < |e| {
      StepIsTold(roster, beacon, |d|, block, i);
      StepIsTold(roster, block, |e|, block, i);
      ShowsNumber(e[i]);
    }
  }

  lemma DrawFits(k: nat, i: nat)
    requires k <= i
    ensures k % (i + 1) == k
  {
  }

  /** It is the block that decides: for two different blocks there is a hash that draws
      any two vectors whatever, the one from the one and the other from the other. */
  lemma BlocksDecideDraws(roster: Hash32, beacon: Text, d: seq<nat>, block: Text, e: seq<nat>)
    requires beacon != block && Draws(d, |d|) && Draws(e, |e|) && |d| < 0x1_0000_0000 && |e| < 0x1_0000_0000
    ensures
      var hash := Drawing(roster, beacon, d, block, e);
      SeatDraws(hash, roster, beacon, |d|) == d && SeatDraws(hash, roster, block, |e|) == e
  {
    hide SeatDraw, Drawing;
    forall i | 0 <= i < |d| ensures SeatDraws(Drawing(roster, beacon, d, block, e), roster, beacon, |d|)[i] == d[i] {
      DrawnAt(roster, beacon, d, block, e, i);
      DrawFits(d[i], i);
    }
    forall i | 0 <= i < |e| ensures SeatDraws(Drawing(roster, beacon, d, block, e), roster, block, |e|)[i] == e[i] {
      DrawnAt(roster, beacon, d, block, e, i);
      DrawFits(e[i], i);
    }
  }

  /** So two blocks may seat one membership in any two orders. */
  lemma BlocksDecideSeats(roster: Hash32, beacon: Text, block: Text, members: seq<Bytes>, first: seq<Bytes>,
      second: seq<Bytes>)
    requires beacon != block && 0 < |members| < 0x1_0000_0000 && Distinct(members)
    requires multiset(first) == multiset(members) == multiset(second) && |first| == |members| == |second|
    ensures
      var last := |members| - 1;
      var hash := Drawing(roster, beacon, DrawsFor(members, first, last), block, DrawsFor(members, second, last));
      && Shuffle(members, last, SeatDraws(hash, roster, beacon, |members|)) == first
      && Shuffle(members, last, SeatDraws(hash, roster, block, |members|)) == second
  {
    hide Drawing, SeatDraw, DrawsFor, Shuffle;
    var last := |members| - 1;
    EverySeatingHasOneDraw(members, first);
    EverySeatingHasOneDraw(members, second);
    BlocksDecideDraws(roster, beacon, DrawsFor(members, first, last), block, DrawsFor(members, second, last));
  }

  /** Seats a membership, shuffling a copy in place from the last position down. */
  method SeatOrder(hash: Bytes -> Hash32, roster: Hash32, beacon: Bytes, canonical: seq<Bytes>)
    returns (seats: Option<map<nat, Bytes>>)
    ensures seats.None? <==> canonical == [] || beacon == []
    ensures seats.Some? ==>
      var order := Shuffle(canonical, |canonical| - 1, SeatDraws(hash, roster, beacon, |canonical|));
      seats.value == map i | 0 <= i < |canonical| :: order[i]
  {
    hide SeatDraw;
    if canonical == [] || beacon == [] {
      return None;
    }
    var n := |canonical|;
    ghost var d := SeatDraws(hash, roster, beacon, n);
    var order := Copied(canonical);
    var i := n - 1;
    while i > 0
      invariant 0 <= i < n && order.Length == n
      invariant Shuffle(canonical, n - 1, d) == Shuffle(order[..], i, d)
    {
      var j := SeatDraw(hash, roster, beacon, i) % (i + 1);
      ghost var before := order[..];
      assert j == d[i];
      order[i], order[j] := order[j], order[i];
      assert order[..] == Swap(before, i, j);
      i := i - 1;
    }
    var drawn := Numbered(order[..]);
    seats := Some(drawn);
  }

  method Copied(s: seq<Bytes>) returns (a: array<Bytes>)
    ensures fresh(a) && a[..] == s
  {
    a := new Bytes[|s|](i requires 0 <= i < |s| => s[i]);
  }

  method Numbered(s: seq<Bytes>) returns (m: map<nat, Bytes>)
    ensures m == map i | 0 <= i < |s| :: s[i]
  {
    m := map[];
    for k := 0 to |s|
      invariant m == map i | 0 <= i < k :: s[i]
    {
      m := m[k := s[k]];
    }
  }
}
