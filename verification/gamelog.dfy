/** The signed, hash-chained record of a match: what its head fixes, and what two
    entries at one place cost the seat that signed them. */
module GameLog {
  import opened ByteStrings
  import opened Forfeit

  const VERSION: u16 := 2
  const KEY_LEN: nat := 33
  const SIG_LEN: nat := 64
  const LAST_STREET: nat := 3

  datatype Entry = Entry(
    version: u16, prev: Hash32, number: u64, hand: u64, street: byte, seat: u32, signer: Bytes,
    action: Bytes, amount: i64, height: u32, sig: Bytes)

  /** The curve, the digest, and the reading of a compressed key. */
  datatype Suite<!P> = Suite(g: Group<P>, hash: Bytes -> Hash32, parse: Bytes -> Option<P>)

  // ---- Entries ----

  function Actions(): set<Bytes> {
    {Ascii("fold"), Ascii("check"), Ascii("call"), Ascii("bet"), Ascii("raise"), Ascii("allin")}
  }

  predicate Shaped(e: Entry) {
    && e.version == VERSION && e.street <= LAST_STREET && e.action in Actions() && |e.action| <= 16
    && |e.signer| == KEY_LEN && e.amount >= 0
    && (e.action in {Ascii("fold"), Ascii("check")} ==> e.amount == 0)
  }

  /** The bytes an entry's signature covers. */
  function SigningBytes(e: Entry): Bytes {
    Ascii("dcrpoker/gamelog/entry/v1") +
    (BE(e.version, 2) + (e.prev + (BE(e.number, 8) + (BE(e.hand, 8) + ([e.street] + (BE(e.seat, 4) +
    (e.signer + ([|e.action| % 256] + (e.action + (BE(Bits64(e.amount), 8) + BE(e.height, 4)))))))))))
  }

  function GenesisBytes(id: Bytes): Bytes { Ascii("dcrpoker/gamelog/match/v1") + id }

  function EntryHash(hash: Bytes -> Hash32, e: Entry): Hash32 { hash(SigningBytes(e)) }

  function Unsigned(e: Entry): Entry { e.(sig := []) }

  lemma Bits64Injective(a: i64, b: i64)
    requires Bits64(a) == Bits64(b)
    ensures a == b
  {
  }

  /** The bytes determine everything in an entry but its signature. */
  lemma SigningBytesInjective(a: Entry, b: Entry)
    requires Shaped(a) && Shaped(b) && SigningBytes(a) == SigningBytes(b)
    ensures Unsigned(a) == Unsigned(b)
  {
    hide Actions;
    PowersOf256();
    var tag := Ascii("dcrpoker/gamelog/entry/v1");
    var a1, b1 := BE(Bits64(a.amount), 8) + BE(a.height, 4), BE(Bits64(b.amount), 8) + BE(b.height, 4);
    var a2, b2 := a.action + a1, b.action + b1;
    var a3, b3 := [|a.action| % 256] + a2, [|b.action| % 256] + b2;
    var a4, b4 := a.signer + a3, b.signer + b3;
    var a5, b5 := BE(a.seat, 4) + a4, BE(b.seat, 4) + b4;
    var a6, b6 := [a.street] + a5, [b.street] + b5;
    var a7, b7 := BE(a.hand, 8) + a6, BE(b.hand, 8) + b6;
    var a8, b8 := BE(a.number, 8) + a7, BE(b.number, 8) + b7;
    var a9, b9 := a.prev + a8, b.prev + b8;
    SplitEqual(tag, tag, BE(a.version, 2) + a9, BE(b.version, 2) + b9);
    SplitEqual(BE(a.version, 2), BE(b.version, 2), a9, b9);
    SplitEqual(a.prev, b.prev, a8, b8);
    NumberSplit(a.number, b.number, 8, a7, b7);
    NumberSplit(a.hand, b.hand, 8, a6, b6);
    SplitEqual([a.street], [b.street], a5, b5);
    NumberSplit(a.seat, b.seat, 4, a4, b4);
    SplitEqual(a.signer, b.signer, a3, b3);
    SplitEqual([|a.action| % 256], [|b.action| % 256], a2, b2);
    SplitEqual(a.action, b.action, a1, b1);
    NumberSplit(Bits64(a.amount), Bits64(b.amount), 8, BE(a.height, 4), BE(b.height, 4));
    Bits64Injective(a.amount, b.amount);
    BEInjective(a.height, b.height, 4);
  }

  /** No entry's bytes are a match's first link, nor one match's another's. */
  lemma GenesisIsApart(e: Entry, a: Bytes, b: Bytes)
    ensures SigningBytes(e) != GenesisBytes(a)
    ensures GenesisBytes(a) == GenesisBytes(b) ==> a == b
  {
    assert SigningBytes(e)[17] == 'e' as int && GenesisBytes(a)[17] == 'm' as int;
    var tag := Ascii("dcrpoker/gamelog/match/v1");
    if GenesisBytes(a) == GenesisBytes(b) {
      SplitEqual(tag, tag, a, b);
    }
  }

  // ---- Chains ----

  datatype Chain = Chain(id: Bytes, roster: map<u32, Bytes>, entries: seq<Entry>, head: Hash32, number: u64)

  predicate RosterFits<P>(s: Suite<P>, roster: map<u32, Bytes>) {
    |roster| >= 2 && forall seat :: seat in roster ==> |roster[seat]| == KEY_LEN && s.parse(roster[seat]).Some?
  }

  function NewChain<P>(s: Suite<P>, id: Bytes, roster: map<u32, Bytes>): Option<Chain> {
    if id == [] || !RosterFits(s, roster) then None
    else Some(Chain(id, roster, [], s.hash(GenesisBytes(id)), 0))
  }

  predicate EntryVerifies<P(==)>(s: Suite<P>, e: Entry) {
    && Shaped(e) && |e.sig| == SIG_LEN && s.parse(e.signer).Some?
    && Verifies(s.g, s.hash, s.parse(e.signer).value, EntryHash(s.hash, e), e.sig)
  }

  /** Sequence numbers are 64 bits wide. */
  function Following(n: u64): u64 { (n + 1) % 0x1_0000_0000_0000_0000 }

  predicate Appends<P(==)>(s: Suite<P>, c: Chain, e: Entry) {
    && e.seat in c.roster && e.signer == c.roster[e.seat]
    && e.number == Following(c.number) && e.prev == c.head
    && (c.entries != [] ==> e.height >= c.entries[|c.entries| - 1].height)
    && EntryVerifies(s, e)
  }

  function Append<P(==)>(s: Suite<P>, c: Chain, e: Entry): Option<Chain> {
    if !Appends(s, c, e) then None
    else Some(c.(entries := c.entries + [e], head := EntryHash(s.hash, e), number := e.number))
  }

  /** A chain that appending one entry after another built. */
  ghost predicate Built<P(!new)>(s: Suite<P>, c: Chain)
    decreases |c.entries|
  {
    if c.entries == [] then NewChain(s, c.id, c.roster) == Some(c)
    else
      exists before: Chain ::
        && before.id == c.id && before.roster == c.roster
        && before.entries == c.entries[..|c.entries| - 1]
        && Built(s, before) && Append(s, before, c.entries[|c.entries| - 1]) == Some(c)
  }

  lemma AppendBuilds<P(!new)>(s: Suite<P>, c: Chain, e: Entry)
    requires Built(s, c) && Append(s, c, e).Some?
    ensures Built(s, Append(s, c, e).value)
  {
    var v := Append(s, c, e).value;
    assert v.entries[..|v.entries| - 1] == c.entries;
  }

  // ---- The head fixes the history ----

  /** The strings a chain's hashes were made of. */
  function Hashed(c: Chain): set<Bytes> {
    {GenesisBytes(c.id)} + set e | e in c.entries :: SigningBytes(e)
  }

  /** The same entries but for the bytes of their signatures. */
  predicate SameHistory(a: seq<Entry>, b: seq<Entry>) {
    |a| == |b| && forall i :: 0 <= i < |a| ==> Unsigned(a[i]) == Unsigned(b[i])
  }

  /** The chain before the last entry. */
  ghost function Before<P(!new)>(s: Suite<P>, c: Chain): (b: Chain)
    requires Built(s, c) && c.entries != []
    ensures b.id == c.id && b.roster == c.roster && b.entries == c.entries[..|c.entries| - 1]
    ensures Built(s, b) && Append(s, b, c.entries[|c.entries| - 1]) == Some(c)
  {
    var before: Chain :|
      && before.id == c.id && before.roster == c.roster
      && before.entries == c.entries[..|c.entries| - 1]
      && Built(s, before) && Append(s, before, c.entries[|c.entries| - 1]) == Some(c);
    before
  }

  /** Two chains with one head are the history of one match, entry by entry the
      same up to the bytes of signatures. */
  lemma {:induction false} HeadFixesHistory<P(!new)>(s: Suite<P>, a: Chain, b: Chain)
    requires Built(s, a) && Built(s, b) && a.head == b.head
    requires NoCollision(s.hash, Hashed(a) + Hashed(b))
    ensures a.id == b.id && SameHistory(a.entries, b.entries)
    decreases |a.entries| + |b.entries|
  {
    hide SigningBytes, GenesisBytes, Built, Append, Hashed, NoCollision, Shaped;
    if a.entries == [] && b.entries == [] {
      EmptyHead(s, a);
      EmptyHead(s, b);
      SameString(s.hash, Hashed(a) + Hashed(b), GenesisBytes(a.id), GenesisBytes(b.id));
      GenesisIsApart(SomeEntry(), a.id, b.id);
    } else if a.entries == [] {
      BeginningIsNoEntry(s, a, b);
    } else if b.entries == [] {
      BeginningIsNoEntry(s, b, a);
    } else {
      var x, y := a.entries[|a.entries| - 1], b.entries[|b.entries| - 1];
      LastIsHashed(s, a);
      LastIsHashed(s, b);
      SameString(s.hash, Hashed(a) + Hashed(b), SigningBytes(x), SigningBytes(y));
      SigningBytesInjective(x, y);
      var p, q := Before(s, a), Before(s, b);
      HashedShrinks(p, a);
      HashedShrinks(q, b);
      FewerStrings(s.hash, Hashed(p) + Hashed(q), Hashed(a) + Hashed(b));
      assert Unsigned(x).prev == Unsigned(y).prev;
      HeadFixesHistory(s, p, q);
      HistoryExtends(p.entries, q.entries, x, y);
      assert a.entries == p.entries + [x] && b.entries == q.entries + [y];
    }
  }

  lemma HistoryExtends(a: seq<Entry>, b: seq<Entry>, x: Entry, y: Entry)
    requires SameHistory(a, b) && Unsigned(x) == Unsigned(y)
    ensures SameHistory(a + [x], b + [y])
  {
  }

  lemma SameString(hash: Bytes -> Hash32, strings: set<Bytes>, x: Bytes, y: Bytes)
    requires NoCollision(hash, strings) && x in strings && y in strings && hash(x) == hash(y)
    ensures x == y
  {
  }

  lemma FewerStrings(hash: Bytes -> Hash32, fewer: set<Bytes>, strings: set<Bytes>)
    requires NoCollision(hash, strings) && fewer <= strings
    ensures NoCollision(hash, fewer)
  {
  }

  lemma HashedShrinks(p: Chain, c: Chain)
    requires p.id == c.id && c.entries != [] && p.entries == c.entries[..|c.entries| - 1]
    ensures Hashed(p) <= Hashed(c)
  {
    hide SigningBytes, GenesisBytes;
    assert forall e :: e in p.entries ==> e in c.entries;
  }

  lemma EmptyHead<P(!new)>(s: Suite<P>, c: Chain)
    requires Built(s, c) && c.entries == []
    ensures c.head == s.hash(GenesisBytes(c.id)) && GenesisBytes(c.id) in Hashed(c)
  {
    hide SigningBytes, GenesisBytes;
  }

  /** An empty chain's head is no entry's hash. */
  lemma BeginningIsNoEntry<P(!new)>(s: Suite<P>, a: Chain, b: Chain)
    requires Built(s, a) && Built(s, b) && a.entries == [] && b.entries != []
    requires NoCollision(s.hash, Hashed(a) + Hashed(b)) || NoCollision(s.hash, Hashed(b) + Hashed(a))
    ensures a.head != b.head
  {
    hide SigningBytes, GenesisBytes, Built, Append, Hashed, Shaped;
    EmptyHead(s, a);
    LastIsHashed(s, b);
    GenesisIsApart(b.entries[|b.entries| - 1], a.id, b.id);
  }

  function SomeEntry(): Entry { Entry(0, BE(0, 32), 0, 0, 0, 0, [], [], 0, 0, []) }

  lemma LastIsHashed<P(!new)>(s: Suite<P>, c: Chain)
    requires Built(s, c) && c.entries != []
    ensures
      var e := c.entries[|c.entries| - 1];
      c.head == s.hash(SigningBytes(e)) && SigningBytes(e) in Hashed(c) && Shaped(e) && e.prev == Before(s, c).head
  {
    hide SigningBytes, Shaped, Verifies;
    var b := Before(s, c);
    assert c.entries[|c.entries| - 1] in c.entries;
  }

  // ---- Equivocation ----

  predicate ProofVerifies<P(==)>(s: Suite<P>, a: Entry, b: Entry) {
    && a.seat == b.seat && a.signer == b.signer && a.number == b.number
    && Shaped(a) && Shaped(b) && EntryHash(s.hash, a) != EntryHash(s.hash, b)
    && EntryVerifies(s, a) && EntryVerifies(s, b)
  }

  function RecoverKey<P(==)>(s: Suite<P>, a: Entry, b: Entry): Option<nat>
    requires s.g.n > 0
  {
    if !ProofVerifies(s, a, b) then None
    else Recover(s.g, s.hash, s.parse(a.signer).value, EntryHash(s.hash, a), a.sig, EntryHash(s.hash, b), b.sig)
  }

  /** An entry as its seat signs it: under its position in the log. */
  predicate SignedBy<P(==)>(s: Suite<P>, id: Text, d: nat, e: Entry)
    requires s.g.n > 0
  {
    && Shaped(e) && s.parse(e.signer) == Some(Public(s.g, d))
    && Sign(s.g, s.hash, d, Position(id, Ascii("entry"), e.number), EntryHash(s.hash, e)) == Some(e.sig)
  }

  lemma SignedEntryVerifies<P(!new)>(s: Suite<P>, id: Text, d: nat, e: Entry)
    requires IsGroup(s.g) && d < s.g.n && SignedBy(s, id, d, e)
    ensures EntryVerifies(s, e)
  {
    hide Shaped, SigningBytes, Verifies, Nonce, SignWith, Committed;
    var p := Position(id, Ascii("entry"), e.number);
    var h := EntryHash(s.hash, e);
    var nonce := Nonce(s.hash, s.g.n, d, p);
    SignedNeedsNonce(s.g, s.hash, d, p, h, nonce);
    SignedWith(s.g, s.hash, d, p, h, nonce.value);
    SignaturesVerify(s.g, s.hash, d, p, h, nonce.value);
  }

  /** A seat that signs two different entries at one place has published its log
      key: the proof verifies on its own, and what it recovers is that key, unless
      the two challenges happen to coincide. */
  lemma TwoEntriesAtOnePlaceCostTheKey<P(!new)>(s: Suite<P>, id: Text, d: nat, a: Entry, b: Entry)
    requires IsGroup(s.g) && d < s.g.n && SignedBy(s, id, d, a) && SignedBy(s, id, d, b)
    requires a.seat == b.seat && a.signer == b.signer && a.number == b.number && Unsigned(a) != Unsigned(b)
    requires NoCollision(s.hash, {SigningBytes(a), SigningBytes(b)})
    ensures ProofVerifies(s, a, b)
    ensures |a.sig| >= 32 && |b.sig| >= 32
    ensures RecoverKey(s, a, b) ==
      if Challenge(s.hash, a.sig[..32], EntryHash(s.hash, a)) != Challenge(s.hash, b.sig[..32], EntryHash(s.hash, b))
      then Some(d) else None
  {
    hide Shaped, SigningBytes, Verifies, Sign, Recover, Challenge, IsGroup;
    SignedEntryVerifies(s, id, d, a);
    SignedEntryVerifies(s, id, d, b);
    assert EntryHash(s.hash, a) != EntryHash(s.hash, b) by {
      if SigningBytes(a) == SigningBytes(b) {
        SigningBytesInjective(a, b);
      }
    }
    EquivocationYieldsTheKey(s.g, s.hash, d, Position(id, Ascii("entry"), a.number), EntryHash(s.hash, a),
      EntryHash(s.hash, b));
  }
}
