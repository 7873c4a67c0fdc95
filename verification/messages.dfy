/** What the peers of a forming table sign: the terms they read, their claim to
    a seat, what they hold, and the roster they bind themselves to. */
module Messages {
  import opened ByteStrings
  import opened Finance
  import opened Escrow
  import opened Sorting
  import Seats

  const SIG_LEN: nat := 64

  /** The primitives: points on the curve, the digest, and Schnorr signatures
      under the secret behind a public key. */
  datatype Crypto = Crypto(
    curve: Curve, hash: Bytes -> Hash32, schnorr: (Bytes, Hash32, Bytes) -> bool, sign: (Bytes, Hash32) -> Bytes)

  /** What is signed with a key verifies for that key. */
  ghost predicate SignsTruly(c: Crypto) {
    forall k, d :: c.curve(k) ==> |c.sign(k, d)| == SIG_LEN && c.schnorr(k, d, c.sign(k, d))
  }

  datatype TableTerms = TableTerms(
    game: Text, gameVer: i64, sid: Text, buyIn: u64, seats: u32, csvBlocks: u32, until: u32,
    bondAtoms: u64, bondLockBlocks: u32, accuseFee: u64, forfeitBond: u64)

  datatype Bond = Bond(outpoint: Text, script: Text, pop: Bytes)
  datatype Join = Join(key: Bytes, logKey: Bytes, bond: Bond, sig: Bytes)
  datatype Assertion = Assertion(roster: Hash32, signer: Bytes, sig: Bytes)
  datatype Commit = Commit(roster: Hash32, signer: Bytes, sig: Bytes)

  /** The keys a player sits down with, each named by its public half. */
  datatype Credentials = Credentials(session: Bytes, log: Bytes, bond: Bytes, outpoint: Text, script: Text)

  // ---- Terms ----

  predicate ValidTerms(t: TableTerms) {
    && !Blank(t.game) && !Blank(t.sid)
    && 2 <= t.seats <= MAX_MEMBERS
    && 0 < t.csvBlocks <= MAX_LOCK_BLOCKS
    && 0 < t.until
    && 0 < t.bondAtoms <= MAX_ATOMS
    && 0 < t.bondLockBlocks <= MAX_LOCK_BLOCKS
  }

  predicate Bonded(t: TableTerms) {
    t.bondAtoms != 0 || t.bondLockBlocks != 0 || t.accuseFee != 0 || t.forfeitBond != 0
  }

  function BondBytes(t: TableTerms): Bytes {
    if !Bonded(t) then []
    else Ascii("gaming/table/bond-terms/v1") +
         (BE(t.bondAtoms, 8) + (BE(t.bondLockBlocks, 4) + (BE(t.accuseFee, 8) + BE(t.forfeitBond, 8))))
  }

  function TermsBytes(t: TableTerms): Bytes {
    Ascii("gaming/table/terms/v1") +
    (Prefixed(t.game) + (BE(Bits64(t.gameVer), 8) + (Prefixed(t.sid) + (BE(t.buyIn, 8) +
    (BE(t.seats, 4) + (BE(t.csvBlocks, 4) + (BE(t.until, 4) + BondBytes(t))))))))
  }

  function TermsHash(c: Crypto, t: TableTerms): Hash32 { c.hash(TermsBytes(t)) }

  lemma BondBytesInjective(t: TableTerms, u: TableTerms)
    requires Bonded(t) && Bonded(u) && BondBytes(t) == BondBytes(u)
    ensures t.bondAtoms == u.bondAtoms && t.bondLockBlocks == u.bondLockBlocks
    ensures t.accuseFee == u.accuseFee && t.forfeitBond == u.forfeitBond
  {
    PowersOf256();
    var t1, u1 := BE(t.accuseFee, 8) + BE(t.forfeitBond, 8), BE(u.accuseFee, 8) + BE(u.forfeitBond, 8);
    var t2, u2 := BE(t.bondLockBlocks, 4) + t1, BE(u.bondLockBlocks, 4) + u1;
    var t3, u3 := BE(t.bondAtoms, 8) + t2, BE(u.bondAtoms, 8) + u2;
    var tag := Ascii("gaming/table/bond-terms/v1");
    SplitEqual(tag, tag, t3, u3);
    NumberSplit(t.bondAtoms, u.bondAtoms, 8, t2, u2);
    NumberSplit(t.bondLockBlocks, u.bondLockBlocks, 4, t1, u1);
    NumberSplit(t.accuseFee, u.accuseFee, 8, BE(t.forfeitBond, 8), BE(u.forfeitBond, 8));
    BEInjective(t.forfeitBond, u.forfeitBond, 8);
  }

  /** The bytes the terms hash covers determine the terms. */
  lemma TermsBytesInjective(t: TableTerms, u: TableTerms)
    requires ValidTerms(t) && ValidTerms(u) && TermsBytes(t) == TermsBytes(u)
    ensures t == u
  {
    PowersOf256();
    var t1, u1 := BE(t.until, 4) + BondBytes(t), BE(u.until, 4) + BondBytes(u);
    var t2, u2 := BE(t.csvBlocks, 4) + t1, BE(u.csvBlocks, 4) + u1;
    var t3, u3 := BE(t.seats, 4) + t2, BE(u.seats, 4) + u2;
    var t4, u4 := BE(t.buyIn, 8) + t3, BE(u.buyIn, 8) + u3;
    var t5, u5 := Prefixed(t.sid) + t4, Prefixed(u.sid) + u4;
    var t6, u6 := BE(Bits64(t.gameVer), 8) + t5, BE(Bits64(u.gameVer), 8) + u5;
    var t7, u7 := Prefixed(t.game) + t6, Prefixed(u.game) + u6;
    var tag := Ascii("gaming/table/terms/v1");
    SplitEqual(tag, tag, t7, u7);
    PrefixedSplit(t.game, u.game, t6, u6);
    NumberSplit(Bits64(t.gameVer), Bits64(u.gameVer), 8, t5, u5);
    PrefixedSplit(t.sid, u.sid, t4, u4);
    NumberSplit(t.buyIn, u.buyIn, 8, t3, u3);
    NumberSplit(t.seats, u.seats, 4, t2, u2);
    NumberSplit(t.csvBlocks, u.csvBlocks, 4, t1, u1);
    NumberSplit(t.until, u.until, 4, BondBytes(t), BondBytes(u));
    BondBytesInjective(t, u);
  }

  // ---- Rosters ----

  function Concat(keys: seq<Bytes>): Bytes {
    if keys == [] then [] else keys[0] + Concat(keys[1..])
  }

  function RosterBytes(th: Hash32, members: seq<Bytes>): Bytes {
    Ascii("gaming/table/roster/v1") + (th + (BE(|members|, 4) + Concat(members)))
  }

  function RosterHash(c: Crypto, t: TableTerms, members: seq<Bytes>): Hash32 {
    c.hash(RosterBytes(TermsHash(c, t), members))
  }

  lemma {:induction false} ConcatInjective(a: seq<Bytes>, b: seq<Bytes>)
    requires AllKeys(a) && AllKeys(b) && |a| == |b| && Concat(a) == Concat(b)
    ensures a == b
  {
    if a != [] {
      SplitEqual(a[0], b[0], Concat(a[1..]), Concat(b[1..]));
      ConcatInjective(a[1..], b[1..]);
      assert a == [a[0]] + a[1..] && b == [b[0]] + b[1..];
    }
  }

  /** The bytes a roster hash covers determine the terms' hash and the members. */
  lemma RosterBytesInjective(th: Hash32, uh: Hash32, a: seq<Bytes>, b: seq<Bytes>)
    requires AllKeys(a) && AllKeys(b) && |a| <= MAX_MEMBERS && |b| <= MAX_MEMBERS
    requires RosterBytes(th, a) == RosterBytes(uh, b)
    ensures th == uh && a == b
  {
    PowersOf256();
    var tag := Ascii("gaming/table/roster/v1");
    var x, y := BE(|a|, 4) + Concat(a), BE(|b|, 4) + Concat(b);
    SplitEqual(tag, tag, th + x, uh + y);
    SplitEqual(th, uh, x, y);
    NumberSplit(|a|, |b|, 4, Concat(a), Concat(b));
    ConcatInjective(a, b);
  }

  // ---- Signed messages ----

  function JoinBytes(th: Hash32, j: Join): Bytes {
    Ascii("gaming/table/join/v1") +
    (th + (j.key + (j.logKey + (Prefixed(j.bond.outpoint) + Prefixed(j.bond.script)))))
  }

  function AssertionBytes(th: Hash32, roster: Hash32): Bytes {
    Ascii("gaming/table/assert/v1") + (th + roster)
  }

  function CommitBytes(th: Hash32, roster: Hash32): Bytes {
    Ascii("gaming/table/commit/v1") + (th + roster)
  }

  lemma CommitBytesInjective(th: Hash32, uh: Hash32, a: Hash32, b: Hash32)
    requires CommitBytes(th, a) == CommitBytes(uh, b)
    ensures th == uh && a == b
  {
    var tag := Ascii("gaming/table/commit/v1");
    SplitEqual(tag, tag, th + a, uh + b);
    SplitEqual(th, uh, a, b);
  }

  // ---- Announcements ----

  function AnnouncementBytes(tag: string, th: Hash32, seat: u32, what: Text): Bytes {
    Ascii(tag) + (th + (BE(seat, 4) + Prefixed(what)))
  }

  /** Where a seat's stake is, where its bond is, and where it is to be paid. */
  function FundedBytes(th: Hash32, seat: u32, outpoint: Text): Bytes {
    AnnouncementBytes("gaming/table/funded/v1", th, seat, outpoint)
  }

  function BondedBytes(th: Hash32, seat: u32, outpoint: Text): Bytes {
    AnnouncementBytes("gaming/table/bonded/v1", th, seat, outpoint)
  }

  function PayoutBytes(th: Hash32, seat: u32, address: Text): Bytes {
    AnnouncementBytes("gaming/table/payout/v1", th, seat, address)
  }

  /** An announcement's bytes determine the table, the seat and what is announced. */
  lemma AnnouncementBytesInjective(tag: string, th: Hash32, uh: Hash32, s: u32, r: u32, what: Text, other: Text)
    requires AnnouncementBytes(tag, th, s, what) == AnnouncementBytes(tag, uh, r, other)
    ensures th == uh && s == r && what == other
  {
    PowersOf256();
    var x, y := BE(s, 4) + Prefixed(what), BE(r, 4) + Prefixed(other);
    SplitEqual(Ascii(tag), Ascii(tag), th + x, uh + y);
    SplitEqual(th, uh, x, y);
    NumberSplit(s, r, 4, Prefixed(what), Prefixed(other));
    assert Prefixed(what) + [] == Prefixed(what) && Prefixed(other) + [] == Prefixed(other);
    PrefixedSplit(what, other, [], []);
  }

  // ---- Every kind of thing digested ----

  datatype Digested =
    | OfTerms(t: TableTerms)
    | OfRoster(th: Hash32, members: seq<Bytes>)
    | OfClaims(th: Hash32, j: Join)
    | OfAsserts(th: Hash32, roster: Hash32)
    | OfCommits(th: Hash32, roster: Hash32)
    | OfFunds(th: Hash32, seat: u32, what: Text)
    | OfBonds(th: Hash32, seat: u32, what: Text)
    | OfPays(th: Hash32, seat: u32, what: Text)
    | OfDraws(roster: Hash32, beacon: Bytes, i: nat)

  function BytesOf(d: Digested): Bytes {
    match d
    case OfTerms(t) => TermsBytes(t)
    case OfRoster(th, members) => RosterBytes(th, members)
    case OfClaims(th, j) => JoinBytes(th, j)
    case OfAsserts(th, roster) => AssertionBytes(th, roster)
    case OfCommits(th, roster) => CommitBytes(th, roster)
    case OfFunds(th, seat, what) => FundedBytes(th, seat, what)
    case OfBonds(th, seat, what) => BondedBytes(th, seat, what)
    case OfPays(th, seat, what) => PayoutBytes(th, seat, what)
    case OfDraws(roster, beacon, i) => Seats.SeatBytes(roster, beacon, i)
  }

  predicate SameKind(d: Digested, e: Digested) {
    match d
    case OfTerms(_) => e.OfTerms?
    case OfRoster(_, _) => e.OfRoster?
    case OfClaims(_, _) => e.OfClaims?
    case OfAsserts(_, _) => e.OfAsserts?
    case OfCommits(_, _) => e.OfCommits?
    case OfFunds(_, _, _) => e.OfFunds?
    case OfBonds(_, _, _) => e.OfBonds?
    case OfPays(_, _, _) => e.OfPays?
    case OfDraws(_, _, _) => e.OfDraws?
  }

  function Letter(d: Digested): char {
    match d
    case OfTerms(_) => 't'
    case OfRoster(_, _) => 'r'
    case OfClaims(_, _) => 'j'
    case OfAsserts(_, _) => 'a'
    case OfCommits(_, _) => 'c'
    case OfFunds(_, _, _) => 'f'
    case OfBonds(_, _, _) => 'b'
    case OfPays(_, _, _) => 'p'
    case OfDraws(_, _, _) => 's'
  }

  /** The letter after "gaming/table/" tells the kind. */
  lemma LetterOf(d: Digested)
    ensures |BytesOf(d)| > 13 && BytesOf(d)[13] == Letter(d) as int
  {
    hide Prefixed, BE, Concat, BondBytes;
  }

  /** The tags keep the kinds apart: no bytes are of two kinds, so no signature made
      for one purpose can be read as made for another. */
  lemma KindsAreSeparate(d: Digested, e: Digested)
    requires BytesOf(d) == BytesOf(e)
    ensures SameKind(d, e)
  {
    hide BytesOf;
    LetterOf(d);
    LetterOf(e);
  }

  predicate VerifySig(c: Crypto, key: Bytes, sig: Bytes, digest: Hash32) {
    |sig| == SIG_LEN && c.curve(key) && c.schnorr(key, digest, sig)
  }

  /** What a proof of possession signs: the deposit and who is claiming it. */
  function PopBytes(outpoint: Text, holder: Text): Bytes {
    Ascii("dcrpoker/bond/pop/v1") + (Prefixed(Trim(outpoint)) + Prefixed(holder))
  }

  predicate VerifyBondPoP(c: Crypto, bond: Bond, holder: Text) {
    && !Blank(bond.outpoint) && holder != []
    && var owner := ParseBond(c.curve, bond.script);
       owner.Some? && VerifySig(c, owner.value.owner, bond.pop, c.hash(PopBytes(bond.outpoint, holder)))
  }

  /** A join stands when the session key signed this seat claim at these terms,
      the log key is another key, and the bond is one the player controls. */
  predicate JoinVerifies(c: Crypto, t: TableTerms, j: Join) {
    && |j.key| == KEY_LEN && |j.logKey| == KEY_LEN
    && VerifySig(c, j.key, j.sig, c.hash(JoinBytes(TermsHash(c, t), j)))
    && j.key != j.logKey && c.curve(j.logKey)
    && ParseBond(c.curve, j.bond.script).Some?
    && ParseBond(c.curve, j.bond.script).value.lockBlocks == t.bondLockBlocks
    && VerifyBondPoP(c, j.bond, j.key)
  }

  predicate AssertionVerifies(c: Crypto, t: TableTerms, a: Assertion) {
    |a.signer| == KEY_LEN && VerifySig(c, a.signer, a.sig, c.hash(AssertionBytes(TermsHash(c, t), a.roster)))
  }

  function CommitDigest(c: Crypto, t: TableTerms, roster: Hash32): Hash32 {
    c.hash(CommitBytes(TermsHash(c, t), roster))
  }

  predicate CommitVerifies(c: Crypto, t: TableTerms, m: Commit) {
    |m.signer| == KEY_LEN && VerifySig(c, m.signer, m.sig, CommitDigest(c, t, m.roster))
  }

  function SignCommit(c: Crypto, t: TableTerms, roster: Hash32, key: Bytes): Commit {
    Commit(roster, key, c.sign(key, CommitDigest(c, t, roster)))
  }

  function SignAssertion(c: Crypto, t: TableTerms, roster: Hash32, key: Bytes): Assertion {
    Assertion(roster, key, c.sign(key, c.hash(AssertionBytes(TermsHash(c, t), roster))))
  }

  predicate ValidCredentials(k: Credentials) {
    k.log != k.session && !Blank(k.outpoint) && k.script != []
  }

  /** The claim to a seat that credentials make at some terms. */
  function SignJoin(c: Crypto, t: TableTerms, k: Credentials): Join
    requires |k.session| == KEY_LEN
  {
    var pop := c.sign(k.bond, c.hash(PopBytes(k.outpoint, k.session)));
    var unsigned := Join(k.session, k.log, Bond(k.outpoint, k.script, pop), []);
    unsigned.(sig := c.sign(k.session, c.hash(JoinBytes(TermsHash(c, t), unsigned))))
  }
}
