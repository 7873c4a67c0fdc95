/** What a join proves of whoever made it, and that no part of it can be lifted into
    another table, another seat or another deposit. */
module Joins {
  import opened ByteStrings
  import opened Finance
  import opened Escrow
  import opened Messages
  import opened Formation
  import opened Agreement
  import Sorting
  import Witness
  import Script

  /** The bytes a join signs determine the table, both keys and the deposit cited. */
  lemma JoinBytesInjective(th: Hash32, j: Join, uh: Hash32, k: Join)
    requires |j.key| == |k.key| == KEY_LEN && |j.logKey| == |k.logKey| == KEY_LEN
    requires JoinBytes(th, j) == JoinBytes(uh, k)
    ensures th == uh && j.key == k.key && j.logKey == k.logKey
    ensures j.bond.outpoint == k.bond.outpoint && j.bond.script == k.bond.script
  {
    hide Prefixed;
    var tag := Ascii("gaming/table/join/v1");
    var j1 := Prefixed(j.bond.outpoint) + Prefixed(j.bond.script);
    var k1 := Prefixed(k.bond.outpoint) + Prefixed(k.bond.script);
    var j2, k2 := j.logKey + j1, k.logKey + k1;
    var j3, k3 := j.key + j2, k.key + k2;
    SplitEqual(tag, tag, th + j3, uh + k3);
    SplitEqual(th, uh, j3, k3);
    SplitEqual(j.key, k.key, j2, k2);
    SplitEqual(j.logKey, k.logKey, j1, k1);
    PrefixedSplit(j.bond.outpoint, k.bond.outpoint, Prefixed(j.bond.script), Prefixed(k.bond.script));
    assert Prefixed(j.bond.script) + [] == Prefixed(k.bond.script) + [];
    PrefixedSplit(j.bond.script, k.bond.script, [], []);
  }

  /** Those a proof of possession signs determine the deposit and who claims it. */
  lemma PopBytesInjective(outpoint: Text, holder: Text, other: Text, claimant: Text)
    requires PopBytes(outpoint, holder) == PopBytes(other, claimant)
    ensures Trim(outpoint) == Trim(other) && holder == claimant
  {
    hide Prefixed, Trim;
    var tag := Ascii("dcrpoker/bond/pop/v1");
    SplitEqual(tag, tag, Prefixed(Trim(outpoint)) + Prefixed(holder), Prefixed(Trim(other)) + Prefixed(claimant));
    PrefixedSplit(Trim(outpoint), Trim(other), Prefixed(holder), Prefixed(claimant));
    assert Prefixed(holder) + [] == Prefixed(claimant) + [];
    PrefixedSplit(holder, claimant, [], []);
  }

  lemma AssertionBytesInjective(th: Hash32, roster: Hash32, uh: Hash32, other: Hash32)
    requires AssertionBytes(th, roster) == AssertionBytes(uh, other)
    ensures th == uh && roster == other
  {
    var tag := Ascii("gaming/table/assert/v1");
    SplitEqual(tag, tag, th + roster, uh + other);
    SplitEqual(th, uh, roster, other);
  }

  /** Signed by the session key, over this very claim at these very terms. */
  predicate ClaimSigned(c: Crypto, t: TableTerms, j: Join) {
    |j.sig| == 64 && c.schnorr(j.key, c.hash(JoinBytes(TermsHash(c, t), j)), j.sig)
  }

  /** A deposit behind the lock the table agreed, refundable to some key, whose owner
      signed that this session key may cite it. */
  predicate BondShown(c: Crypto, t: TableTerms, j: Join, owner: Bytes, recovery: Bytes) {
    && |j.key| == 33 && AdmissionScript(c.curve, owner, recovery, t.bondLockBlocks) == Some(j.bond.script)
    && |j.bond.pop| == 64 && c.curve(owner) && c.schnorr(owner, c.hash(PopBytes(j.bond.outpoint, j.key)), j.bond.pop)
  }

  /** A join verifies exactly when two different keys of readable points are named, the
      session key signed this claim at these terms, and the deposit it cites is an
      admission script behind the agreed lock whose owner says that this session key may
      cite it. */
  lemma JoinProves(c: Crypto, t: TableTerms, j: Join)
    ensures JoinVerifies(c, t, j) <==>
      && |j.key| == 33 && |j.logKey| == 33 && c.curve(j.key) && c.curve(j.logKey) && j.key != j.logKey
      && ClaimSigned(c, t, j) && Trim(j.bond.outpoint) != []
      && exists owner, recovery :: BondShown(c, t, j, owner, recovery)
  {
    hide JoinBytes, PopBytes, AdmissionScript, ParseBond, TermsHash, Trim;
    var b := ParseBond(c.curve, j.bond.script);
    if JoinVerifies(c, t, j) {
      ParseBondInvertsAdmissionScript(c.curve, j.bond.script, b.value);
      assert BondShown(c, t, j, b.value.owner, b.value.recovery);
    }
    if owner, recovery :| BondShown(c, t, j, owner, recovery) {
      ParseBondInvertsAdmissionScript(c.curve, j.bond.script, BondTerms(owner, recovery, t.bondLockBlocks));
    }
  }

  /** A claim to hold a membership verifies exactly when its signer signed it at these
      terms. */
  lemma AssertionProves(c: Crypto, t: TableTerms, a: Assertion)
    ensures AssertionVerifies(c, t, a) <==>
      && |a.signer| == 33 && c.curve(a.signer) && |a.sig| == 64
      && c.schnorr(a.signer, c.hash(AssertionBytes(TermsHash(c, t), a.roster)), a.sig)
  {
  }

  /** And so does a commit. */
  lemma CommitProves(c: Crypto, t: TableTerms, m: Commit)
    ensures CommitVerifies(c, t, m) <==>
      && |m.signer| == 33 && c.curve(m.signer) && |m.sig| == 64
      && c.schnorr(m.signer, c.hash(CommitBytes(TermsHash(c, t), m.roster)), m.sig)
  {
  }

  /** Whatever a formation that has not ended holds of others was signed by them at its
      terms: every join in it, and every commit. */
  lemma HeldIsSigned(c: Crypto, p: Peer)
    requires Consistent(c, p)
    ensures forall k :: k in p.joins ==> p.joins[k].key == k && ClaimSigned(c, p.terms, p.joins[k])
    ensures forall k :: k in p.commits ==>
      && p.commits[k].signer == k && |p.commits[k].sig| == 64
      && c.schnorr(k, c.hash(CommitBytes(TermsHash(c, p.terms), p.commits[k].roster)), p.commits[k].sig)
  {
    hide JoinVerifies, CommitVerifies, ClaimSigned, SignJoin, SignCommit, RosterHash, ValidTerms, InOrder, CommitBytes,
      TermsHash;
    forall k | k in p.joins ensures p.joins[k].key == k && ClaimSigned(c, p.terms, p.joins[k]) {
      JoinProves(c, p.terms, p.joins[k]);
    }
    forall k | k in p.commits
      ensures p.commits[k].signer == k && |p.commits[k].sig| == 64
      ensures c.schnorr(k, c.hash(CommitBytes(TermsHash(c, p.terms), p.commits[k].roster)), p.commits[k].sig)
    {
      CommitProves(c, p.terms, p.commits[k]);
    }
  }

  /** The credentials a player may sit down with: a log key apart from the session key, a
      deposit that is named, and a script. */
  predicate Equipped(k: Credentials) { k.log != k.session && Trim(k.outpoint) != [] && k.script != [] }

  /** A seat is claimed exactly under valid terms, by such credentials, with a claim that
      verifies. */
  lemma SittingDownNeeds(c: Crypto, t: TableTerms, k: Credentials)
    ensures New(c, t, k).Some? <==>
      ValidTerms(t) && Equipped(k) && |k.session| == 33 && JoinVerifies(c, t, SignJoin(c, t, k))
  {
    hide ValidTerms, JoinVerifies, SignJoin, Recompute;
  }

  /** Honest credentials' own claim verifies: their keys are readable, and their deposit is
      behind the agreed lock and theirs. */
  lemma OwnJoinVerifies(c: Crypto, t: TableTerms, k: Credentials, recovery: Bytes)
    requires SignsTruly(c) && Equipped(k) && IsKey(c.curve, k.session) && IsKey(c.curve, k.log)
    requires AdmissionScript(c.curve, k.bond, recovery, t.bondLockBlocks) == Some(k.script)
    ensures JoinVerifies(c, t, SignJoin(c, t, k))
  {
    hide JoinBytes, PopBytes, AdmissionScript, JoinVerifies, TermsHash, Trim, ParseBond, SignsTruly;
    var j := SignJoin(c, t, k);
    assert c.curve(k.bond) by { BuiltOverKeys(c.curve, k.bond, recovery, t.bondLockBlocks); }
    SignedTruly(c, k.bond, c.hash(PopBytes(k.outpoint, k.session)));
    SignedTruly(c, k.session, c.hash(JoinBytes(TermsHash(c, t), j.(sig := []))));
    assert JoinBytes(TermsHash(c, t), j) == JoinBytes(TermsHash(c, t), j.(sig := [])) by {
      SigIsNotSigned(TermsHash(c, t), j);
    }
    assert BondShown(c, t, j, k.bond, recovery);
    JoinProves(c, t, j);
  }

  lemma BuiltOverKeys(curve: Curve, owner: Bytes, recovery: Bytes, blocks: nat)
    requires AdmissionScript(curve, owner, recovery, blocks).Some?
    ensures curve(owner)
  {
    hide AdmissionTokens;
  }

  lemma SignedTruly(c: Crypto, key: Bytes, digest: Hash32)
    requires SignsTruly(c) && c.curve(key)
    ensures |c.sign(key, digest)| == 64 && c.schnorr(key, digest, c.sign(key, digest))
  {
  }

  lemma SigIsNotSigned(th: Hash32, j: Join)
    ensures JoinBytes(th, j) == JoinBytes(th, j.(sig := []))
  {
  }

  /** A join that an honest key vouches for is one that key made: for the same table, with
      the same log key, citing the same deposit. */
  lemma VouchedJoin(c: Crypto, w: World, s: Bytes, t: TableTerms, j: Join, strings: set<Bytes>)
    returns (u: TableTerms, k: Join)
    requires s in w.nodes && Vouched(c, w, s, c.hash(JoinBytes(TermsHash(c, t), j)))
    requires |j.key| == |j.logKey| == KEY_LEN
    requires forall x :: x in w.signed && x.what.Joins? ==> |x.what.j.key| == |x.what.j.logKey| == KEY_LEN
    requires NoCollision(c.hash, strings) && Signed(c, w) <= strings && JoinBytes(TermsHash(c, t), j) in strings
    ensures Saying(s, u, Joins(k)) in w.signed && TermsHash(c, u) == TermsHash(c, t)
    ensures k.key == j.key && k.logKey == j.logKey
    ensures k.bond.outpoint == j.bond.outpoint && k.bond.script == j.bond.script
  {
    hide TermsHash, JoinBytes;
    var x :| x in w.signed && x.key == s && c.hash(StatementBytes(c, x.terms, x.what)) ==
      c.hash(JoinBytes(TermsHash(c, t), j));
    u := x.terms;
    assert StatementBytes(c, x.terms, x.what) in Signed(c, w);
    assert BytesOf(OfClaims(TermsHash(c, t), j)) == JoinBytes(TermsHash(c, t), j);
    KindsAreSeparate(SaidAt(TermsHash(c, u), x.what), OfClaims(TermsHash(c, t), j));
    assert x.what.Joins?;
    k := x.what.j;
    assert JoinBytes(TermsHash(c, u), k) == JoinBytes(TermsHash(c, t), j);
    JoinBytesInjective(TermsHash(c, u), k, TermsHash(c, t), j);
    assert x == Saying(s, u, Joins(k));
  }

  /** An invitation is taken up only by a process that has no table, knows of no end of the
      session and whose storage is in order; any other stays as it was and says nothing. */
  lemma OthersTakeNoInvitation(c: Crypto, n: Node, t: TableTerms, k: Credentials, how: Write)
    requires n.live.Some? || n.ended || n.fault
    ensures OnNode(c, n, Begin(t, k, how)) == n && Says(c, n, Begin(t, k, how)) == {}
  {
    hide New, SignJoin;
  }

  // ---- Terms a table can be built on ----

  /** Named, with a deadline and a bond of some of the coins there are. */
  predicate Worded(t: TableTerms) {
    && Trim(t.game) != [] && Trim(t.sid) != [] && t.until > 0
    && 1 <= t.bondAtoms <= 21_000_000 * 100_000_000
  }

  /** Terms are valid exactly when they are worded so and the scripts they call for can be
      built, for as many distinct keys as there are seats: a deposit that can be refunded
      and a bond that can be reclaimed. */
  lemma ValidTermsAreBuildable(curve: Curve, t: TableTerms, keys: seq<Bytes>, owner: Bytes, identity: Bytes)
    requires |keys| == t.seats && owner in keys && IsKey(curve, identity) && identity != owner
    requires forall i :: 0 <= i < |keys| ==> IsKey(curve, keys[i])
    requires Sorting.Sort(keys, Sorting.Self) == keys && NoRepeats(keys)
    ensures ValidTerms(t) <==>
      && Worded(t) && CooperativeScript(curve, owner, keys, t.csvBlocks).Some?
      && AdmissionScript(curve, identity, owner, t.bondLockBlocks).Some?
  {
    hide Trim, CooperativeTokens, AdmissionTokens, Sorting.Sort;
    assert IsKey(curve, owner);
    if 2 <= t.seats <= MAX_MEMBERS && LockInRange(t.csvBlocks) {
      Witness.RosterHasScript(curve, keys, owner, t.csvBlocks);
    }
  }

  /** A refund that shows its own lock as its sequence meets it, for any valid terms; a
      longer lock than terms may state could be met by no transaction at all. */
  lemma ValidLocksCanBeMet(t: TableTerms, tx: Script.Spend, blocks: nat)
    ensures ValidTerms(t) && tx.version >= 2 && tx.sequence in {t.csvBlocks, t.bondLockBlocks} ==>
      LockMet(tx, tx.sequence)
    ensures LockMet(tx, blocks) ==> blocks <= 65535
  {
    if LockMet(tx, blocks) {
      assert tx.sequence % Script.SEQUENCE_RANGE <= 65535;
    }
  }
}
