/** One peer's view of a table forming without a referee. */
module Formation {
  import opened ByteStrings
  import opened Escrow
  import opened Finance
  import opened Sorting
  import opened Messages

  datatype Phase = Joining | Formed | Committed | Settled | Aborted

  datatype Reason =
    | NoReason
    | ShortAtDeadline(have: nat, seats: nat)
    | Oversubscribed(have: nat, seats: nat)
    | Unusable
    | TwoRosters(member: Bytes)
    | GivenUp(why: string)

  datatype Conflict = Conflict(first: Commit, second: Commit)

  const NO_ROSTER: Hash32 := BE(0, 32)

  datatype Peer = Peer(
    terms: TableTerms, creds: Credentials,
    joins: map<Bytes, Join>, commits: map<Bytes, Commit>, asserts: map<Bytes, Hash32>, closed: bool,
    phase: Phase, reason: Reason, canonical: Option<seq<Bytes>>, roster: Hash32,
    conflict: Option<Conflict>, beacon: Option<Bytes>)
  {
    function Self(): Bytes { creds.session }
  }

  // ---- The step functions ----

  /** Every key once, in any order. */
  ghost function Listing(keys: set<Bytes>): (r: seq<Bytes>)
    ensures multiset(r) == multiset(keys) && |r| == |keys|
  {
    if keys == {} then []
    else
      var k :| k in keys;
      assert keys == keys - {k} + {k};
      [k] + Listing(keys - {k})
  }

  /** The keys in canonical order. */
  ghost function InOrder(keys: set<Bytes>): seq<Bytes> {
    Sort(Listing(keys), Sorting.Self)
  }

  function Abort(p: Peer, why: Reason): Peer {
    p.(phase := Aborted, reason := why, canonical := None)
  }

  /** Every member of this peer's membership is bound to this peer's roster. */
  predicate AllBound(p: Peer) {
    p.canonical.Some? ==> forall k :: k in p.canonical.value ==> k in p.commits && p.commits[k].roster == p.roster
  }

  ghost function Recompute(c: Crypto, p: Peer): Peer {
    if p.phase in {Aborted, Settled} then p
    else if p.phase == Committed then
      if AllBound(p) then p.(phase := Settled) else p
    else if |p.joins| > p.terms.seats then Abort(p, Oversubscribed(|p.joins|, p.terms.seats))
    else if |p.joins| == p.terms.seats then
      match CanonicalMembers(c.curve, Listing(p.joins.Keys))
      case None => Abort(p, Unusable)
      case Some(members) => p.(canonical := Some(members), roster := RosterHash(c, p.terms, members), phase := Formed)
    else p.(canonical := None, phase := Joining)
  }

  /** The outcome of admitting one join. */
  ghost function Admit(c: Crypto, p: Peer, j: Join): Peer {
    if p.phase in {Aborted, Settled} || !JoinVerifies(c, p.terms, j) || j.key in p.joins then p
    else if p.phase == Committed || p.closed then p
    else Recompute(c, p.(joins := p.joins[j.key := j]))
  }

  ghost function AdmitAll(c: Crypto, p: Peer, js: seq<Join>): Peer
    decreases |js|
  {
    if js == [] then p else AdmitAll(c, Admit(c, p, js[0]), js[1..])
  }

  predicate AllVerify(c: Crypto, t: TableTerms, js: seq<Join>) {
    forall i :: 0 <= i < |js| ==> JoinVerifies(c, t, js[i])
  }

  ghost function TakeAssertion(c: Crypto, p: Peer, a: Assertion, js: seq<Join>): Peer {
    if p.phase in {Aborted, Settled} || !AssertionVerifies(c, p.terms, a) || !AllVerify(c, p.terms, js) then p
    else Recompute(c, AdmitAll(c, p.(asserts := p.asserts[a.signer := a.roster]), js))
  }

  ghost function TakeCommit(c: Crypto, p: Peer, m: Commit): Peer {
    if p.phase == Aborted || !CommitVerifies(c, p.terms, m) then p
    else if m.signer in p.commits then
      var prev := p.commits[m.signer];
      if prev.roster == m.roster then p
      else
        var q := p.(conflict := Some(Conflict(prev, m)));
        if p.phase == Settled then q else Abort(q, TwoRosters(m.signer))
    else Recompute(c, p.(commits := p.commits[m.signer := m]))
  }

  ghost function Bind(c: Crypto, p: Peer): Peer {
    if p.phase != Formed then p
    else Recompute(c, p.(commits := p.commits[p.Self() := SignCommit(c, p.terms, p.roster, p.Self())],
      phase := Committed))
  }

  function CloseWindow(p: Peer): Peer {
    if p.closed || p.phase in {Aborted, Settled} then p
    else
      var q := p.(closed := true);
      if p.phase == Joining then Abort(q, ShortAtDeadline(|p.joins|, p.terms.seats)) else q
  }

  function Abandon(p: Peer, why: string): Peer {
    if p.phase in {Formed, Committed, Settled} then p.(phase := Aborted, reason := GivenUp(why)) else p
  }

  function SetBeacon(p: Peer, hash: Bytes): Peer {
    if hash == [] || p.beacon.Some? then p else p.(beacon := Some(hash))
  }

  function Assert(c: Crypto, p: Peer): Peer {
    if p.canonical.None? then p else p.(asserts := p.asserts[p.Self() := p.roster])
  }

  predicate Agreed(p: Peer) {
    p.canonical.Some? &&
    forall k :: k in p.canonical.value ==> k in p.asserts && p.asserts[k] == p.roster
  }

  ghost function Start(t: TableTerms, k: Credentials): Peer {
    Peer(t, k, map[], map[], map[], false, Joining, NoReason, None, NO_ROSTER, None, None)
  }

  /** A new formation, already holding this peer's own join. */
  ghost function New(c: Crypto, t: TableTerms, k: Credentials): Option<Peer> {
    if !ValidTerms(t) || !ValidCredentials(k) || |k.session| != KEY_LEN then None
    else
      var ours := SignJoin(c, t, k);
      if !JoinVerifies(c, t, ours) then None else Some(Admit(c, Start(t, k), ours))
  }

  // ---- What every step keeps ----

  /** A membership of the table's size, in order, and the hash that names it. */
  ghost predicate Seated(c: Crypto, p: Peer) {
    && |p.joins| == p.terms.seats
    && p.canonical == Some(InOrder(p.joins.Keys))
    && p.roster == RosterHash(c, p.terms, InOrder(p.joins.Keys))
  }

  /** Bound for good: this peer's own commit is to its own roster. */
  predicate BoundToOwn(c: Crypto, p: Peer) {
    p.Self() in p.commits && p.commits[p.Self()] == SignCommit(c, p.terms, p.roster, p.Self())
  }

  ghost predicate Consistent(c: Crypto, p: Peer) {
    Sound(c, p) &&
    match p.phase
    case Joining => |p.joins| < p.terms.seats && p.canonical.None? && p.roster == NO_ROSTER
    case Formed => Seated(c, p)
    case Committed => Seated(c, p) && BoundToOwn(c, p) && !AllBound(p)
    case Settled => Seated(c, p) && BoundToOwn(c, p) && AllBound(p)
    case Aborted => p.canonical.Some? ==> Seated(c, p)
  }

  lemma ListingHolds(keys: set<Bytes>)
    ensures forall k :: k in Listing(keys) <==> k in keys
    ensures forall i, j :: 0 <= i < j < |Listing(keys)| ==> Listing(keys)[i] != Listing(keys)[j]
  {
    var s := Listing(keys);
    forall k ensures k in s <==> k in keys {
      assert k in s <==> k in multiset(s);
    }
    forall i, j | 0 <= i < j < |s| ensures s[i] != s[j] {
      if s[i] == s[j] {
        TwicePlaced(s, i, j);
        assert false;
      }
    }
  }

  /** A sequence with the same elements sorts to the canonical order. */
  lemma InOrderOf(keys: set<Bytes>, s: seq<Bytes>)
    requires multiset(s) == multiset(keys)
    ensures Sort(s, Sorting.Self) == InOrder(keys)
  {
    SelfIdentifies(s);
    SortIgnoresOrder(s, Listing(keys), Sorting.Self);
  }

  lemma InOrderHolds(keys: set<Bytes>)
    ensures |InOrder(keys)| == |keys|
    ensures forall k :: k in InOrder(keys) <==> k in keys
    ensures NoRepeats(InOrder(keys))
  {
    var s, r := Listing(keys), InOrder(keys);
    SortSorts(s, Sorting.Self);
    ListingHolds(keys);
    forall k ensures k in r <==> k in keys {
      assert k in r <==> k in multiset(r);
    }
    forall i | 0 < i < |r| ensures r[i] != r[i - 1] {
      if r[i] == r[i - 1] {
        TwicePlaced(r, i - 1, i);
        assert false;
      }
    }
  }

  lemma JoinNamesKey(c: Crypto, t: TableTerms, j: Join)
    requires JoinVerifies(c, t, j)
    ensures IsKey(c.curve, j.key)
  {
    hide ParseBond, VerifyBondPoP, JoinBytes;
  }

  /** Every join is held under its own key, and stands. */
  predicate JoinsStand(c: Crypto, t: TableTerms, joins: map<Bytes, Join>) {
    forall k :: k in joins ==> joins[k].key == k && JoinVerifies(c, t, joins[k])
  }

  predicate CommitsStand(c: Crypto, t: TableTerms, commits: map<Bytes, Commit>) {
    forall k :: k in commits ==> commits[k].signer == k && CommitVerifies(c, t, commits[k])
  }

  /** Verified joins always make a usable membership. */
  lemma VerifiedKeysAreUsable(c: Crypto, p: Peer)
    requires p.joins != map[] && |p.joins| <= MAX_MEMBERS && JoinsStand(c, p.terms, p.joins)
    ensures CanonicalMembers(c.curve, Listing(p.joins.Keys)) == Some(InOrder(p.joins.Keys))
    ensures AllKeys(InOrder(p.joins.Keys))
  {
    hide JoinVerifies, Sort, Listing;
    var s, r := Listing(p.joins.Keys), InOrder(p.joins.Keys);
    ListingHolds(p.joins.Keys);
    InOrderHolds(p.joins.Keys);
    forall k | k in p.joins ensures IsKey(c.curve, k) {
      JoinNamesKey(c, p.terms, p.joins[k]);
    }
    assert |s| == |p.joins| > 0 by {
      assert |p.joins.Keys| == |p.joins|;
    }
    forall i | 0 <= i < |s| ensures IsKey(c.curve, s[i]) {
      assert s[i] in p.joins;
    }
    forall i | 0 <= i < |r| ensures |r[i]| == KEY_LEN {
      assert r[i] in p.joins;
    }
  }

  /** What the record of a peer keeps whatever its phase. */
  predicate Sound(c: Crypto, p: Peer) {
    && ValidTerms(p.terms) && ValidCredentials(p.creds) && |p.Self()| == KEY_LEN
    && p.Self() in p.joins && p.joins[p.Self()] == SignJoin(c, p.terms, p.creds)
    && JoinsStand(c, p.terms, p.joins) && CommitsStand(c, p.terms, p.commits)
    && (p.beacon.Some? ==> p.beacon.value != [])
    && (p.conflict.Some? ==> p.phase in {Settled, Aborted})
    && (p.phase != Aborted ==> p.reason == NoReason)
  }

  lemma SeatsFit(t: TableTerms)
    requires ValidTerms(t)
    ensures 2 <= t.seats <= MAX_MEMBERS
  {
  }

  lemma RecomputeKeeps(c: Crypto, p: Peer)
    requires Sound(c, p) && p.phase in {Joining, Formed, Committed}
    requires p.phase == Joining ==> p.roster == NO_ROSTER
    requires p.phase == Formed ==> |p.joins| >= p.terms.seats
    requires p.phase == Committed ==> Seated(c, p) && BoundToOwn(c, p)
    ensures Consistent(c, Recompute(c, p))
  {
    hide JoinsStand, CommitsStand, SignJoin, SignCommit, RosterHash, ValidTerms, ValidCredentials, CanonicalMembers,
      InOrder, Listing;
    SeatsFit(p.terms);
    if p.phase != Committed && |p.joins| == p.terms.seats {
      VerifiedKeysAreUsable(c, p);
    }
  }

  lemma SignJoinKey(c: Crypto, t: TableTerms, k: Credentials)
    requires |k.session| == KEY_LEN
    ensures SignJoin(c, t, k).key == k.session
  {
  }

  lemma NewIsConsistent(c: Crypto, t: TableTerms, k: Credentials)
    requires New(c, t, k).Some?
    ensures
      var p := New(c, t, k).value;
      && Consistent(c, p) && p.phase == Joining && !p.closed && p.joins == map[k.session := SignJoin(c, t, k)]
      && p == Start(t, k).(joins := p.joins)
  {
    hide JoinVerifies, CommitVerifies, SignJoin, SignCommit, RosterHash, ValidTerms, ValidCredentials, InOrder;
    SignJoinKey(c, t, k);
    SeatsFit(t);
    var p := Start(t, k).(joins := map[k.session := SignJoin(c, t, k)]);
    assert |p.joins| == 1;
    RecomputeKeeps(c, p);
  }

  lemma AdmitKeeps(c: Crypto, p: Peer, j: Join)
    requires Consistent(c, p)
    ensures Consistent(c, Admit(c, p, j))
  {
    hide JoinVerifies, CommitVerifies, SignJoin, SignCommit, RosterHash, ValidTerms, ValidCredentials, InOrder;
    if Admit(c, p, j) != p {
      var q := p.(joins := p.joins[j.key := j]);
      assert |q.joins| == |p.joins| + 1;
      RecomputeKeeps(c, q);
    }
  }

  lemma {:induction false} AdmitAllKeeps(c: Crypto, p: Peer, js: seq<Join>)
    requires Consistent(c, p)
    ensures Consistent(c, AdmitAll(c, p, js))
    decreases |js|
  {
    if js != [] {
      AdmitKeeps(c, p, js[0]);
      AdmitAllKeeps(c, Admit(c, p, js[0]), js[1..]);
    }
  }

  /** Recomputing a consistent peer changes nothing. */
  lemma RecomputeSettled(c: Crypto, p: Peer)
    requires Consistent(c, p)
    ensures Recompute(c, p) == p
  {
    hide JoinVerifies, CommitVerifies, SignJoin, SignCommit, RosterHash, ValidTerms, ValidCredentials, InOrder;
    SeatsFit(p.terms);
    if p.phase == Formed {
      VerifiedKeysAreUsable(c, p);
    }
  }

  lemma AssertionKeeps(c: Crypto, p: Peer, a: Assertion, js: seq<Join>)
    requires Consistent(c, p)
    ensures Consistent(c, TakeAssertion(c, p, a, js))
  {
    hide JoinVerifies, CommitVerifies, SignJoin, SignCommit, RosterHash, ValidTerms, ValidCredentials, InOrder;
    var q := p.(asserts := p.asserts[a.signer := a.roster]);
    assert Consistent(c, q);
    AdmitAllKeeps(c, q, js);
    RecomputeSettled(c, AdmitAll(c, q, js));
  }

  lemma CommitKeeps(c: Crypto, p: Peer, m: Commit)
    requires Consistent(c, p)
    ensures Consistent(c, TakeCommit(c, p, m))
  {
    hide JoinVerifies, CommitVerifies, SignJoin, SignCommit, RosterHash, ValidTerms, ValidCredentials, InOrder;
    if p.phase in {Joining, Formed, Committed} && CommitVerifies(c, p.terms, m) && m.signer !in p.commits {
      RecomputeKeeps(c, p.(commits := p.commits[m.signer := m]));
    }
  }

  lemma OwnCommitVerifies(c: Crypto, t: TableTerms, roster: Hash32, key: Bytes)
    requires IsKey(c.curve, key) && SignsTruly(c)
    ensures CommitVerifies(c, t, SignCommit(c, t, roster, key)) && SignCommit(c, t, roster, key).signer == key
  {
  }

  lemma BindKeeps(c: Crypto, p: Peer)
    requires Consistent(c, p) && SignsTruly(c)
    ensures Consistent(c, Bind(c, p))
    ensures p.phase == Formed ==> Bind(c, p).phase in {Committed, Settled} && Bind(c, p).roster == p.roster
  {
    hide JoinVerifies, CommitVerifies, SignJoin, SignCommit, RosterHash, ValidTerms, ValidCredentials, InOrder,
      SignsTruly;
    if p.phase == Formed {
      var q := p.(commits := p.commits[p.Self() := SignCommit(c, p.terms, p.roster, p.Self())], phase := Committed);
      JoinNamesKey(c, p.terms, p.joins[p.Self()]);
      OwnCommitVerifies(c, p.terms, p.roster, p.Self());
      RecomputeKeeps(c, q);
    }
  }

  lemma CloseWindowKeeps(c: Crypto, p: Peer)
    requires Consistent(c, p)
    ensures Consistent(c, CloseWindow(p))
  {
    hide JoinsStand, CommitsStand, SignJoin, SignCommit, RosterHash, ValidTerms, ValidCredentials, InOrder;
  }

  lemma AbandonKeeps(c: Crypto, p: Peer, why: string)
    requires Consistent(c, p)
    ensures Consistent(c, Abandon(p, why))
  {
    hide JoinsStand, CommitsStand, SignJoin, SignCommit, RosterHash, ValidTerms, ValidCredentials, InOrder;
  }

  lemma BeaconKeeps(c: Crypto, p: Peer, hash: Bytes)
    requires Consistent(c, p)
    ensures Consistent(c, SetBeacon(p, hash))
  {
    hide JoinsStand, CommitsStand, SignJoin, SignCommit, RosterHash, ValidTerms, ValidCredentials, InOrder;
  }

  lemma AssertKeeps(c: Crypto, p: Peer)
    requires Consistent(c, p)
    ensures Consistent(c, Assert(c, p))
  {
    hide JoinsStand, CommitsStand, SignJoin, SignCommit, RosterHash, ValidTerms, ValidCredentials, InOrder;
  }
}
