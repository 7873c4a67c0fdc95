/** The admission deadline: what closing the window decides, and that nothing which
    arrives afterwards decides anything else. */
module Window {
  import opened ByteStrings
  import opened Escrow
  import opened Finance
  import opened Messages
  import opened Formation
  import TableStore
  import opened Confluence
  import opened Agreement

  /** No join is taken any more: the window is closed, or the table is bound or over. */
  predicate Shut(p: Peer) { p.closed || p.phase in {Committed, Settled, Aborted} }

  /** What a late join or claim may touch: the claims on file, and nothing else. */
  predicate SameTableAs(p: Peer, q: Peer) { q == p.(asserts := q.asserts) }

  lemma {:induction false} LateJoinsAreIgnored(c: Crypto, p: Peer, js: seq<Join>)
    requires Shut(p)
    ensures AdmitAll(c, p, js) == p
    decreases |js|
  {
    hide JoinVerifies;
    if js != [] {
      LateJoinsAreIgnored(c, p, js[1..]);
    }
  }

  lemma LatePacketChangesNothing(c: Crypto, p: Peer, packet: Packet)
    requires Consistent(c, p) && Shut(p)
    ensures
      var q := Deliver(c, p, packet);
      Consistent(c, q) && Shut(q) && SameTableAs(p, q)
  {
    hide Consistent, JoinVerifies, AssertionVerifies, AllVerify;
    match packet
    case Claimed(j) => LateJoinsAreIgnored(c, p, [j]);
    case Relayed(a, js) =>
      var filed := p.(asserts := p.asserts[a.signer := a.roster]);
      FiledIsConsistent(c, p, a);
      LateJoinsAreIgnored(c, filed, js);
      RecomputeSettled(c, filed);
  }

  lemma FiledIsConsistent(c: Crypto, p: Peer, a: Assertion)
    requires Consistent(c, p)
    ensures Consistent(c, p.(asserts := p.asserts[a.signer := a.roster]))
  {
    hide JoinsStand, CommitsStand, SignJoin, SignCommit, RosterHash, ValidTerms, ValidCredentials, InOrder;
  }

  /** After the window, whatever joins and claims arrive leave the joins, the phase, the
      membership, the roster and all else but the claims as they were. */
  lemma {:induction false} LateArrivalsChangeNothing(c: Crypto, p: Peer, packets: seq<Packet>)
    requires Consistent(c, p) && Shut(p)
    ensures
      var q := DeliverAll(c, p, packets);
      Consistent(c, q) && Shut(q) && SameTableAs(p, q)
    decreases |packets|
  {
    hide Consistent, Deliver;
    if packets != [] {
      LatePacketChangesNothing(c, p, packets[0]);
      LateArrivalsChangeNothing(c, Deliver(c, p, packets[0]), packets[1..]);
    }
  }

  // ---- What the deadline decides ----

  /** The outcome at the deadline: what the keys decided, or too few of them. */
  ghost function AtDeadline(c: Crypto, t: TableTerms, keys: set<Bytes>): Outcome {
    if |keys| < t.seats then Outcome(Aborted, ShortAtDeadline(|keys|, t.seats), None) else Verdict(c, t, keys)
  }

  /** The keys that answered before the window closed decide the outcome, whatever order
      they came in and whatever comes after: too few end the table as short, as many as
      there are seats form it for good, and too many had ended it already. */
  lemma OnlyTimelyKeysDecide(c: Crypto, p: Peer, before: seq<Packet>, after: seq<Packet>)
    requires Consistent(c, p) && p.phase in {Joining, Formed} && !p.closed
    ensures
      var keys := p.joins.Keys + KeysDelivered(c, p.terms, before);
      OutcomeOf(DeliverAll(c, CloseWindow(DeliverAll(c, p, before)), after)) == AtDeadline(c, p.terms, keys)
  {
    hide Consistent, Deliver, KeysBrought, InOrder, RosterHash;
    var keys, q := p.joins.Keys + KeysDelivered(c, p.terms, before), DeliverAll(c, p, before);
    StartsGathering(c, p);
    DeliverAllGathers(c, p, before, p.joins.Keys);
    assert |q.joins.Keys| == |q.joins|;
    CloseWindowKeeps(c, q);
    LateArrivalsChangeNothing(c, CloseWindow(q), after);
  }

  // ---- Every deed after the window ----

  ghost function OnPeerAll(c: Crypto, p: Peer, deeds: seq<Deed>): Peer
    decreases |deeds|
  {
    if deeds == [] then p else OnPeerAll(c, OnPeer(c, p, deeds[0]), deeds[1..])
  }

  /** A closed table no longer waits for joins. */
  predicate Decided(p: Peer) { p.closed ==> p.phase != Joining }

  /** Where a table stands that was formed when its window closed: the same joins, and
      formed, bound, settled or given up, or ended by a member's two rosters. */
  predicate StandsAt(p: Peer, joins: map<Bytes, Join>, roster: Hash32) {
    && Shut(p) && p.joins == joins && p.roster == roster && p.phase != Joining
    && (p.phase == Aborted ==> p.reason.TwoRosters? || p.reason.GivenUp?)
  }

  /** A deed on the formation is none of these three, or acts as a late one. */
  lemma LateDeedKeeps(c: Crypto, p: Peer, d: Deed, joins: map<Bytes, Join>, roster: Hash32)
    requires SignsTruly(c) && Consistent(c, p) && StandsAt(p, joins, roster)
    ensures Consistent(c, OnPeer(c, p, d)) && StandsAt(OnPeer(c, p, d), joins, roster)
  {
    hide Consistent, SignsTruly, JoinVerifies, AssertionVerifies, CommitVerifies, AllVerify, SignCommit;
    OnPeerKeeps(c, p, d);
    match d
    case TakesJoin(j) => LatePacketChangesNothing(c, p, Claimed(j));
    case TakesAssertion(a, js) => LatePacketChangesNothing(c, p, Relayed(a, js));
    case TakesCommit(m) => LateCommit(c, p, m);
    case Binds => LateBinding(c, p);
    case _ =>
  }

  lemma LateCommit(c: Crypto, p: Peer, m: Commit)
    requires Consistent(c, p) && Shut(p) && p.phase != Joining
    ensures
      var q := TakeCommit(c, p, m);
      && Shut(q) && q.joins == p.joins && q.roster == p.roster && q.phase != Joining
      && (q.phase == Aborted ==> q.reason == p.reason || q.reason == TwoRosters(m.signer))
      && (p.phase != Aborted && q.phase == Aborted ==> q.reason == TwoRosters(m.signer))
  {
    hide CommitVerifies, JoinsStand, CommitsStand, SignJoin, SignCommit, RosterHash, InOrder, Listing, CanonicalMembers;
    if p.phase == Formed && m.signer !in p.commits && CommitVerifies(c, p.terms, m) {
      SeatsFit(p.terms);
      VerifiedKeysAreUsable(c, p);
    }
  }

  lemma LateBinding(c: Crypto, p: Peer)
    requires SignsTruly(c) && Consistent(c, p) && Shut(p)
    ensures Bind(c, p) == p || (p.phase == Formed && Bind(c, p).phase in {Committed, Settled})
    ensures Bind(c, p).joins == p.joins && Bind(c, p).roster == p.roster && Shut(Bind(c, p))
  {
    hide Consistent, SignsTruly, SignCommit;
    BindKeeps(c, p);
  }

  lemma {:induction false} LateDeedsKeep(c: Crypto, p: Peer, deeds: seq<Deed>, joins: map<Bytes, Join>, roster: Hash32)
    requires SignsTruly(c) && Consistent(c, p) && StandsAt(p, joins, roster)
    ensures Consistent(c, OnPeerAll(c, p, deeds)) && StandsAt(OnPeerAll(c, p, deeds), joins, roster)
    decreases |deeds|
  {
    hide Consistent, SignsTruly, StandsAt, OnPeer;
    if deeds != [] {
      LateDeedKeeps(c, p, deeds[0], joins, roster);
      LateDeedsKeep(c, OnPeer(c, p, deeds[0]), deeds[1..], joins, roster);
    }
  }

  /** A table formed when its window closes keeps its joins and its roster through
      whatever follows, and never ends as oversubscribed, short or unusable: only a member
      bound to two rosters, or this peer itself, can end it. */
  lemma FormedAtTheCloseStands(c: Crypto, p: Peer, deeds: seq<Deed>)
    requires SignsTruly(c) && Consistent(c, p) && p.phase in {Formed, Committed, Settled}
    ensures StandsAt(OnPeerAll(c, CloseWindow(p), deeds), p.joins, p.roster)
  {
    hide Consistent, SignsTruly;
    CloseWindowKeeps(c, p);
    LateDeedsKeep(c, CloseWindow(p), deeds, p.joins, p.roster);
  }

  /** And one that is not formed by then ends there, as short by what is missing. */
  lemma ShortAtTheCloseEnds(c: Crypto, p: Peer, deeds: seq<Deed>)
    requires SignsTruly(c) && Consistent(c, p) && p.phase == Joining && !p.closed
    ensures
      var q := OnPeerAll(c, CloseWindow(p), deeds);
      && q.phase == Aborted && q.reason == ShortAtDeadline(|p.joins|, p.terms.seats) && q.joins == p.joins
      && q.canonical.None? && |p.joins| < p.terms.seats
  {
    hide JoinsStand, CommitsStand, SignJoin, SignCommit, RosterHash, InOrder, SignsTruly;
    OverStaysOver(c, CloseWindow(p), deeds);
  }

  /** A table given up changes no more, but for its beacon. */
  lemma {:induction false} OverStaysOver(c: Crypto, p: Peer, deeds: seq<Deed>)
    requires p.phase == Aborted && p.canonical.None?
    ensures
      var q := OnPeerAll(c, p, deeds);
      q == p.(beacon := q.beacon)
    decreases |deeds|
  {
    if deeds != [] {
      OverStaysOver(c, OnPeer(c, p, deeds[0]), deeds[1..]);
    }
  }

  lemma DeedDecides(c: Crypto, p: Peer, d: Deed)
    requires SignsTruly(c) && Consistent(c, p) && Decided(p)
    ensures Consistent(c, OnPeer(c, p, d)) && Decided(OnPeer(c, p, d))
  {
    hide Consistent, SignsTruly, JoinVerifies, AssertionVerifies, CommitVerifies, AllVerify, SignCommit;
    OnPeerKeeps(c, p, d);
    if p.closed || p.phase in {Committed, Settled, Aborted} {
      match d
      case TakesJoin(j) => LatePacketChangesNothing(c, p, Claimed(j));
      case TakesAssertion(a, js) => LatePacketChangesNothing(c, p, Relayed(a, js));
      case TakesCommit(m) => if p.phase != Joining { LateCommit(c, p, m); }
      case Binds => LateBinding(c, p);
      case _ =>
    } else if !d.ClosesWindow? {
      OpenStaysOpen(c, p, d);
    }
  }

  lemma OpenStaysOpen(c: Crypto, p: Peer, d: Deed)
    requires !p.closed && !d.ClosesWindow?
    ensures !OnPeer(c, p, d).closed
  {
    hide JoinVerifies, AssertionVerifies, CommitVerifies, AllVerify, SignCommit, Recompute;
    match d
    case TakesJoin(j) => JoinsLeaveTheWindow(c, p, [j]);
    case TakesAssertion(a, js) =>
      var filed := p.(asserts := p.asserts[a.signer := a.roster]);
      JoinsLeaveTheWindow(c, filed, js);
      RecomputeLeavesTheWindow(c, AdmitAll(c, filed, js));
    case TakesCommit(m) => RecomputeLeavesTheWindow(c, p.(commits := p.commits[m.signer := m]));
    case Binds => RecomputeLeavesTheWindow(c,
      p.(commits := p.commits[p.Self() := SignCommit(c, p.terms, p.roster, p.Self())], phase := Committed));
    case _ =>
  }

  lemma RecomputeLeavesTheWindow(c: Crypto, p: Peer)
    ensures Recompute(c, p).closed == p.closed
  {
    hide Recompute;
    TableStore.RecomputeLeaves(c, p);
  }

  lemma {:induction false} JoinsLeaveTheWindow(c: Crypto, p: Peer, js: seq<Join>)
    ensures AdmitAll(c, p, js).closed == p.closed
    decreases |js|
  {
    hide JoinVerifies, Recompute;
    if js != [] {
      RecomputeLeavesTheWindow(c, p.(joins := p.joins[js[0].key := js[0]]));
      JoinsLeaveTheWindow(c, Admit(c, p, js[0]), js[1..]);
    }
  }

  /** In every state a formation can reach, a closed window has decided the table. */
  lemma {:induction false} ClosedIsDecided(c: Crypto, t: TableTerms, k: Credentials, deeds: seq<Deed>)
    requires SignsTruly(c) && New(c, t, k).Some?
    ensures Decided(OnPeerAll(c, New(c, t, k).value, deeds))
  {
    hide Consistent, SignsTruly, New;
    NewIsConsistent(c, t, k);
    DeedsDecide(c, New(c, t, k).value, deeds);
  }

  lemma {:induction false} DeedsDecide(c: Crypto, p: Peer, deeds: seq<Deed>)
    requires SignsTruly(c) && Consistent(c, p) && Decided(p)
    ensures Decided(OnPeerAll(c, p, deeds))
    decreases |deeds|
  {
    hide Consistent, SignsTruly, Decided, OnPeer;
    if deeds != [] {
      DeedDecides(c, p, deeds[0]);
      DeedsDecide(c, OnPeer(c, p, deeds[0]), deeds[1..]);
    }
  }
}
