/** Before anyone binds and while admission is open, what a peer comes to hold
    depends only on which keys answered: not on the order the answers arrived
    in, how often, by whom they were relayed, or what junk came with them. */
module Confluence {
  import opened ByteStrings
  import opened Escrow
  import opened Finance
  import opened Messages
  import opened Formation

  /** What arrives: a join on its own, or a claim that shows joins. */
  datatype Packet = Claimed(j: Join) | Relayed(a: Assertion, js: seq<Join>)

  ghost function Deliver(c: Crypto, p: Peer, packet: Packet): Peer {
    match packet
    case Claimed(j) => Admit(c, p, j)
    case Relayed(a, js) => TakeAssertion(c, p, a, js)
  }

  ghost function DeliverAll(c: Crypto, p: Peer, packets: seq<Packet>): Peer
    decreases |packets|
  {
    if packets == [] then p else DeliverAll(c, Deliver(c, p, packets[0]), packets[1..])
  }

  /** The keys whose joins stand among the joins shown. */
  function KeysShown(c: Crypto, t: TableTerms, js: seq<Join>): set<Bytes> {
    set j | j in js && JoinVerifies(c, t, j) :: j.key
  }

  /** The keys a packet brings: none when any join of a claim does not stand. */
  function KeysBrought(c: Crypto, t: TableTerms, packet: Packet): set<Bytes> {
    match packet
    case Claimed(j) => KeysShown(c, t, [j])
    case Relayed(a, js) => if AssertionVerifies(c, t, a) && AllVerify(c, t, js) then KeysShown(c, t, js) else {}
  }

  function KeysDelivered(c: Crypto, t: TableTerms, packets: seq<Packet>): set<Bytes> {
    if packets == [] then {} else KeysBrought(c, t, packets[0]) + KeysDelivered(c, t, packets[1..])
  }

  /** What anyone can see of a formation. */
  datatype Outcome = Outcome(phase: Phase, reason: Reason, membership: Option<(seq<Bytes>, Hash32)>)

  function OutcomeOf(p: Peer): Outcome {
    Outcome(p.phase, p.reason, if p.canonical.Some? then Some((p.canonical.value, p.roster)) else None)
  }

  /** The outcome that the keys answering a table decide. */
  ghost function Verdict(c: Crypto, t: TableTerms, keys: set<Bytes>): Outcome {
    if |keys| < t.seats then Outcome(Joining, NoReason, None)
    else if |keys| == t.seats then Outcome(Formed, NoReason, Some((InOrder(keys), RosterHash(c, t, InOrder(keys)))))
    else Outcome(Aborted, Oversubscribed(t.seats + 1, t.seats), None)
  }

  /** A peer that joins still move, or that too many joins have ended. */
  ghost predicate Gathering(c: Crypto, p: Peer, keys: set<Bytes>) {
    && Consistent(c, p) && p.terms.seats >= 2
    && OutcomeOf(p) == Verdict(c, p.terms, keys)
    && (p.phase != Aborted ==> p.joins.Keys == keys && !p.closed)
  }

  lemma SubsetSize(a: set<Bytes>, b: set<Bytes>)
    requires a <= b
    ensures |a| <= |b|
  {
    assert b == a + (b - a);
  }

  lemma StartsGathering(c: Crypto, p: Peer)
    requires Consistent(c, p) && p.phase in {Joining, Formed} && !p.closed
    ensures Gathering(c, p, p.joins.Keys)
  {
    hide JoinsStand, CommitsStand, SignJoin, RosterHash, InOrder;
    assert |p.joins| == |p.joins.Keys|;
  }

  /** A join that changes nothing brings no key that is not there. */
  lemma OldJoinGathers(c: Crypto, p: Peer, j: Join, keys: set<Bytes>)
    requires Gathering(c, p, keys) && (p.phase == Aborted || !JoinVerifies(c, p.terms, j) || j.key in p.joins)
    ensures Gathering(c, p, keys + KeysShown(c, p.terms, [j]))
  {
    hide JoinVerifies, Consistent, RosterHash, InOrder;
    var more := keys + KeysShown(c, p.terms, [j]);
    if p.phase == Aborted {
      SubsetSize(keys, more);
    } else {
      assert more == keys by {
        forall k | k in KeysShown(c, p.terms, [j]) ensures k in keys {
          assert k == j.key;
        }
      }
    }
  }

  /** Recomputing turns verified joins, at most one over the seats, into the verdict
      on their keys. */
  lemma RecomputeIsVerdict(c: Crypto, q: Peer)
    requires q.phase in {Joining, Formed} && q.reason == NoReason && JoinsStand(c, q.terms, q.joins)
    requires 2 <= q.terms.seats <= MAX_MEMBERS && q.joins != map[] && |q.joins| <= q.terms.seats + 1
    ensures
      var r := Recompute(c, q);
      OutcomeOf(r) == Verdict(c, q.terms, q.joins.Keys) && r == q.(phase := r.phase, reason := r.reason,
        canonical := r.canonical, roster := r.roster)
  {
    hide JoinVerifies, JoinsStand, RosterHash, InOrder, CanonicalMembers, Listing;
    assert |q.joins| == |q.joins.Keys|;
    if |q.joins| == q.terms.seats {
      VerifiedKeysAreUsable(c, q);
    }
  }

  lemma IsSound(c: Crypto, p: Peer)
    requires Consistent(c, p)
    ensures JoinsStand(c, p.terms, p.joins) && 2 <= p.terms.seats <= MAX_MEMBERS
    ensures p.phase != Aborted ==> p.reason == NoReason
  {
    hide JoinsStand, CommitsStand, SignJoin, RosterHash, InOrder;
  }

  lemma NewJoinGathers(c: Crypto, p: Peer, j: Join, keys: set<Bytes>)
    requires Gathering(c, p, keys) && p.phase != Aborted && JoinVerifies(c, p.terms, j) && j.key !in p.joins
    ensures
      var q := Admit(c, p, j);
      Gathering(c, q, keys + KeysShown(c, p.terms, [j])) && q.terms == p.terms
  {
    hide JoinVerifies, JoinsStand, Consistent, RosterHash, InOrder, Recompute;
    var q := p.(joins := p.joins[j.key := j]);
    AdmitKeeps(c, p, j);
    IsSound(c, p);
    assert [j][0] in [j];
    assert q.joins.Keys == keys + KeysShown(c, p.terms, [j]);
    assert |p.joins| == |p.joins.Keys| && |q.joins| == |p.joins| + 1;
    assert JoinsStand(c, q.terms, q.joins) by { OneMoreStands(c, p, j); }
    RecomputeIsVerdict(c, q);
  }

  lemma OneMoreStands(c: Crypto, p: Peer, j: Join)
    requires JoinsStand(c, p.terms, p.joins) && JoinVerifies(c, p.terms, j)
    ensures JoinsStand(c, p.terms, p.joins[j.key := j])
  {
    hide JoinVerifies;
  }

  lemma AdmitGathers(c: Crypto, p: Peer, j: Join, keys: set<Bytes>)
    requires Gathering(c, p, keys)
    ensures
      var q := Admit(c, p, j);
      && Gathering(c, q, keys + KeysShown(c, p.terms, [j]))
      && q.terms == p.terms
  {
    hide JoinVerifies, Gathering, Recompute, KeysShown;
    if p.phase == Aborted || !JoinVerifies(c, p.terms, j) || j.key in p.joins {
      OldJoinGathers(c, p, j, keys);
      assert Admit(c, p, j) == p;
    } else {
      NewJoinGathers(c, p, j, keys);
    }
  }

  lemma {:induction false} AdmitAllGathers(c: Crypto, p: Peer, js: seq<Join>, keys: set<Bytes>)
    requires Gathering(c, p, keys)
    ensures
      var q := AdmitAll(c, p, js);
      && Gathering(c, q, keys + KeysShown(c, p.terms, js))
      && q.terms == p.terms
    decreases |js|
  {
    hide JoinVerifies, Admit, Gathering;
    if js == [] {
      assert keys + KeysShown(c, p.terms, js) == keys;
    } else {
      AdmitGathers(c, p, js[0], keys);
      AdmitAllGathers(c, Admit(c, p, js[0]), js[1..], keys + KeysShown(c, p.terms, [js[0]]));
      assert js == [js[0]] + js[1..];
      assert KeysShown(c, p.terms, js) == KeysShown(c, p.terms, [js[0]]) + KeysShown(c, p.terms, js[1..]);
      assert keys + KeysShown(c, p.terms, js) == keys + KeysShown(c, p.terms, [js[0]]) + KeysShown(c, p.terms, js[1..]);
    }
  }

  lemma DeliverGathers(c: Crypto, p: Peer, packet: Packet, keys: set<Bytes>)
    requires Gathering(c, p, keys)
    ensures
      var q := Deliver(c, p, packet);
      && Gathering(c, q, keys + KeysBrought(c, p.terms, packet))
      && q.terms == p.terms
  {
    hide JoinVerifies, AssertionVerifies, Admit, AdmitAll, JoinsStand, CommitsStand, SignJoin, RosterHash, InOrder,
      KeysShown;
    match packet
    case Claimed(j) => AdmitGathers(c, p, j, keys);
    case Relayed(a, js) =>
      if AssertionVerifies(c, p.terms, a) && AllVerify(c, p.terms, js) {
        if p.phase == Aborted {
          SubsetSize(keys, keys + KeysShown(c, p.terms, js));
        } else {
          var filed := p.(asserts := p.asserts[a.signer := a.roster]);
          AdmitAllGathers(c, filed, js, keys);
          RecomputeSettled(c, AdmitAll(c, filed, js));
        }
      } else {
        assert keys + {} == keys;
      }
  }

  lemma {:induction false} DeliverAllGathers(c: Crypto, p: Peer, packets: seq<Packet>, keys: set<Bytes>)
    requires Gathering(c, p, keys)
    ensures Gathering(c, DeliverAll(c, p, packets), keys + KeysDelivered(c, p.terms, packets))
    ensures DeliverAll(c, p, packets).terms == p.terms
    decreases |packets|
  {
    hide Gathering, Deliver, KeysBrought;
    if packets == [] {
      assert keys + {} == keys;
    } else {
      DeliverGathers(c, p, packets[0], keys);
      var more := keys + KeysBrought(c, p.terms, packets[0]);
      DeliverAllGathers(c, Deliver(c, p, packets[0]), packets[1..], more);
      assert keys + KeysDelivered(c, p.terms, packets) == more + KeysDelivered(c, p.terms, packets[1..]);
    }
  }

  /** The keys that answered decide the outcome, whatever brought them. */
  lemma OutcomeIsVerdict(c: Crypto, p: Peer, packets: seq<Packet>)
    requires Consistent(c, p) && p.phase in {Joining, Formed} && !p.closed
    ensures
      var keys, q := p.joins.Keys + KeysDelivered(c, p.terms, packets), DeliverAll(c, p, packets);
      && OutcomeOf(q) == Verdict(c, p.terms, keys)
      && (|keys| <= p.terms.seats ==> q.joins.Keys == keys)
  {
    hide Consistent, Deliver, KeysBrought;
    StartsGathering(c, p);
    DeliverAllGathers(c, p, packets, p.joins.Keys);
  }

  /** Two deliveries that bring the same keys, in any order and with any
      repetition, leave the same state, membership and roster hash; when more
      keys answered than there are seats, both end in the same abort. */
  lemma FormationIsConfluent(c: Crypto, p: Peer, first: seq<Packet>, second: seq<Packet>)
    requires Consistent(c, p) && p.phase in {Joining, Formed} && !p.closed
    requires KeysDelivered(c, p.terms, first) == KeysDelivered(c, p.terms, second)
    ensures OutcomeOf(DeliverAll(c, p, first)) == OutcomeOf(DeliverAll(c, p, second))
    ensures |p.joins.Keys + KeysDelivered(c, p.terms, first)| > p.terms.seats <==>
      DeliverAll(c, p, first).phase == Aborted
  {
    hide Consistent, DeliverAll, KeysDelivered;
    OutcomeIsVerdict(c, p, first);
    OutcomeIsVerdict(c, p, second);
  }
}
