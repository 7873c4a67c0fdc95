/** What a restart takes from a record: everything it shows, each part verified anew, and
    nothing besides. */
module Records {
  import opened ByteStrings
  import opened Escrow
  import opened Finance
  import opened Messages
  import opened Formation
  import opened TableStore

  function JoinKeys(js: seq<Join>): set<Bytes> { set j | j in js :: j.key }
  function Signers(ms: seq<Commit>): set<Bytes> { set m | m in ms :: m.signer }

  predicate Gathering(p: Peer) { p.phase in {Joining, Formed} && !p.closed }

  lemma {:induction false} OverStaysOver(c: Crypto, p: Peer, js: seq<Join>)
    requires p.phase == Aborted && JoinAll(c, p, js).Some?
    ensures JoinAll(c, p, js).value.phase == Aborted
    decreases |js|
  {
    if js != [] {
      OverStaysOver(c, Admit(c, p, js[0]), js[1..]);
    }
  }

  lemma {:induction false} GivenUpStaysGivenUp(c: Crypto, p: Peer, ms: seq<Commit>)
    requires p.phase == Aborted && CommitAll(c, p, ms).Some?
    ensures CommitAll(c, p, ms).value.phase == Aborted
    decreases |ms|
  {
    hide CommitVerifies;
    if ms != [] {
      GivenUpStaysGivenUp(c, TakeCommit(c, p, ms[0]), ms[1..]);
    }
  }

  lemma RecomputeHoldsJoins(c: Crypto, p: Peer)
    ensures Recompute(c, p).joins == p.joins
    ensures p.phase in {Joining, Formed} ==> Recompute(c, p).phase in {Joining, Formed, Aborted}
  {
    hide Recompute;
    RecomputePhases(c, p);
    if why :| Recompute(c, p) == Abort(p, why) {
    }
  }

  /** One join that verifies is held, unless the table ends of it. */
  lemma JoinIsHeld(c: Crypto, p: Peer, j: Join)
    requires Gathering(p) && JoinVerifies(c, p.terms, j) && Admit(c, p, j).phase != Aborted
    ensures
      var q := Admit(c, p, j);
      && Gathering(q) && q.joins.Keys == p.joins.Keys + {j.key} && q.terms == p.terms && q.commits == p.commits
  {
    hide JoinVerifies, Recompute;
    RecomputeHoldsJoins(c, p.(joins := p.joins[j.key := j]));
    RecomputeLeaves(c, p.(joins := p.joins[j.key := j]));
  }

  lemma {:induction false} JoinsAreHeld(c: Crypto, p: Peer, js: seq<Join>)
    requires Gathering(p) && JoinAll(c, p, js).Some? && JoinAll(c, p, js).value.phase != Aborted
    ensures
      var q := JoinAll(c, p, js).value;
      && Gathering(q) && q.joins.Keys == p.joins.Keys + JoinKeys(js) && q.terms == p.terms && q.commits == p.commits
    ensures forall j :: j in js ==> JoinVerifies(c, p.terms, j)
    decreases |js|
  {
    hide JoinVerifies, Admit;
    if js == [] {
      assert JoinKeys(js) == {};
    } else {
      var q := Admit(c, p, js[0]);
      if q.phase == Aborted {
        OverStaysOver(c, q, js[1..]);
      }
      JoinIsHeld(c, p, js[0]);
      JoinsAreHeld(c, q, js[1..]);
      assert forall j :: j in js <==> j == js[0] || j in js[1..];
      assert JoinKeys(js) == {js[0].key} + JoinKeys(js[1..]);
    }
  }

  lemma CommitIsHeld(c: Crypto, p: Peer, m: Commit)
    requires Consistent(c, p) && CommitVerifies(c, p.terms, m) && p.phase != Aborted
    requires TakeCommit(c, p, m).phase != Aborted
    ensures
      var q := TakeCommit(c, p, m);
      && Consistent(c, q) && q.joins == p.joins && q.terms == p.terms && q.commits.Keys == p.commits.Keys + {m.signer}
  {
    hide Consistent, CommitVerifies, Recompute;
    CommitKeeps(c, p, m);
    if m.signer !in p.commits {
      RecomputeHoldsJoins(c, p.(commits := p.commits[m.signer := m]));
      RecomputeLeaves(c, p.(commits := p.commits[m.signer := m]));
    }
  }

  lemma {:induction false} CommitsAreHeld(c: Crypto, p: Peer, ms: seq<Commit>)
    requires Consistent(c, p) && p.phase != Aborted
    requires CommitAll(c, p, ms).Some? && CommitAll(c, p, ms).value.phase != Aborted
    ensures
      var q := CommitAll(c, p, ms).value;
      && q.joins == p.joins && q.terms == p.terms && q.commits.Keys == p.commits.Keys + Signers(ms)
    ensures forall m :: m in ms ==> CommitVerifies(c, p.terms, m)
    decreases |ms|
  {
    hide Consistent, CommitVerifies, TakeCommit;
    if ms == [] {
      assert Signers(ms) == {};
    } else {
      var q := TakeCommit(c, p, ms[0]);
      if q.phase == Aborted {
        GivenUpStaysGivenUp(c, q, ms[1..]);
      }
      CommitIsHeld(c, p, ms[0]);
      CommitsAreHeld(c, q, ms[1..]);
      assert forall m :: m in ms <==> m == ms[0] || m in ms[1..];
      assert Signers(ms) == {ms[0].signer} + Signers(ms[1..]);
    }
  }

  lemma BindHoldsJoins(c: Crypto, p: Peer)
    requires p.phase in {Joining, Formed}
    ensures Bind(c, p).joins == p.joins && Bind(c, p).terms == p.terms
    ensures Bind(c, p).commits.Keys == if p.phase == Formed then p.commits.Keys + {p.Self()} else p.commits.Keys
  {
    hide Recompute, SignCommit;
    var q := p.(commits := p.commits[p.Self() := SignCommit(c, p.terms, p.roster, p.Self())], phase := Committed);
    RecomputeHoldsJoins(c, q);
    RecomputeLeaves(c, q);
  }

  /** A table that comes back, and had not ended, holds exactly this peer's own join and
      those recorded, and exactly the recorded commits and its own if it was bound; every
      one of them verifies at the recorded terms, whatever the record was made to say. */
  lemma RebuiltIsVerified(c: Crypto, rec: Record, k: Credentials, held: bool, loads: bool)
    requires SignsTruly(c) && ResumeOf(c, rec, k, held, loads).Table?
    requires ResumeOf(c, rec, k, held, loads).peer.phase != Aborted
    ensures
      var p := ResumeOf(c, rec, k, held, loads).peer;
      && p.terms == rec.terms && p.joins.Keys == {k.session} + JoinKeys(rec.joins)
      && p.commits.Keys == (if rec.bound.Some? then {k.session} else {}) + Signers(rec.commits)
      && (rec.beacon.Some? ==> rec.beacon.value != [])
    ensures forall j :: j in rec.joins ==> JoinVerifies(c, rec.terms, j)
    ensures forall m :: m in rec.commits ==> CommitVerifies(c, rec.terms, m)
  {
    hide SignsTruly, Consistent, New, JoinAll, CommitAll, Bind, JoinVerifies, CommitVerifies, ValidTerms;
    var begun := New(c, rec.terms, k).value;
    var joined := JoinAll(c, begun, rec.joins).value;
    var bound := Rebind(c, joined, rec.bound).value;
    var p := CommitAll(c, bound, rec.commits).value;
    NewIsConsistent(c, rec.terms, k);
    SelfIsKept(c, rec.terms, k, rec.joins);
    ReplayHolds(c, begun, joined, bound, p, rec);
  }

  lemma ReplayHolds(c: Crypto, begun: Peer, joined: Peer, bound: Peer, p: Peer, rec: Record)
    requires SignsTruly(c) && Consistent(c, begun) && Gathering(begun)
    requires JoinAll(c, begun, rec.joins) == Some(joined) && Rebind(c, joined, rec.bound) == Some(bound)
    requires CommitAll(c, bound, rec.commits) == Some(p) && p.phase != Aborted
    ensures p.terms == begun.terms && p.joins.Keys == begun.joins.Keys + JoinKeys(rec.joins)
    ensures p.commits.Keys ==
      begun.commits.Keys + (if rec.bound.Some? then {joined.Self()} else {}) + Signers(rec.commits)
    ensures forall j :: j in rec.joins ==> JoinVerifies(c, begun.terms, j)
    ensures forall m :: m in rec.commits ==> CommitVerifies(c, begun.terms, m)
  {
    hide SignsTruly, Consistent, JoinAll, CommitAll, Bind, JoinVerifies, CommitVerifies, Signers, JoinKeys;
    JoinAllKeeps(c, begun, rec.joins);
    if joined.phase == Aborted {
      assert bound == joined;
      GivenUpStaysGivenUp(c, bound, rec.commits);
    }
    JoinsAreHeld(c, begun, rec.joins);
    RebindHolds(c, joined, rec.bound, bound);
    CommitsAreHeld(c, bound, rec.commits);
  }

  lemma RebindHolds(c: Crypto, p: Peer, b: Option<Hash32>, q: Peer)
    requires SignsTruly(c) && Consistent(c, p) && Gathering(p) && Rebind(c, p, b) == Some(q)
    ensures Consistent(c, q) && q.phase != Aborted && q.joins == p.joins && q.terms == p.terms
    ensures q.commits.Keys == p.commits.Keys + if b.Some? then {p.Self()} else {}
  {
    hide SignsTruly, Consistent, Bind;
    BindKeeps(c, p);
    BindHoldsJoins(c, p);
  }

  lemma SelfIsKept(c: Crypto, t: TableTerms, k: Credentials, js: seq<Join>)
    requires New(c, t, k).Some? && JoinAll(c, New(c, t, k).value, js).Some?
    ensures JoinAll(c, New(c, t, k).value, js).value.Self() == k.session
    ensures New(c, t, k).value.joins.Keys == {k.session} && New(c, t, k).value.commits == map[]
  {
    hide Consistent, New, JoinAll;
    NewIsConsistent(c, t, k);
    JoinAllSelf(c, New(c, t, k).value, js);
  }

  lemma {:induction false} JoinAllSelf(c: Crypto, p: Peer, js: seq<Join>)
    requires JoinAll(c, p, js).Some?
    ensures JoinAll(c, p, js).value.creds == p.creds
    decreases |js|
  {
    hide JoinVerifies, Recompute;
    if js != [] {
      RecomputeLeaves(c, p.(joins := p.joins[js[0].key := js[0]]));
      JoinAllSelf(c, Admit(c, p, js[0]), js[1..]);
    }
  }

  /** A table comes back as accepted and not yet joined exactly when its record shows no
      join, no commitment and no beacon and nothing stands in the way. */
  lemma AcceptedIsEmpty(c: Crypto, rec: Record, k: Credentials, held: bool, loads: bool)
    ensures ResumeOf(c, rec, k, held, loads) == Accepted <==>
      && rec.joins == [] && rec.bound == None && rec.beacon == None
      && ValidTerms(rec.terms) && loads && (rec.aborted.Some? ==> held)
  {
    hide ValidTerms, Rebuild;
  }
}
