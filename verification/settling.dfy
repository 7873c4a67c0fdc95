/** Agreement is not about nothing: peers that read the same terms form one table
    when their joins arrive and settle it when their commits do, and two honest
    peers reach that in a run. */
module Settling {
  import opened ByteStrings
  import opened Escrow
  import opened Finance
  import opened Messages
  import opened Formation
  import opened Agreement
  import opened TableStore
  import Confluence

  /** Some run leads there; a clean one forgets no commitment. */
  ghost predicate Reaches(c: Crypto, w: World, v: World, clean: bool) {
    exists events :: Leads(c, w, events, v) && (clean ==> NeverForgets(c, w, events))
  }

  lemma {:induction false} LeadsOn(c: Crypto, w: World, first: seq<Event>, v: World, after: seq<Event>, end: World)
    requires Leads(c, w, first, v) && Leads(c, v, after, end)
    ensures Leads(c, w, first + after, end)
    ensures NeverForgets(c, w, first) && NeverForgets(c, v, after) ==> NeverForgets(c, w, first + after)
    decreases |first|
  {
    hide Next, Vouched, CommitVerifies, Forgets;
    if first == [] {
      assert first + after == after;
    } else {
      assert (first + after)[0] == first[0] && (first + after)[1..] == first[1..] + after;
      LeadsOn(c, Next(c, w, first[0]), first[1..], v, after, end);
    }
  }

  lemma OneStep(c: Crypto, v: World, e: Event)
    requires Possible(c, v, e)
    ensures Leads(c, v, [e], Next(c, v, e)) && (!Forgets(v, e) ==> NeverForgets(c, v, [e]))
  {
    hide Next, Forgets, Vouched, CommitVerifies;
    assert [e][1..] == [];
    assert Leads(c, Next(c, v, e), [e][1..], Next(c, v, e));
  }

  lemma ReachesNext(c: Crypto, w: World, v: World, e: Event, clean: bool)
    requires Reaches(c, w, v, clean) && Possible(c, v, e) && (clean ==> !Forgets(v, e))
    ensures Reaches(c, w, Next(c, v, e), clean)
  {
    hide Next, Vouched, CommitVerifies, Forgets, Leads, NeverForgets;
    var events :| Leads(c, w, events, v) && (clean ==> NeverForgets(c, w, events));
    OneStep(c, v, e);
    LeadsOn(c, w, events, v, [e], Next(c, v, e));
  }

  lemma ReachesItself(c: Crypto, w: World, clean: bool)
    ensures Reaches(c, w, w, clean)
  {
    hide Next, Forgets, Possible;
    assert Leads(c, w, [], w) && NeverForgets(c, w, []);
  }

  function Sayings(k: Bytes, t: TableTerms, said: set<Statement>): set<Saying> { set s | s in said :: Saying(k, t, s) }

  /** One deed of one process, by what it does to the process and what it says. */
  lemma Step(c: Crypto, w: World, v: World, k: Bytes, d: Deed, n: Node, t: TableTerms, said: set<Statement>,
      clean: bool)
    requires Reaches(c, w, v, clean) && Possible(c, v, Event(k, d)) && (clean ==> !Forgets(v, Event(k, d)))
    requires k in v.nodes && OnNode(c, v.nodes[k], d) == n && Says(c, v.nodes[k], d) == said
    requires TermsOf(v.nodes[k], d) == t
    ensures Reaches(c, w, World(v.nodes[k := n], v.signed + Sayings(k, t, said)), clean)
  {
    hide Reaches, OnNode, Says, Possible, Forgets;
    ReachesNext(c, w, v, Event(k, d), clean);
    assert Next(c, v, Event(k, d)) == World(v.nodes[k := n], v.signed + Sayings(k, t, said));
  }

  // ---- One peer's way there ----

  /** The four states of a peer that meets one other and hears its commit. */
  ghost function Met(c: Crypto, t: TableTerms, k: Credentials, j: Join): Peer
    requires New(c, t, k).Some?
  {
    Admit(c, New(c, t, k).value, j)
  }

  ghost function PairRoster(c: Crypto, t: TableTerms, a: Bytes, b: Bytes): Hash32 {
    RosterHash(c, t, InOrder({a, b}))
  }

  /** A peer that hears joins under as many keys as there are seats, its own among
      them, forms the table of those keys. */
  lemma MeetingForms(c: Crypto, t: TableTerms, k: Credentials, js: seq<Join>)
    requires New(c, t, k).Some? && |{k.session} + Confluence.KeysShown(c, t, js)| == t.seats
    ensures
      var p := AdmitAll(c, New(c, t, k).value, js);
      var keys := {k.session} + Confluence.KeysShown(c, t, js);
      && Consistent(c, p) && p.phase == Formed && p.terms == t && p.creds == k && p.commits == map[]
      && p.joins.Keys == keys && p.canonical == Some(InOrder(keys)) && p.roster == RosterHash(c, t, InOrder(keys))
  {
    hide Consistent, JoinVerifies, SignJoin, RosterHash, InOrder, Confluence.KeysShown;
    NewIsConsistent(c, t, k);
    var p0 := New(c, t, k).value;
    Confluence.StartsGathering(c, p0);
    Confluence.AdmitAllGathers(c, p0, js, {k.session});
    AdmitAllSpares(c, p0, js);
  }

  /** Meeting one other is hearing its one join. */
  lemma PairForms(c: Crypto, t: TableTerms, k: Credentials, j: Join)
    requires New(c, t, k).Some? && t.seats == 2 && JoinVerifies(c, t, j) && j.key != k.session
    ensures
      var p := Met(c, t, k, j);
      && Consistent(c, p) && p.phase == Formed && p.terms == t && p.creds == k && p.commits == map[]
      && p.roster == PairRoster(c, t, k.session, j.key) && p.canonical == Some(InOrder({k.session, j.key}))
  {
    hide JoinVerifies, Consistent, RosterHash, InOrder, New, Admit;
    var js := [j];
    assert js[0] in js && Confluence.KeysShown(c, t, js) == {j.key};
    assert {k.session} + {j.key} == {k.session, j.key};
    MeetingForms(c, t, k, js);
    AdmitsOne(c, New(c, t, k).value, j);
  }

  lemma AdmitsOne(c: Crypto, p: Peer, j: Join)
    ensures AdmitAll(c, p, [j]) == Admit(c, p, j)
  {
    hide Admit;
    assert [j][1..] == [];
  }

  lemma BindingCommits(c: Crypto, p: Peer, b: Bytes)
    requires SignsTruly(c) && Consistent(c, p) && p.phase == Formed && p.commits == map[]
    requires p.canonical == Some(InOrder({p.Self(), b})) && b != p.Self()
    ensures
      var q := Bind(c, p);
      && Consistent(c, q)
      && q == p.(commits := map[p.Self() := SignCommit(c, p.terms, p.roster, p.Self())], phase := Committed)
  {
    hide SignsTruly, Consistent, SignCommit, RosterHash, InOrder, CanonicalMembers, Listing;
    BindKeeps(c, p);
    InOrderHolds({p.Self(), b});
    assert b in InOrder({p.Self(), b});
  }

  ghost function HearAll(c: Crypto, p: Peer, ms: seq<Commit>): Peer
    decreases |ms|
  {
    if ms == [] then p else HearAll(c, TakeCommit(c, p, ms[0]), ms[1..])
  }

  predicate Answers(c: Crypto, p: Peer, m: Commit) { CommitVerifies(c, p.terms, m) && m.roster == p.roster }

  /** Bound to one roster with everyone heard so far. */
  predicate AgreedSoFar(p: Peer) {
    p.phase in {Committed, Settled} && forall k :: k in p.commits ==> p.commits[k].roster == p.roster
  }

  lemma HearingOne(c: Crypto, p: Peer, m: Commit)
    requires Consistent(c, p) && AgreedSoFar(p) && Answers(c, p, m)
    ensures
      var q := TakeCommit(c, p, m);
      && Consistent(c, q) && AgreedSoFar(q) && q.commits.Keys == p.commits.Keys + {m.signer}
      && q == p.(commits := q.commits, phase := q.phase)
  {
    hide Consistent, CommitVerifies, RosterHash, InOrder, CanonicalMembers, Listing;
    CommitKeeps(c, p, m);
  }

  /** A bound peer that hears commits to its own roster settles exactly when every
      member of the table is among those it has heard. */
  lemma {:induction false} HearingSettles(c: Crypto, p: Peer, ms: seq<Commit>)
    requires Consistent(c, p) && AgreedSoFar(p) && forall i :: 0 <= i < |ms| ==> Answers(c, p, ms[i])
    ensures
      var q := HearAll(c, p, ms);
      && q == p.(commits := q.commits, phase := q.phase) && p.canonical.Some?
      && (q.phase == Settled <==>
           forall k :: k in p.canonical.value ==> k in p.commits || exists i :: 0 <= i < |ms| && ms[i].signer == k)
    decreases |ms|
  {
    hide Consistent, CommitVerifies, TakeCommit;
    if ms == [] {
      SettledIsAllBound(c, p);
    } else {
      var q := TakeCommit(c, p, ms[0]);
      assert Answers(c, p, ms[0]);
      HearingOne(c, p, ms[0]);
      forall i | 0 <= i < |ms[1..]| ensures Answers(c, q, ms[1..][i]) {
        assert Answers(c, p, ms[i + 1]);
      }
      HearingSettles(c, q, ms[1..]);
      forall k ensures (k in q.commits || exists i :: 0 <= i < |ms[1..]| && ms[1..][i].signer == k)
                  <==> (k in p.commits || exists i :: 0 <= i < |ms| && ms[i].signer == k) {
        HeardLater(p.commits.Keys, ms, k);
      }
    }
  }

  lemma HeardLater(heard: set<Bytes>, ms: seq<Commit>, k: Bytes)
    requires ms != []
    ensures (k in heard + {ms[0].signer} || exists i :: 0 <= i < |ms[1..]| && ms[1..][i].signer == k)
       <==> (k in heard || exists i :: 0 <= i < |ms| && ms[i].signer == k)
  {
    if i :| 0 <= i < |ms| && ms[i].signer == k && i > 0 {
      assert ms[1..][i - 1].signer == k;
    }
    if i :| 0 <= i < |ms[1..]| && ms[1..][i].signer == k {
      assert ms[i + 1].signer == k;
    }
  }

  lemma SettledIsAllBound(c: Crypto, p: Peer)
    requires Consistent(c, p) && AgreedSoFar(p)
    ensures p.canonical.Some? && (p.phase == Settled <==> forall k :: k in p.canonical.value ==> k in p.commits)
  {
    hide JoinsStand, CommitsStand, SignJoin, SignCommit, RosterHash, InOrder;
  }

  /** Of two members, hearing the other is hearing everyone. */
  lemma PairHearing(c: Crypto, p: Peer, m: Commit)
    requires Consistent(c, p) && p.phase == Committed && p.Self() != m.signer
    requires p.commits == map[p.Self() := SignCommit(c, p.terms, p.roster, p.Self())]
    requires p.canonical == Some(InOrder({p.Self(), m.signer}))
    requires CommitVerifies(c, p.terms, m) && m.roster == p.roster
    ensures
      var q := TakeCommit(c, p, m);
      q.phase == Settled && q.canonical == p.canonical && q.roster == p.roster && q.terms == p.terms
  {
    hide Consistent, CommitVerifies, InOrder, TakeCommit;
    InOrderHolds({p.Self(), m.signer});
    var ms := [m];
    assert ms[0].signer == m.signer && ms[1..] == [];
    HearingSettles(c, p, ms);
    assert HearAll(c, p, ms) == TakeCommit(c, p, m);
  }

  // ---- One process, deed by deed ----

  ghost function Began(c: Crypto, t: TableTerms, k: Credentials): Node { At(t, k, New(c, t, k), None, None, false) }

  /** A process in good order. */
  function At(t: TableTerms, k: Credentials, live: Option<Peer>, disk: Option<Peer>, unsent: Option<Commit>,
      kept: bool): Node
  {
    Node(t, k, live, disk, false, unsent, kept, false, false, false)
  }

  function OwnCommit(c: Crypto, t: TableTerms, k: Credentials, p: Peer): Commit {
    SignCommit(c, t, p.roster, k.session)
  }

  ghost function Kept(c: Crypto, t: TableTerms, k: Credentials, p: Peer): Node {
    At(t, k, Some(Bind(c, p)), Some(Bind(c, p)), Some(OwnCommit(c, t, k, p)), true)
  }

  lemma NodeRuns(c: Crypto, n: Node, t: TableTerms, k: Credentials, j: Join)
    requires Admits(n) && New(c, t, k).Some? && |k.session| == KEY_LEN && Met(c, t, k, j).phase == Formed
    ensures OnNode(c, n, Begin(t, k, Saved)) == Began(c, t, k)
    ensures Says(c, n, Begin(t, k, Saved)) == {Joins(SignJoin(c, t, k))}
    ensures
      var p := Met(c, t, k, j);
      var m := OwnCommit(c, t, k, p);
      var q := Some(Bind(c, p));
      && OnNode(c, Began(c, t, k), TakesJoin(j)) == At(t, k, Some(p), None, None, false)
      && OnNode(c, At(t, k, Some(p), None, None, false), Binds) == At(t, k, q, None, Some(m), false)
      && OnNode(c, At(t, k, q, None, Some(m), false), Keeps(Saved)) == Kept(c, t, k, p)
    ensures
      var p := Met(c, t, k, j);
      && OnNode(c, Kept(c, t, k, p), Publishes) == Kept(c, t, k, p)
      && Says(c, Kept(c, t, k, p), Publishes) == {Commits(p.roster)}
  {
    hide New, SignJoin, Bind, Admit, SignCommit;
    assert SignCommit(c, t, Met(c, t, k, j).roster, k.session).roster == Met(c, t, k, j).roster by {
      CommitNames(c, t, Met(c, t, k, j).roster, k.session);
    }
  }

  lemma CommitNames(c: Crypto, t: TableTerms, r: Hash32, k: Bytes)
    ensures SignCommit(c, t, r, k).roster == r && SignCommit(c, t, r, k).signer == k
  {
  }

  /** A deed that says nothing, hears no commit and erases nothing. */
  lemma Quietly(c: Crypto, w: World, v: World, k: Bytes, d: Deed, n: Node, clean: bool)
    requires Reaches(c, w, v, clean) && k in v.nodes && OnNode(c, v.nodes[k], d) == n
    requires d.TakesJoin? || d.Binds? || d.Keeps?
    ensures Reaches(c, w, World(v.nodes[k := n], v.signed), clean)
  {
    hide Reaches, OnNode;
    Step(c, w, v, k, d, n, v.nodes[k].terms, {}, clean);
    assert v.signed + Sayings(k, v.nodes[k].terms, {}) == v.signed;
  }

  /** What a process that met one other and committed has said. */
  ghost function Spoken(c: Crypto, t: TableTerms, k: Credentials, p: Peer): set<Saying>
    requires |k.session| == KEY_LEN
  {
    {Saying(k.session, t, Joins(SignJoin(c, t, k))), Saying(k.session, t, Commits(p.roster))}
  }

  /** A process that takes up an invitation, meets one other, binds, keeps and
      publishes, whatever the others do. */
  lemma Speaks(c: Crypto, w: World, v: World, t: TableTerms, k: Credentials, j: Join, clean: bool)
    requires Reaches(c, w, v, clean) && k.session in v.nodes && Admits(v.nodes[k.session])
    requires New(c, t, k).Some? && |k.session| == KEY_LEN && Met(c, t, k, j).phase == Formed
    requires clean ==> Commitments(v.signed, k.session) == {}
    ensures
      var p := Met(c, t, k, j);
      Reaches(c, w, World(v.nodes[k.session := Kept(c, t, k, p)], v.signed + Spoken(c, t, k, p)), clean)
  {
    hide New, Reaches, SignJoin, SignCommit, Bind, Admit, OnNode, Says, Met, Admits, Commitments, Kept;
    var s, p := k.session, Met(c, t, k, j);
    NodeRuns(c, v.nodes[s], t, k, j);
    var n1, n2 := Began(c, t, k), At(t, k, Some(p), None, None, false);
    var n3, n4 := At(t, k, Some(Bind(c, p)), None, Some(OwnCommit(c, t, k, p)), false), Kept(c, t, k, p);
    var joined := v.signed + Sayings(s, t, {Joins(SignJoin(c, t, k))});
    Step(c, w, v, s, Begin(t, k, Saved), n1, t, {Joins(SignJoin(c, t, k))}, clean);
    var v1, v2 := World(v.nodes[s := n1], joined), World(v.nodes[s := n2], joined);
    var v3, v4 := World(v.nodes[s := n3], joined), World(v.nodes[s := n4], joined);
    Quietly(c, w, v1, s, TakesJoin(j), n2, clean);
    assert v1.nodes[s := n2] == v2.nodes;
    Quietly(c, w, v2, s, Binds, n3, clean);
    assert v2.nodes[s := n3] == v3.nodes;
    Quietly(c, w, v3, s, Keeps(Saved), n4, clean);
    assert v3.nodes[s := n4] == v4.nodes;
    assert n4.terms == t by { KeptIsAt(c, t, k, p); }
    Step(c, w, v4, s, Publishes, n4, t, {Commits(p.roster)}, clean);
    assert v4.nodes[s := n4] == v4.nodes;
    assert joined + Sayings(s, t, {Commits(p.roster)}) == v.signed + Spoken(c, t, k, p);
  }

  lemma KeptIsAt(c: Crypto, t: TableTerms, k: Credentials, p: Peer)
    ensures Kept(c, t, k, p).terms == t
  {
  }

  /** A process that hears a commit its key's owner let out. */
  lemma Hears(c: Crypto, w: World, v: World, k: Bytes, m: Commit, p: Peer, clean: bool)
    requires Reaches(c, w, v, clean) && k in v.nodes && v.nodes[k].live == Some(p) && !v.nodes[k].retired
    requires Saying(m.signer, v.nodes[k].terms, Commits(m.roster)) in v.signed
    ensures Reaches(c, w, World(v.nodes[k := v.nodes[k].(live := Some(TakeCommit(c, p, m)))], v.signed), clean)
  {
    hide Reaches, TakeCommit, SignCommit, TermsHash, CommitBytes;
    var n, t := v.nodes[k], v.nodes[k].terms;
    var x := Saying(m.signer, t, Commits(m.roster));
    assert c.hash(StatementBytes(c, x.terms, x.what)) == CommitDigest(c, t, m.roster);
    assert m.signer in v.nodes ==> Vouched(c, v, m.signer, CommitDigest(c, t, m.roster));
    HearsOne(c, n, p, m);
    Step(c, w, v, k, TakesCommit(m), n.(live := Some(TakeCommit(c, p, m))), t, {}, clean);
    assert v.signed + Sayings(k, t, {}) == v.signed;
  }

  lemma HearsOne(c: Crypto, n: Node, p: Peer, m: Commit)
    requires n.live == Some(p) && !n.retired
    ensures OnNode(c, n, TakesCommit(m)) == n.(live := Some(TakeCommit(c, p, m)))
    ensures Says(c, n, TakesCommit(m)) == {} && TermsOf(n, TakesCommit(m)) == n.terms
  {
    hide TakeCommit, SignCommit;
  }

  // ---- Two meet ----

  lemma OwnJoins(c: Crypto, t: TableTerms, k: Credentials)
    requires New(c, t, k).Some?
    ensures |k.session| == KEY_LEN && SignJoin(c, t, k).key == k.session && JoinVerifies(c, t, SignJoin(c, t, k))
  {
    hide JoinVerifies;
  }

  lemma CommitsAreTheirs(c: Crypto, t: TableTerms, k: Credentials, r: Hash32)
    requires SignsTruly(c) && New(c, t, k).Some?
    ensures
      var m := SignCommit(c, t, r, k.session);
      CommitVerifies(c, t, m) && m.signer == k.session && m.roster == r
  {
    hide JoinVerifies, SignJoin, SignsTruly;
    OwnJoins(c, t, k);
    JoinNamesKey(c, t, SignJoin(c, t, k));
    OwnCommitVerifies(c, t, r, k.session);
  }

  /** What comes of credentials meeting another's join, and of hearing its commit. */
  lemma MeetsAndHears(c: Crypto, t: TableTerms, k: Credentials, o: Credentials)
    requires SignsTruly(c) && t.seats == 2 && k.session != o.session && New(c, t, k).Some? && New(c, t, o).Some?
    ensures |k.session| == KEY_LEN && |o.session| == KEY_LEN
    ensures
      var p := Met(c, t, k, SignJoin(c, t, o));
      var r := PairRoster(c, t, k.session, o.session);
      var q := TakeCommit(c, Bind(c, p), SignCommit(c, t, r, o.session));
      && p.phase == Formed && p.roster == r && Bind(c, p).phase == Committed
      && q.phase == Settled && q.roster == r && q.canonical == Some(InOrder({k.session, o.session}))
  {
    hide SignsTruly, New, Met, SignJoin, SignCommit, Consistent, Bind, TakeCommit, CommitVerifies, InOrder,
      JoinVerifies, RosterHash;
    OwnJoins(c, t, k);
    OwnJoins(c, t, o);
    PairForms(c, t, k, SignJoin(c, t, o));
    var p := Met(c, t, k, SignJoin(c, t, o));
    BindingCommits(c, p, o.session);
    CommitsAreTheirs(c, t, o, p.roster);
    PairHearing(c, Bind(c, p), SignCommit(c, t, p.roster, o.session));
  }

  /** One side of a meeting: this process takes up the invitation and commits. */
  lemma SpeaksOfPair(c: Crypto, w: World, v: World, t: TableTerms, k: Credentials, o: Credentials, clean: bool)
    requires SignsTruly(c) && t.seats == 2 && k.session != o.session && New(c, t, k).Some? && New(c, t, o).Some?
    requires |k.session| == KEY_LEN && |o.session| == KEY_LEN
    requires Reaches(c, w, v, clean) && k.session in v.nodes && Admits(v.nodes[k.session])
    requires clean ==> Commitments(v.signed, k.session) == {}
    ensures
      var p := Met(c, t, k, SignJoin(c, t, o));
      Reaches(c, w, World(v.nodes[k.session := Kept(c, t, k, p)], v.signed + Spoken(c, t, k, p)), clean)
  {
    hide SignsTruly, New, Met, SignJoin, Reaches, Kept, Spoken, Admits, Commitments, TakeCommit, Bind, InOrder,
      PairRoster;
    MeetsAndHears(c, t, k, o);
    Speaks(c, w, v, t, k, SignJoin(c, t, o), clean);
  }

  function Idle(t: TableTerms, k: Credentials): Node { At(t, k, None, None, None, false) }

  /** A settled process, as its meeting left it. */
  ghost function Heard(c: Crypto, t: TableTerms, k: Credentials, o: Credentials): Node
    requires |o.session| == KEY_LEN && New(c, t, k).Some?
  {
    var p := Met(c, t, k, SignJoin(c, t, o));
    Kept(c, t, k, p).(live := Some(TakeCommit(c, Bind(c, p), SignCommit(c, t, p.roster, o.session))))
  }

  /** The other side: having committed, it hears the first one's commit and settles. */
  lemma HearsOfPair(c: Crypto, w: World, v: World, t: TableTerms, k: Credentials, o: Credentials, clean: bool)
    requires SignsTruly(c) && t.seats == 2 && k.session != o.session && New(c, t, k).Some? && New(c, t, o).Some?
    requires |k.session| == KEY_LEN && |o.session| == KEY_LEN
    requires Reaches(c, w, v, clean) && k.session in v.nodes
    requires v.nodes[k.session] == Kept(c, t, k, Met(c, t, k, SignJoin(c, t, o)))
    requires Saying(o.session, t, Commits(PairRoster(c, t, k.session, o.session))) in v.signed
    ensures Reaches(c, w, World(v.nodes[k.session := Heard(c, t, k, o)], v.signed), clean)
  {
    hide SignsTruly, New, Met, SignJoin, Reaches, TakeCommit, Bind, InOrder, PairRoster;
    MeetsAndHears(c, t, k, o);
    var p := Met(c, t, k, SignJoin(c, t, o));
    Hears(c, w, v, k.session, SignCommit(c, t, p.roster, o.session), Bind(c, p), clean);
  }

  lemma SameRoster(c: Crypto, t: TableTerms, a: Bytes, b: Bytes)
    ensures PairRoster(c, t, a, b) == PairRoster(c, t, b, a)
  {
    assert {a, b} == {b, a};
  }

  /** A process that has settled on this roster with exactly these members. */
  ghost predicate SettledAt(w: World, k: Bytes, r: Hash32, members: set<Bytes>) {
    && k in w.nodes && w.nodes[k].live.Some? && w.nodes[k].live.value.phase == Settled
    && w.nodes[k].live.value.roster == r && w.nodes[k].live.value.canonical == Some(InOrder(members))
  }

  lemma HeardSettles(c: Crypto, w: World, t: TableTerms, k: Credentials, o: Credentials)
    requires SignsTruly(c) && t.seats == 2 && k.session != o.session && New(c, t, k).Some? && New(c, t, o).Some?
    requires |o.session| == KEY_LEN && k.session in w.nodes && w.nodes[k.session] == Heard(c, t, k, o)
    ensures SettledAt(w, k.session, PairRoster(c, t, k.session, o.session), {k.session, o.session})
    ensures SettledAt(w, k.session, PairRoster(c, t, o.session, k.session), {o.session, k.session})
  {
    hide SignsTruly, New, Met, SignJoin, TakeCommit, Bind, InOrder, PairRoster;
    MeetsAndHears(c, t, k, o);
    SameRoster(c, t, k.session, o.session);
    assert {k.session, o.session} == {o.session, k.session};
  }

  lemma PairIsFresh(t: TableTerms, ka: Credentials, kb: Credentials)
    requires ka.session != kb.session
    ensures
      var w := Pair(t, ka, kb);
      && Fresh(w) && ka.session in w.nodes && Admits(w.nodes[ka.session])
      && kb.session in w.nodes && Admits(w.nodes[kb.session])
      && Commitments(w.signed, ka.session) == {} && Commitments(w.signed, kb.session) == {}
  {
  }

  /** Two processes that have taken up nothing yet. */
  function Pair(t: TableTerms, ka: Credentials, kb: Credentials): World {
    World(map[ka.session := Idle(t, ka), kb.session := Idle(t, kb)], {})
  }

  /** No process but these has changed. */
  predicate OthersSame(v: World, u: World, ks: set<Bytes>) {
    forall k :: k in v.nodes && k !in ks ==> k in u.nodes && u.nodes[k] == v.nodes[k]
  }

  /** A process in good order meets an idle one: both commit, and the other hears it
      and settles. */
  lemma MeetOne(c: Crypto, w: World, v: World, t: TableTerms, k: Credentials, o: Credentials, clean: bool)
    returns (u: World)
    requires SignsTruly(c) && t.seats == 2 && k.session != o.session && New(c, t, k).Some? && New(c, t, o).Some?
    requires |k.session| == KEY_LEN && |o.session| == KEY_LEN
    requires Reaches(c, w, v, clean) && k.session in v.nodes && o.session in v.nodes
    requires Admits(v.nodes[k.session]) && Admits(v.nodes[o.session])
    requires clean ==> Commitments(v.signed, k.session) == {} && Commitments(v.signed, o.session) == {}
    ensures Reaches(c, w, u, clean)
    ensures u.nodes.Keys == v.nodes.Keys && OthersSame(v, u, {k.session, o.session})
    ensures u.nodes[k.session] == Kept(c, t, k, Met(c, t, k, SignJoin(c, t, o)))
    ensures u.nodes[o.session] == Heard(c, t, o, k)
    ensures v.signed <= u.signed
    ensures Saying(o.session, t, Commits(PairRoster(c, t, k.session, o.session))) in u.signed
    ensures Saying(k.session, t, Commits(PairRoster(c, t, k.session, o.session))) in u.signed
  {
    hide SignsTruly, New, Met, Reaches, SignJoin, InOrder, TakeCommit, Bind, PairRoster, Heard, Kept;
    MeetsAndHears(c, t, k, o);
    MeetsAndHears(c, t, o, k);
    SameRoster(c, t, k.session, o.session);
    var p, q := Met(c, t, k, SignJoin(c, t, o)), Met(c, t, o, SignJoin(c, t, k));
    SpeaksOfPair(c, w, v, t, k, o, clean);
    var x := World(v.nodes[k.session := Kept(c, t, k, p)], v.signed + Spoken(c, t, k, p));
    assert Commitments(v.signed, o.session) == {} ==> Commitments(x.signed, o.session) == {};
    SpeaksOfPair(c, w, x, t, o, k, clean);
    var y := World(x.nodes[o.session := Kept(c, t, o, q)], x.signed + Spoken(c, t, o, q));
    HearsOfPair(c, w, y, t, o, k, clean);
    u := World(y.nodes[o.session := Heard(c, t, o, k)], y.signed);
  }

  /** Each of two meets the other and hears its commit. */
  lemma BothMeet(c: Crypto, w: World, t: TableTerms, ka: Credentials, kb: Credentials) returns (end: World)
    requires SignsTruly(c) && t.seats == 2 && ka.session != kb.session && New(c, t, ka).Some? && New(c, t, kb).Some?
    requires |ka.session| == KEY_LEN && |kb.session| == KEY_LEN && Reaches(c, w, w, true)
    requires ka.session in w.nodes && Admits(w.nodes[ka.session]) && Commitments(w.signed, ka.session) == {}
    requires kb.session in w.nodes && Admits(w.nodes[kb.session]) && Commitments(w.signed, kb.session) == {}
    ensures Reaches(c, w, end, true) && ka.session in end.nodes && kb.session in end.nodes
    ensures end.nodes[ka.session] == Heard(c, t, ka, kb) && end.nodes[kb.session] == Heard(c, t, kb, ka)
  {
    hide SignsTruly, New, Met, Reaches, SignJoin, InOrder, PairRoster, Heard, Kept, Admits, Commitments;
    var v := MeetOne(c, w, w, t, ka, kb, true);
    HearsOfPair(c, w, v, t, ka, kb, true);
    end := World(v.nodes[ka.session := Heard(c, t, ka, kb)], v.signed);
  }

  /** Two honest peers with the same two-seat terms reach a state where both have
      settled on one roster and one membership, in a run that forgets no commitment. */
  lemma SettledPairIsReached(c: Crypto, t: TableTerms, ka: Credentials, kb: Credentials) returns (end: World)
    requires SignsTruly(c) && t.seats == 2 && ka.session != kb.session
    requires New(c, t, ka).Some? && New(c, t, kb).Some?
    ensures Fresh(Pair(t, ka, kb)) && Reaches(c, Pair(t, ka, kb), end, true)
    ensures
      var r := PairRoster(c, t, ka.session, kb.session);
      SettledAt(end, ka.session, r, {ka.session, kb.session}) && SettledAt(end, kb.session, r, {ka.session, kb.session})
  {
    hide SignsTruly, New, Reaches, InOrder, PairRoster, Heard, Fresh, Pair, SettledAt, Admits, Commitments;
    OwnJoins(c, t, ka);
    OwnJoins(c, t, kb);
    PairIsFresh(t, ka, kb);
    ReachesItself(c, Pair(t, ka, kb), true);
    end := BothMeet(c, Pair(t, ka, kb), t, ka, kb);
    HeardSettles(c, end, t, ka, kb);
    HeardSettles(c, end, t, kb, ka);
  }

  // ---- A commitment forgotten ----

  /** Three processes that have taken up nothing yet. */
  function Trio(t: TableTerms, ks: Credentials, ka: Credentials, kz: Credentials): World {
    World(map[ks.session := Idle(t, ks), ka.session := Idle(t, ka), kz.session := Idle(t, kz)], {})
  }

  /** A restart whose record is refused leaves the process without a table and the
      record as it was. */
  lemma RefusedRestart(c: Crypto, w: World, v: World, t: TableTerms, k: Credentials, p: Peer)
    requires Reaches(c, w, v, false) && k.session in v.nodes && v.nodes[k.session] == Kept(c, t, k, p)
    requires Bind(c, p).phase == Committed
    ensures Reaches(c, w, World(v.nodes[k.session := At(t, k, None, Some(Bind(c, p)), None, false)], v.signed), false)
  {
    hide Reaches, Bind, ResumeOf;
    var n := At(t, k, None, Some(Bind(c, p)), None, false);
    NotAborted(c, SnapshotOf(Bind(c, p), false), k);
    Step(c, w, v, k.session, Restarts(false, false), n, t, {}, false);
    assert v.signed + Sayings(k.session, t, {}) == v.signed;
  }

  lemma NotAborted(c: Crypto, rec: Record, k: Credentials)
    requires rec.aborted.None?
    ensures ResumeOf(c, rec, k, false, false) == Refused
  {
    hide ValidTerms, Rebuild;
  }

  lemma TrioIsFresh(t: TableTerms, ks: Credentials, ka: Credentials, kz: Credentials)
    requires ks.session != ka.session && ks.session != kz.session && ka.session != kz.session
    ensures
      var w := Trio(t, ks, ka, kz);
      && Fresh(w) && w.signed == {} && w.nodes.Keys == {ks.session, ka.session, kz.session}
      && Admits(w.nodes[ks.session]) && Admits(w.nodes[ka.session]) && Admits(w.nodes[kz.session])
  {
  }

  lemma ForgottenAdmits(c: Crypto, t: TableTerms, k: Credentials, p: Peer)
    ensures Admits(At(t, k, None, Some(Bind(c, p)), None, false))
  {
  }

  /** Meeting one, and being refused its record at a restart. */
  lemma MeetsAndIsRefused(c: Crypto, w: World, t: TableTerms, k: Credentials, o: Credentials) returns (u: World)
    requires SignsTruly(c) && t.seats == 2 && k.session != o.session && New(c, t, k).Some? && New(c, t, o).Some?
    requires |k.session| == KEY_LEN && |o.session| == KEY_LEN
    requires Reaches(c, w, w, false) && k.session in w.nodes && o.session in w.nodes
    requires Admits(w.nodes[k.session]) && Admits(w.nodes[o.session])
    ensures Reaches(c, w, u, false) && u.nodes.Keys == w.nodes.Keys && OthersSame(w, u, {k.session, o.session})
    ensures Admits(u.nodes[k.session]) && u.nodes[o.session] == Heard(c, t, o, k)
    ensures Saying(k.session, t, Commits(PairRoster(c, t, k.session, o.session))) in u.signed
  {
    hide SignsTruly, New, Met, Reaches, SignJoin, InOrder, Bind, PairRoster, Heard, Kept, Admits, At;
    var v := MeetOne(c, w, w, t, k, o, false);
    var p := Met(c, t, k, SignJoin(c, t, o));
    assert Bind(c, p).phase == Committed by { MeetsAndHears(c, t, k, o); }
    RefusedRestart(c, w, v, t, k, p);
    ForgottenAdmits(c, t, k, p);
    u := World(v.nodes[k.session := At(t, k, None, Some(Bind(c, p)), None, false)], v.signed);
  }

  /** Meeting one, being refused its record, and meeting another. */
  lemma CommitsTwice(c: Crypto, w: World, t: TableTerms, ks: Credentials, ka: Credentials, kz: Credentials)
    returns (end: World)
    requires SignsTruly(c) && t.seats == 2
    requires ks.session != ka.session && ks.session != kz.session && ka.session != kz.session
    requires New(c, t, ks).Some? && New(c, t, ka).Some? && New(c, t, kz).Some?
    requires |ks.session| == KEY_LEN && |ka.session| == KEY_LEN && |kz.session| == KEY_LEN
    requires Reaches(c, w, w, false) && w.nodes.Keys == {ks.session, ka.session, kz.session}
    requires Admits(w.nodes[ks.session]) && Admits(w.nodes[ka.session]) && Admits(w.nodes[kz.session])
    ensures Reaches(c, w, end, false) && end.nodes.Keys == w.nodes.Keys
    ensures end.nodes[ka.session] == Heard(c, t, ka, ks) && end.nodes[kz.session] == Heard(c, t, kz, ks)
    ensures Saying(ks.session, t, Commits(PairRoster(c, t, ks.session, ka.session))) in end.signed
    ensures Saying(ks.session, t, Commits(PairRoster(c, t, ks.session, kz.session))) in end.signed
  {
    hide SignsTruly, New, Met, Reaches, SignJoin, InOrder, PairRoster, Heard, Kept, Admits;
    var u := MeetsAndIsRefused(c, w, t, ks, ka);
    assert kz.session in u.nodes && u.nodes[kz.session] == w.nodes[kz.session];
    end := MeetOne(c, w, u, t, ks, kz, false);
    assert ka.session in u.nodes && end.nodes[ka.session] == u.nodes[ka.session];
  }

  /** What forgetting costs: an honest process commits to a table with one peer, its
      record is refused at a restart, it takes up the invitation again and commits to a
      table with another. Both peers settle, each with it, and not on one table. */
  lemma ForgettingCommitsTwice(c: Crypto, t: TableTerms, ks: Credentials, ka: Credentials, kz: Credentials)
    returns (end: World)
    requires SignsTruly(c) && t.seats == 2
    requires ks.session != ka.session && ks.session != kz.session && ka.session != kz.session
    requires New(c, t, ks).Some? && New(c, t, ka).Some? && New(c, t, kz).Some?
    ensures Fresh(Trio(t, ks, ka, kz)) && Reaches(c, Trio(t, ks, ka, kz), end, false)
    ensures
      var s, a, z := ks.session, ka.session, kz.session;
      var r, q := PairRoster(c, t, s, a), PairRoster(c, t, s, z);
      && Saying(s, t, Commits(r)) in end.signed && Saying(s, t, Commits(q)) in end.signed
      && SettledAt(end, a, r, {s, a}) && SettledAt(end, z, q, {s, z})
      && Meet(end, a, z, s) && !SameTable(end.nodes[a].live.value, end.nodes[z].live.value)
  {
    hide SignsTruly, New, Met, Reaches, SignJoin, InOrder, PairRoster, Heard, Fresh, Trio, SettledAt, Admits, Meet,
      SameTable;
    var s, a, z, w := ks.session, ka.session, kz.session, Trio(t, ks, ka, kz);
    OwnJoins(c, t, ks);
    OwnJoins(c, t, ka);
    OwnJoins(c, t, kz);
    TrioIsFresh(t, ks, ka, kz);
    ReachesItself(c, w, false);
    end := CommitsTwice(c, w, t, ks, ka, kz);
    HeardSettles(c, end, t, ka, ks);
    HeardSettles(c, end, t, kz, ks);
    PartedTables(end, s, a, z, PairRoster(c, t, s, a), PairRoster(c, t, s, z));
  }

  lemma PartedTables(w: World, s: Bytes, a: Bytes, z: Bytes, r: Hash32, q: Hash32)
    requires s != a && s != z && a != z && s in w.nodes
    requires SettledAt(w, a, r, {s, a}) && SettledAt(w, z, q, {s, z})
    ensures Meet(w, a, z, s) && !SameTable(w.nodes[a].live.value, w.nodes[z].live.value)
  {
    hide InOrder;
    MembersTell(s, a, z);
  }

  lemma MembersTell(s: Bytes, a: Bytes, z: Bytes)
    requires s != a && s != z && a != z
    ensures s in InOrder({s, a}) && s in InOrder({s, z}) && InOrder({s, a}) != InOrder({s, z})
  {
    hide InOrder;
    InOrderHolds({s, a});
    InOrderHolds({s, z});
    assert a in InOrder({s, a}) && a !in InOrder({s, z});
  }
}
