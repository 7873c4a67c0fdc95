/** Many peers forming tables at once, over a channel that loses, repeats and
    reorders anything, next to keys that follow no rules; every peer may crash
    and come back from its disk at any moment. */
module Agreement {
  import opened ByteStrings
  import opened Escrow
  import opened Finance
  import opened Messages
  import opened Formation
  import opened TableStore

  /** What a peer may have put its session key to. */
  datatype Statement =
    | Joins(j: Join)
    | Holds(roster: Hash32)
    | Commits(roster: Hash32)
    | Funds(seat: u32, outpoint: Text)
    | Bonds(seat: u32, outpoint: Text)
    | IsPaidAt(seat: u32, address: Text)

  /** Where money is or should go: a member says these of itself at any time. */
  predicate Announcement(s: Statement) { s.Funds? || s.Bonds? || s.IsPaidAt? }

  /** What is digested and signed to say it. */
  function SaidAt(th: Hash32, s: Statement): Digested {
    match s
    case Joins(j) => OfClaims(th, j)
    case Holds(r) => OfAsserts(th, r)
    case Commits(r) => OfCommits(th, r)
    case Funds(seat, outpoint) => OfFunds(th, seat, outpoint)
    case Bonds(seat, outpoint) => OfBonds(th, seat, outpoint)
    case IsPaidAt(seat, address) => OfPays(th, seat, address)
  }

  function StatementBytes(c: Crypto, t: TableTerms, s: Statement): Bytes { BytesOf(SaidAt(TermsHash(c, t), s)) }

  /** One honest process and one session: the terms and credentials it sits down with,
      the formation in memory, the one its file records, whether storage has failed, a
      commit on its way out, whether the table is kept for recovery only, in memory and
      in the file, and whether the session is known to be over. */
  datatype Node = Node(
    terms: TableTerms, creds: Credentials, live: Option<Peer>, disk: Option<Peer>,
    fault: bool, unsent: Option<Commit>, kept: bool, retired: bool, shelved: bool, ended: bool)

  /** A statement let out under a key, at the terms it was made. */
  datatype Saying = Saying(key: Bytes, terms: TableTerms, what: Statement)

  /** The honest processes by session key, and everything their keys have signed
      and let out. Every other key is the adversary's. */
  datatype World = World(nodes: map<Bytes, Node>, signed: set<Saying>)

  datatype Deed =
    | Begin(terms: TableTerms, creds: Credentials, how: Write)
    | TakesJoin(j: Join)
    | TakesAssertion(a: Assertion, js: seq<Join>)
    | TakesCommit(m: Commit)
    | ClosesWindow
    | SetsBeacon(hash: Bytes)
    | GivesUp(why: string)
    | Asserts
    | Binds
    | Keeps(how: Write)
    | Publishes
    | Announces(what: Statement)
    | Retires
    | Restarts(held: bool, loads: bool)
    | Drops(how: Write)

  datatype Event = Event(key: Bytes, deed: Deed)

  /** Whether a deed works on the formation in memory and on nothing else. */
  predicate OnFormation(d: Deed) {
    d.TakesJoin? || d.TakesAssertion? || d.TakesCommit? || d.ClosesWindow? || d.SetsBeacon? || d.GivesUp? ||
    d.Asserts? || d.Binds?
  }

  ghost function OnPeer(c: Crypto, p: Peer, d: Deed): Peer {
    match d
    case TakesJoin(j) => Admit(c, p, j)
    case TakesAssertion(a, js) => TakeAssertion(c, p, a, js)
    case TakesCommit(m) => TakeCommit(c, p, m)
    case ClosesWindow => CloseWindow(p)
    case SetsBeacon(hash) => SetBeacon(p, hash)
    case GivesUp(why) => Abandon(p, why)
    case Asserts => Assert(c, p)
    case Binds => Bind(c, p)
    case _ => p
  }

  /** What a restart makes of the record, if there is one. */
  ghost function Resumption(c: Crypto, n: Node, held: bool, loads: bool): Resumed {
    if n.disk.None? then Accepted else ResumeOf(c, SnapshotOf(n.disk.value, n.shelved), n.creds, held, loads)
  }

  ghost function Restarted(c: Crypto, n: Node, held: bool, loads: bool): Option<Peer> {
    match Resumption(c, n, held, loads)
    case Table(p, _) => Some(p)
    case _ => None
  }

  /** Whether what the file records comes back for recovery only. */
  predicate Shelved(n: Node) { n.disk.Some? && (n.shelved || n.disk.value.phase == Aborted) }

  /** Whether an invitation is taken up: no table and no ended session in memory, and
      storage in order. What the file records is not asked. */
  predicate Admits(n: Node) { n.live.None? && !n.ended && !n.fault }

  /** An accepted invitation writes a new record, whatever was there, and begins a new
      formation; a restart brings a table back, unless its session is over or its record
      is refused, which leaves the file as it is; a table dropped is forgotten. */
  ghost function OnNode(c: Crypto, n: Node, d: Deed): Node {
    match d
    case Begin(t, k, how) =>
      if !Admits(n) then n
      else if how == Lost then n.(fault := true)
      else if how == SavedLate then n.(disk := None, shelved := false, fault := true)
      else
        Node(t, k, New(c, t, k), None, false, None, false, false, false, false)
    case Restarts(held, loads) =>
      n.(live := Restarted(c, n, held, loads), fault := false, unsent := None, kept := false, retired := Shelved(n),
         ended := Resumption(c, n, held, loads).Ended?)
    case Drops(how) =>
      if n.live.None? then n
      else if how == Lost then n.(fault := true)
      else if how == SavedLate then n.(disk := None, shelved := false, fault := true)
      else n.(live := None, disk := None, shelved := false, retired := false, unsent := None, kept := false)
    case Keeps(how) =>
      if n.fault || n.live.None? then n
      else if how == Saved then n.(disk := n.live, shelved := n.retired, kept := true)
      else if how == SavedLate then n.(disk := n.live, shelved := n.retired, fault := true)
      else n.(fault := true)
    case Publishes => n
    case Announces(_) => n
    case Retires => n.(retired := true)
    case _ =>
      if n.live.None? || (n.retired && !d.GivesUp?) then n
      else
        var m := n.(live := Some(OnPeer(c, n.live.value, d)));
        if d == Binds && n.live.value.phase in {Formed, Committed, Settled}
        then m.(unsent := Some(SignCommit(c, n.terms, n.live.value.roster, n.creds.session)), kept := false)
        else m
  }

  /** What leaves the process. A commit leaves only after the write that records
      it, never once storage has failed, and never from a table kept for recovery. */
  ghost function Says(c: Crypto, n: Node, d: Deed): set<Statement> {
    match d
    case Begin(t, k, how) =>
      if Admits(n) && how == Saved && |k.session| == KEY_LEN then {Joins(SignJoin(c, t, k))} else {}
    case Asserts => if n.live.Some? && n.live.value.canonical.Some? then {Holds(n.live.value.roster)} else {}
    case Publishes =>
      if n.unsent.Some? && n.kept && !n.fault && !n.retired then {Commits(n.unsent.value.roster)} else {}
    case Announces(what) => if Announcement(what) then {what} else {}
    case _ => {}
  }

  /** The terms at which it is said. */
  function TermsOf(n: Node, d: Deed): TableTerms { if d.Begin? then d.terms else n.terms }

  /** Signatures cannot be forged: if a digest verifies under an honest key, that
      key signed some statement with that digest. */
  ghost predicate Vouched(c: Crypto, w: World, key: Bytes, digest: Hash32)
    requires key in w.nodes
  {
    exists x :: x in w.signed && x.key == key && c.hash(StatementBytes(c, x.terms, x.what)) == digest
  }

  /** A process begins under its own key, and hears no forged commit. */
  ghost predicate Possible(c: Crypto, w: World, e: Event) {
    && e.key in w.nodes
    && (e.deed.Begin? ==> e.deed.creds.session == e.key)
    && (e.deed.TakesCommit? && e.deed.m.signer in w.nodes && CommitVerifies(c, w.nodes[e.key].terms, e.deed.m) ==>
          Vouched(c, w, e.deed.m.signer, CommitDigest(c, w.nodes[e.key].terms, e.deed.m.roster)))
  }

  ghost function Next(c: Crypto, w: World, e: Event): World
    requires e.key in w.nodes
  {
    var n := w.nodes[e.key];
    World(w.nodes[e.key := OnNode(c, n, e.deed)],
          w.signed + set s | s in Says(c, n, e.deed) :: Saying(e.key, TermsOf(n, e.deed), s))
  }

  /** The world a run of possible events leads to. */
  ghost predicate Leads(c: Crypto, w: World, events: seq<Event>, end: World)
    decreases |events|
  {
    if events == [] then w == end
    else Possible(c, w, events[0]) && Leads(c, Next(c, w, events[0]), events[1..], end)
  }

  /** A process under its own key that has no table and no record. */
  predicate Untouched(n: Node, k: Bytes) {
    n.creds.session == k && n == Node(n.terms, n.creds, None, None, false, None, false, false, false, false)
  }

  /** Every process is under its own key and has said nothing yet. */
  predicate Fresh(w: World) {
    w.signed == {} && forall k :: k in w.nodes ==> Untouched(w.nodes[k], k)
  }

  // ---- Forgetting a commitment ----

  /** The tables a key has committed to: terms and roster. */
  function Commitments(signed: set<Saying>, k: Bytes): set<(TableTerms, Hash32)> {
    set x | x in signed && x.key == k && x.what.Commits? :: (x.terms, x.what.roster)
  }

  /** A deed that does away with the record in the file: beginning again, or dropping. */
  predicate Erases(n: Node, d: Deed) {
    || (d.Begin? && Admits(n) && d.how != Lost)
    || (d.Drops? && n.live.Some? && d.how != Lost)
  }

  /** The record of a key that has let out a commit is done away with. */
  predicate Forgets(w: World, e: Event) {
    e.key in w.nodes && Erases(w.nodes[e.key], e.deed) && Commitments(w.signed, e.key) != {}
  }

  ghost predicate NeverForgets(c: Crypto, w: World, events: seq<Event>)
    decreases |events|
  {
    events == [] ||
    (!Forgets(w, events[0]) && (Possible(c, w, events[0]) ==> NeverForgets(c, Next(c, w, events[0]), events[1..])))
  }

  /** What a record that may stand for a commit let out says: that the table is bound,
      was given up, or is kept for recovery only. */
  predicate Telling(n: Node) { n.disk.Some? && (n.shelved || n.disk.value.phase == Aborted || IsBound(n.disk.value)) }

  /** No record that says so is done away with. */
  ghost predicate KeepsTelling(c: Crypto, w: World, events: seq<Event>)
    decreases |events|
  {
    events == [] ||
    (&& !(events[0].key in w.nodes && Erases(w.nodes[events[0].key], events[0].deed) && Telling(w.nodes[events[0].key]))
     && (Possible(c, w, events[0]) ==> KeepsTelling(c, Next(c, w, events[0]), events[1..])))
  }

  // ---- The invariant ----

  /** A formation under this key that took other honest keys' commits only from those
      keys. */
  ghost predicate Vetted(c: Crypto, w: World, k: Bytes, p: Peer) {
    && Consistent(c, p) && p.Self() == k
    && (forall s :: s in p.commits && s in w.nodes && s != k ==>
          Vouched(c, w, s, CommitDigest(c, p.terms, p.commits[s].roster)))
    && (p.conflict.Some? ==> Framed(c, w, k, p.terms, p.conflict.value))
  }

  /** Both halves of a conflict are commits by one key to two rosters. */
  ghost predicate Framed(c: Crypto, w: World, k: Bytes, t: TableTerms, x: Conflict) {
    var s := x.first.signer;
    && x.second.signer == s && x.first.roster != x.second.roster
    && (s in w.nodes && s != k ==>
          Vouched(c, w, s, CommitDigest(c, t, x.first.roster)) && Vouched(c, w, s, CommitDigest(c, t, x.second.roster)))
  }

  /** Whether a formation is of the table this process sits at. */
  predicate Owns(n: Node, p: Option<Peer>) { p.Some? ==> p.value.terms == n.terms && p.value.creds == n.creds }

  /** Bound to this roster or given up; or, kept for recovery only, bound to none. */
  predicate Bound(p: Peer, silent: bool, roster: Hash32) { Pinned(p, roster) || (silent && !IsBound(p)) }

  /** What a key has committed to binds its process on disk and in memory. */
  ghost predicate Committal(w: World, k: Bytes)
    requires k in w.nodes
  {
    NodeCommittal(w.nodes[k], Commitments(w.signed, k))
  }

  ghost predicate NodeCommittal(n: Node, tables: set<(TableTerms, Hash32)>) {
    && (n.unsent.Some? ==> n.live.Some? && Bound(n.live.value, n.retired, n.unsent.value.roster))
    && (n.unsent.Some? && n.kept && !n.fault ==>
          n.disk.Some? && Bound(n.disk.value, n.shelved, n.unsent.value.roster))
    && forall x :: x in tables ==>
         && x.0 == n.terms
         && n.disk.Some? && Bound(n.disk.value, n.shelved, x.1)
         && (n.live.Some? ==> Bound(n.live.value, n.retired, x.1))
         && (n.unsent.Some? ==> n.unsent.value.roster == x.1)
  }

  ghost predicate OneTable(w: World, k: Bytes) {
    forall x, y :: x in Commitments(w.signed, k) && y in Commitments(w.signed, k) ==> x == y
  }

  ghost predicate NodeInvariant(c: Crypto, w: World, k: Bytes)
    requires k in w.nodes
  {
    var n := w.nodes[k];
    && n.creds.session == k && Owns(n, n.live) && Owns(n, n.disk)
    && (n.live.Some? ==> Vetted(c, w, k, n.live.value))
    && (n.disk.Some? ==> Vetted(c, w, k, n.disk.value))
    && Committal(w, k) && OneTable(w, k)
  }

  ghost predicate Invariant(c: Crypto, w: World) {
    forall k :: k in w.nodes ==> NodeInvariant(c, w, k)
  }

  // ---- Each deed keeps it ----

  /** What a deed does to the formation in memory. */
  lemma OnPeerKeeps(c: Crypto, p: Peer, d: Deed)
    requires SignsTruly(c) && Consistent(c, p)
    ensures
      var q := OnPeer(c, p, d);
      && Consistent(c, q) && q.terms == p.terms && q.creds == p.creds
      && (forall r :: Pinned(p, r) ==> Pinned(q, r))
      && (d.Binds? && p.phase in {Formed, Committed, Settled} ==> Pinned(q, p.roster))
  {
    hide Consistent, SignsTruly, JoinVerifies, CommitVerifies, SignCommit, Recompute, TakeAssertion;
    match d
    case TakesJoin(j) =>
      AdmitKeeps(c, p, j);
      RecomputeLeaves(c, p.(joins := p.joins[j.key := j]));
    case TakesAssertion(a, js) =>
      AssertionKeeps(c, p, a, js);
      AssertionSpares(c, p, a, js);
    case TakesCommit(m) =>
      CommitKeeps(c, p, m);
      RecomputeLeaves(c, p.(commits := p.commits[m.signer := m]));
    case ClosesWindow => CloseWindowKeeps(c, p);
    case SetsBeacon(hash) => BeaconKeeps(c, p, hash);
    case GivesUp(why) => AbandonKeeps(c, p, why);
    case Asserts => AssertKeeps(c, p);
    case Binds =>
      BindKeeps(c, p);
      RecomputeLeaves(c, p.(commits := p.commits[p.Self() := SignCommit(c, p.terms, p.roster, p.Self())],
        phase := Committed));
    case _ =>
  }

  lemma {:induction false} AdmitAllSpares(c: Crypto, p: Peer, js: seq<Join>)
    requires Consistent(c, p)
    ensures
      var q := AdmitAll(c, p, js);
      && Consistent(c, q) && q.terms == p.terms && q.creds == p.creds && q.commits == p.commits &&
        q.conflict == p.conflict
      && (forall r :: Pinned(p, r) ==> Pinned(q, r))
    decreases |js|
  {
    hide Consistent, JoinVerifies, RosterHash, Listing, CanonicalMembers;
    if js != [] {
      AdmitKeeps(c, p, js[0]);
      AdmitAllSpares(c, Admit(c, p, js[0]), js[1..]);
    }
  }

  lemma AssertionSpares(c: Crypto, p: Peer, a: Assertion, js: seq<Join>)
    requires Consistent(c, p)
    ensures
      var q := TakeAssertion(c, p, a, js);
      && q.terms == p.terms && q.creds == p.creds && q.commits == p.commits && q.conflict == p.conflict
      && (forall r :: Pinned(p, r) ==> Pinned(q, r))
  {
    hide JoinVerifies, AssertionVerifies, JoinsStand, CommitsStand, SignJoin, SignCommit, RosterHash, ValidTerms,
      ValidCredentials, InOrder, Listing, CanonicalMembers;
    var q := p.(asserts := p.asserts[a.signer := a.roster]);
    assert Consistent(c, q);
    AdmitAllSpares(c, q, js);
    RecomputeSettled(c, AdmitAll(c, q, js));
  }

  /** The commits and the conflict a deed leaves were there before, are this
      process's own, or came with it. */
  lemma OnPeerCommits(c: Crypto, p: Peer, d: Deed)
    requires Consistent(c, p)
    ensures
      var q := OnPeer(c, p, d);
      && (forall s :: s in q.commits && s != p.Self() ==>
           (s in p.commits && q.commits[s] == p.commits[s])
           || (d.TakesCommit? && d.m.signer == s && CommitVerifies(c, p.terms, d.m) && q.commits[s] == d.m))
      && (q.conflict == p.conflict
           || (d.TakesCommit? && CommitVerifies(c, p.terms, d.m) && d.m.signer in p.commits
                && p.commits[d.m.signer].roster != d.m.roster
                && q.conflict == Some(Conflict(p.commits[d.m.signer], d.m))))
  {
    hide JoinVerifies, CommitVerifies, Consistent, Recompute, TakeAssertion, SignCommit;
    match d
    case TakesJoin(j) => RecomputeLeaves(c, p.(joins := p.joins[j.key := j]));
    case TakesAssertion(a, js) => AssertionSpares(c, p, a, js);
    case TakesCommit(m) => RecomputeLeaves(c, p.(commits := p.commits[m.signer := m]));
    case Binds => RecomputeLeaves(c,
      p.(commits := p.commits[p.Self() := SignCommit(c, p.terms, p.roster, p.Self())], phase := Committed));
    case _ =>
  }

  /** Vouching only grows. */
  predicate Grows(w: World, v: World) { w.nodes.Keys == v.nodes.Keys && w.signed <= v.signed }

  lemma VettedStays(c: Crypto, w: World, v: World, k: Bytes, p: Peer)
    requires Grows(w, v) && Vetted(c, w, k, p)
    ensures Vetted(c, v, k, p)
  {
    hide Consistent, StatementBytes, CommitDigest;
    forall s, d | s in w.nodes && Vouched(c, w, s, d) ensures Vouched(c, v, s, d) {
      var x :| x in w.signed && x.key == s && c.hash(StatementBytes(c, x.terms, x.what)) == d;
      assert x in v.signed;
    }
  }

  /** A commit that is heard and verifies under an honest key is vouched for. */
  lemma HeardIsVouched(c: Crypto, w: World, e: Event, t: TableTerms)
    requires Possible(c, w, e) && e.deed.TakesCommit? && CommitVerifies(c, t, e.deed.m) && t == w.nodes[e.key].terms
    ensures e.deed.m.signer in w.nodes ==> Vouched(c, w, e.deed.m.signer, CommitDigest(c, t, e.deed.m.roster))
  {
    hide Vouched, CommitVerifies;
  }

  lemma OnPeerVets(c: Crypto, w: World, e: Event, p: Peer)
    requires SignsTruly(c) && Possible(c, w, e) && Vetted(c, w, e.key, p) && p.terms == w.nodes[e.key].terms
    ensures Vetted(c, w, e.key, OnPeer(c, p, e.deed))
  {
    hide SignsTruly, CommitVerifies, Possible, Consistent, CommitDigest, OnPeer, Vouched;
    OnPeerKeeps(c, p, e.deed);
    OnPeerCommits(c, p, e.deed);
    CommitsAreHeldByKey(c, p);
    var q := OnPeer(c, p, e.deed);
    if e.deed.TakesCommit? && CommitVerifies(c, p.terms, e.deed.m) {
      HeardIsVouched(c, w, e, p.terms);
    }
    forall s | s in q.commits && s in w.nodes && s != e.key
      ensures Vouched(c, w, s, CommitDigest(c, p.terms, q.commits[s].roster))
    {
    }
  }

  lemma CommitsAreHeldByKey(c: Crypto, p: Peer)
    requires Consistent(c, p)
    ensures forall s :: s in p.commits ==> p.commits[s].signer == s
  {
  }

  /** What comes back of one record: vetted as it was, and bound as it was; for
      recovery only, it may be bound to nothing. */
  lemma RecordVets(c: Crypto, w: World, k: Bytes, p: Peer, shelved: bool, held: bool, loads: bool)
    requires SignsTruly(c) && Vetted(c, w, k, p)
    ensures
      match ResumeOf(c, SnapshotOf(p, shelved), p.creds, held, loads)
      case Table(q, silent) =>
        && Vetted(c, w, k, q) && q.terms == p.terms && q.creds == p.creds
        && (forall r :: Bound(p, shelved, r) ==> Bound(q, shelved || p.phase == Aborted, r))
      case _ => true
  {
    hide SignsTruly, Vouched, CommitDigest, Consistent, ResumeOf, SnapshotOf, Framed;
    if p.phase == Aborted {
      AbortedComesBackForRecovery(c, p, shelved, held, loads);
    } else if loads {
      RestartRebuilds(c, p, shelved, held);
      RememberedIsConsistent(c, p);
    } else {
      UnloadedIsRefused(c, SnapshotOf(p, shelved), p.creds, held);
    }
  }

  lemma UnloadedIsRefused(c: Crypto, rec: Record, k: Credentials, held: bool)
    ensures !ResumeOf(c, rec, k, held, false).Table?
  {
    hide ValidTerms, Rebuild;
  }

  /** So a restart brings back a vetted formation of this process. */
  lemma RestartVets(c: Crypto, w: World, k: Bytes, held: bool, loads: bool)
    requires SignsTruly(c) && k in w.nodes && NodeInvariant(c, w, k)
    ensures
      var n := w.nodes[k];
      var live := Restarted(c, n, held, loads);
      live.Some? ==>
        && n.disk.Some? && Vetted(c, w, k, live.value) && Owns(n, live)
        && (forall r :: Bound(n.disk.value, n.shelved, r) ==> Bound(live.value, Shelved(n), r))
  {
    hide SignsTruly, Vetted, Committal, ResumeOf, SnapshotOf, Bound, OneTable;
    var n := w.nodes[k];
    if n.disk.Some? {
      RecordVets(c, w, k, n.disk.value, n.shelved, held, loads);
    }
  }

  lemma RememberedIsConsistent(c: Crypto, p: Peer)
    requires Consistent(c, p)
    ensures Consistent(c, Remembered(p))
  {
    hide JoinsStand, CommitsStand, SignJoin, SignCommit, ValidTerms, ValidCredentials, RosterHash, InOrder;
  }

  lemma NextGrows(c: Crypto, w: World, e: Event)
    requires Possible(c, w, e)
    ensures Grows(w, Next(c, w, e))
  {
    hide OnNode, Says, Vouched, CommitVerifies;
  }

  /** A formation of this process, and one it may hold or record. */
  ghost predicate Fits(c: Crypto, w: World, k: Bytes, n: Node, p: Option<Peer>) {
    Owns(n, p) && (p.Some? ==> Vetted(c, w, k, p.value))
  }

  /** What a deed on the formation leaves of the rest. */
  lemma FormationDeedIs(c: Crypto, n: Node, d: Deed)
    requires OnFormation(d)
    ensures
      var m := OnNode(c, n, d);
      && m.terms == n.terms && m.creds == n.creds && m.disk == n.disk
      && (m.live == n.live || (n.live.Some? && m.live == Some(OnPeer(c, n.live.value, d))))
  {
    hide OnPeer, SignCommit;
  }

  lemma FormationDeedFits(c: Crypto, w: World, e: Event)
    requires SignsTruly(c) && Possible(c, w, e) && OnFormation(e.deed)
    requires Fits(c, w, e.key, w.nodes[e.key], w.nodes[e.key].live)
    requires Fits(c, w, e.key, w.nodes[e.key], w.nodes[e.key].disk)
    ensures
      var n := OnNode(c, w.nodes[e.key], e.deed);
      n.creds == w.nodes[e.key].creds && Fits(c, w, e.key, n, n.live) && Fits(c, w, e.key, n, n.disk)
  {
    hide SignsTruly, Vetted, Vouched, CommitVerifies, OnPeer, OnNode;
    var n := w.nodes[e.key];
    FormationDeedIs(c, n, e.deed);
    if n.live.Some? {
      VettedIsConsistent(c, w, e.key, n.live.value);
      OnPeerVets(c, w, e, n.live.value);
      OnPeerKeeps(c, n.live.value, e.deed);
    }
  }

  /** What the other deeds leave in memory and in the file. */
  lemma OtherDeedIs(c: Crypto, n: Node, d: Deed)
    requires !OnFormation(d)
    ensures
      var m := OnNode(c, n, d);
      if d.Begin? && Admits(n) && d.how == Saved
      then m.terms == d.terms && m.creds == d.creds && m.live == New(c, d.terms, d.creds) && m.disk.None?
      else
        && m.terms == n.terms && m.creds == n.creds
        && (m.live == n.live || m.live.None? || (d.Restarts? && m.live == Restarted(c, n, d.held, d.loads)))
        && (m.disk == n.disk || m.disk == n.live || m.disk.None?)
  {
    hide New, Restarted, Resumption, Shelved;
  }

  /** The node that acted keeps formations of its own, each vetted. */
  lemma ActorIsVetted(c: Crypto, w: World, e: Event)
    requires SignsTruly(c) && Possible(c, w, e) && NodeInvariant(c, w, e.key)
    ensures
      var n := OnNode(c, w.nodes[e.key], e.deed);
      n.creds.session == e.key && Fits(c, w, e.key, n, n.live) && Fits(c, w, e.key, n, n.disk)
  {
    hide SignsTruly, Vetted, Vouched, CommitVerifies, Committal, OneTable, OnNode, New, Restarted;
    if OnFormation(e.deed) {
      FormationDeedFits(c, w, e);
    } else {
      OtherDeedIs(c, w.nodes[e.key], e.deed);
      if e.deed.Begin? {
        BeginningIsVetted(c, w, e);
      } else if e.deed.Restarts? {
        RestartVets(c, w, e.key, e.deed.held, e.deed.loads);
      }
    }
  }

  lemma BeginningIsVetted(c: Crypto, w: World, e: Event)
    requires e.deed.Begin? && Possible(c, w, e)
    ensures
      var p := New(c, e.deed.terms, e.deed.creds);
      p.Some? ==> Vetted(c, w, e.key, p.value) && p.value.terms == e.deed.terms && p.value.creds == e.deed.creds
  {
    hide Consistent, Vouched, CommitDigest;
    if New(c, e.deed.terms, e.deed.creds).Some? {
      NewIsConsistent(c, e.deed.terms, e.deed.creds);
    }
  }

  /** The tables a deed commits its key to. */
  ghost function TablesSaid(c: Crypto, n: Node, d: Deed): set<(TableTerms, Hash32)> {
    set s | s in Says(c, n, d) && s.Commits? :: (n.terms, s.roster)
  }

  lemma OnlyPublishingCommits(c: Crypto, n: Node, d: Deed)
    ensures TablesSaid(c, n, d) ==
      if d.Publishes? && n.unsent.Some? && n.kept && !n.fault && !n.retired
      then {(n.terms, n.unsent.value.roster)} else {}
  {
    hide SignJoin;
    if d.Publishes? && n.unsent.Some? && n.kept && !n.fault && !n.retired {
      assert Says(c, n, d) == {Commits(n.unsent.value.roster)};
      assert Commits(n.unsent.value.roster).Commits?;
    } else {
      assert forall s :: s in Says(c, n, d) ==> !s.Commits?;
    }
  }

  /** A deed on the formation in memory leaves the process bound as it was. */
  lemma PeerDeedStays(c: Crypto, n: Node, d: Deed, tables: set<(TableTerms, Hash32)>)
    requires SignsTruly(c) && NodeCommittal(n, tables) && n.live.Some? && Consistent(c, n.live.value) && OnFormation(d)
    ensures NodeCommittal(OnNode(c, n, d), tables)
  {
    hide SignsTruly, Consistent, OnPeer;
    OnPeerKeeps(c, n.live.value, d);
    if d.GivesUp? {
      GivingUpIsAborting(c, n.live.value, d.why);
    }
  }

  lemma GivingUpIsAborting(c: Crypto, p: Peer, why: string)
    ensures OnPeer(c, p, GivesUp(why)).phase == Aborted || OnPeer(c, p, GivesUp(why)) == p
  {
  }

  /** Keeping, publishing, announcing and retiring leave it bound too. */
  lemma OtherDeedStays(c: Crypto, n: Node, d: Deed, tables: set<(TableTerms, Hash32)>)
    requires NodeCommittal(n, tables)
    requires d.Keeps? || d.Publishes? || d.Announces? || d.Retires?
    ensures NodeCommittal(OnNode(c, n, d), tables + TablesSaid(c, n, d))
    ensures forall x, y :: x in tables && y in TablesSaid(c, n, d) ==> x == y
  {
    hide New, Pinned, TablesSaid, Says;
    OnlyPublishingCommits(c, n, d);
  }

  /** Beginning and dropping do just when they erase no record, or the key has let
      out no commit. */
  lemma ErasingIsExact(c: Crypto, n: Node, d: Deed, tables: set<(TableTerms, Hash32)>)
    requires NodeCommittal(n, tables) && (d.Begin? || d.Drops?)
    ensures NodeCommittal(OnNode(c, n, d), tables) <==> !Erases(n, d) || tables == {}
  {
    hide New, Bound;
    if Erases(n, d) && tables != {} {
      var x :| x in tables;
      assert OnNode(c, n, d).disk.None?;
    }
  }

  /** So does a restart, in which no commit waits to be sent. */
  lemma RestartStays(c: Crypto, n: Node, held: bool, loads: bool, tables: set<(TableTerms, Hash32)>)
    requires NodeCommittal(n, tables)
    requires
      var live := Restarted(c, n, held, loads);
      live.Some? ==> n.disk.Some? && forall r :: Bound(n.disk.value, n.shelved, r) ==> Bound(live.value, Shelved(n), r)
    ensures NodeCommittal(OnNode(c, n, Restarts(held, loads)), tables)
  {
    hide Restarted, Resumption, Bound;
  }

  lemma TablesGrow(c: Crypto, w: World, e: Event)
    requires Possible(c, w, e)
    ensures
      Commitments(Next(c, w, e).signed, e.key) == Commitments(w.signed, e.key) + TablesSaid(c, w.nodes[e.key], e.deed)
    ensures forall k :: k != e.key ==> Commitments(Next(c, w, e).signed, k) == Commitments(w.signed, k)
  {
    hide Says, OnNode, Vouched, CommitVerifies;
    var v, n := Next(c, w, e), w.nodes[e.key];
    BeginningCommitsToNothing(c, n, e.deed);
    forall k, t, r ensures (t, r) in Commitments(v.signed, k) <==>
      (t, r) in Commitments(w.signed, k) || (k == e.key && (t, r) in TablesSaid(c, n, e.deed))
    {
      TableSaid(v.signed, k, t, r);
      TableSaid(w.signed, k, t, r);
      assert (t, r) in TablesSaid(c, n, e.deed) <==> t == n.terms && Commits(r) in Says(c, n, e.deed);
    }
    assert forall k :: k != e.key ==>
      forall x :: x in Commitments(v.signed, k) <==> (x.0, x.1) in Commitments(w.signed, k);
    assert forall x :: x in Commitments(v.signed, e.key) <==>
      (x.0, x.1) in Commitments(w.signed, e.key) || (x.0, x.1) in TablesSaid(c, n, e.deed);
  }

  lemma BeginningCommitsToNothing(c: Crypto, n: Node, d: Deed)
    ensures d.Begin? ==> forall r :: Commits(r) !in Says(c, n, d)
    ensures !d.Begin? ==> TermsOf(n, d) == n.terms
  {
    hide SignJoin;
  }

  lemma TableSaid(signed: set<Saying>, k: Bytes, t: TableTerms, r: Hash32)
    ensures (t, r) in Commitments(signed, k) <==> Saying(k, t, Commits(r)) in signed
  {
    if Saying(k, t, Commits(r)) in signed {
      assert Saying(k, t, Commits(r)).key == k && Saying(k, t, Commits(r)).what.Commits?;
    }
  }

  /** The node that acted stays committed to what its key has said, unless it forgets. */
  lemma ActorStaysCommitted(c: Crypto, w: World, e: Event)
    requires SignsTruly(c) && Possible(c, w, e) && NodeInvariant(c, w, e.key)
    ensures Committal(Next(c, w, e), e.key) <==> !Forgets(w, e)
    ensures OneTable(Next(c, w, e), e.key)
  {
    hide SignsTruly, Vetted, Vouched, CommitVerifies, OnNode, Says, NodeCommittal, Commitments, TablesSaid, Restarted,
      Shelved, Bound, Owns;
    var n, d := w.nodes[e.key], e.deed;
    var tables := Commitments(w.signed, e.key);
    TablesGrow(c, w, e);
    if d.Restarts? {
      RestartVets(c, w, e.key, d.held, d.loads);
      RestartStays(c, n, d.held, d.loads, tables);
    } else if d.Keeps? || d.Publishes? || d.Announces? || d.Retires? {
      OtherDeedStays(c, n, d, tables);
    } else if d.Begin? || d.Drops? {
      ErasingIsExact(c, n, d, tables);
    } else if n.live.Some? {
      assert Consistent(c, n.live.value) by { VettedIsConsistent(c, w, e.key, n.live.value); }
      PeerDeedStays(c, n, d, tables);
    } else {
      IdleStays(c, n, d);
    }
    assert d.Publishes? || TablesSaid(c, n, d) == {} by { OnlyPublishingCommits(c, n, d); }
    assert tables + {} == tables;
    assert forall x, y :: x in TablesSaid(c, n, d) && y in TablesSaid(c, n, d) ==> x == y by {
      OnlyPublishingCommits(c, n, d);
    }
  }

  lemma VettedIsConsistent(c: Crypto, w: World, k: Bytes, p: Peer)
    requires Vetted(c, w, k, p)
    ensures Consistent(c, p)
  {
    hide Consistent, Framed, Vouched, CommitDigest;
  }

  lemma IdleStays(c: Crypto, n: Node, d: Deed)
    requires n.live.None? && OnFormation(d)
    ensures OnNode(c, n, d) == n
  {
    hide OnPeer;
  }

  /** Every deed keeps the invariant, but one that does away with the record of a key
      that has let out a commit, which always breaks it. */
  lemma NextKeeps(c: Crypto, w: World, e: Event)
    requires SignsTruly(c) && Invariant(c, w) && Possible(c, w, e)
    ensures Invariant(c, Next(c, w, e)) <==> !Forgets(w, e)
  {
    hide SignsTruly, Consistent, OnNode, Vetted, Vouched, CommitVerifies, CommitDigest, Committal, Forgets, OneTable,
      Owns;
    var v := Next(c, w, e);
    NextGrows(c, w, e);
    ActorIsVetted(c, w, e);
    ActorStaysCommitted(c, w, e);
    if Forgets(w, e) {
      assert !NodeInvariant(c, v, e.key);
    } else {
      forall k | k in v.nodes ensures NodeInvariant(c, v, k) {
        assert NodeInvariant(c, w, k);
        if v.nodes[k].live.Some? {
          VettedStays(c, w, v, k, v.nodes[k].live.value);
        }
        if v.nodes[k].disk.Some? {
          VettedStays(c, w, v, k, v.nodes[k].disk.value);
        }
        if k != e.key {
          OthersSaidNothing(c, w, e, k);
        }
      }
    }
  }

  lemma OthersSaidNothing(c: Crypto, w: World, e: Event, k: Bytes)
    requires Possible(c, w, e) && k in w.nodes && k != e.key && Committal(w, k) && OneTable(w, k)
    ensures Committal(Next(c, w, e), k) && OneTable(Next(c, w, e), k)
  {
    hide OnNode, Says, NodeCommittal, CommitVerifies, Vouched, Commitments;
    TablesGrow(c, w, e);
  }

  /** Every run, whatever arrives, is lost, repeated or crashes, keeps it, as long as
      no commitment is forgotten. */
  lemma {:induction false} RunsKeep(c: Crypto, w: World, events: seq<Event>, end: World)
    requires SignsTruly(c) && Invariant(c, w) && Leads(c, w, events, end) && NeverForgets(c, w, events)
    ensures Invariant(c, end)
    decreases |events|
  {
    hide SignsTruly, Invariant, Next, Forgets, Vouched, CommitVerifies;
    if events != [] {
      NextKeeps(c, w, events[0]);
      RunsKeep(c, Next(c, w, events[0]), events[1..], end);
    }
  }

  /** A record that stands for a commit let out says so. */
  lemma CommittedRecordsTell(c: Crypto, w: World, k: Bytes)
    requires Invariant(c, w) && k in w.nodes && Commitments(w.signed, k) != {}
    ensures Telling(w.nodes[k])
  {
    hide Commitments, Vetted;
    assert NodeInvariant(c, w, k);
    var x :| x in Commitments(w.signed, k);
  }

  /** So a run that does away with no record that says so forgets no commitment. */
  lemma {:induction false} KeepingTellingIsEnough(c: Crypto, w: World, events: seq<Event>, end: World)
    requires SignsTruly(c) && Invariant(c, w) && Leads(c, w, events, end) && KeepsTelling(c, w, events)
    ensures NeverForgets(c, w, events)
    decreases |events|
  {
    hide SignsTruly, Invariant, Next, Vouched, CommitVerifies, Erases, Telling, Commitments;
    if events != [] {
      var e := events[0];
      if Forgets(w, e) {
        CommittedRecordsTell(c, w, e.key);
      }
      NextKeeps(c, w, e);
      KeepingTellingIsEnough(c, Next(c, w, e), events[1..], end);
    }
  }

  /** In every run from a fresh start, doing away only with records that are not
      bound, given up or kept for recovery forgets no commitment. */
  lemma CarefulRunsNeverForget(c: Crypto, w: World, events: seq<Event>, end: World)
    requires SignsTruly(c) && Fresh(w) && Leads(c, w, events, end) && KeepsTelling(c, w, events)
    ensures NeverForgets(c, w, events)
  {
    hide SignsTruly, Leads, KeepsTelling, NeverForgets, Fresh;
    FreshHolds(c, w);
    KeepingTellingIsEnough(c, w, events, end);
  }

  /** A process whose key has let out a commit never lets out another, to any other
      roster or at any other terms, in any run that forgets no commitment. */
  lemma HonestKeysCommitOnce(c: Crypto, w: World, events: seq<Event>, end: World)
    requires SignsTruly(c) && Fresh(w) && Leads(c, w, events, end) && NeverForgets(c, w, events)
    ensures forall k, t, u, r, q ::
      k in end.nodes && Saying(k, t, Commits(r)) in end.signed && Saying(k, u, Commits(q)) in end.signed ==>
      t == u && r == q
  {
    hide SignsTruly, Leads, Vetted, Committal, NeverForgets;
    FreshHolds(c, w);
    RunsKeep(c, w, events, end);
    assert forall k :: k in end.nodes ==> NodeInvariant(c, end, k);
    forall k, t, u, r, q |
      k in end.nodes && Saying(k, t, Commits(r)) in end.signed && Saying(k, u, Commits(q)) in end.signed
      ensures t == u && r == q
    {
      SaidOnce(end, k, t, r, u, q);
    }
  }

  lemma SaidOnce(w: World, k: Bytes, t: TableTerms, r: Hash32, u: TableTerms, q: Hash32)
    requires OneTable(w, k) && Saying(k, t, Commits(r)) in w.signed && Saying(k, u, Commits(q)) in w.signed
    ensures t == u && r == q
  {
    hide Commitments;
    TableSaid(w.signed, k, t, r);
    TableSaid(w.signed, k, u, q);
    assert (t, r) == (u, q);
  }

  /** A settled process is at the table its key committed to. */
  lemma SettledStandsBy(w: World, k: Bytes, t: TableTerms, r: Hash32)
    requires k in w.nodes && Committal(w, k) && Saying(k, t, Commits(r)) in w.signed
    requires w.nodes[k].live.Some? && w.nodes[k].live.value.phase == Settled
    ensures w.nodes[k].live.value.roster == r && w.nodes[k].terms == t
  {
    hide Commitments;
    TableSaid(w.signed, k, t, r);
    assert (t, r) in Commitments(w.signed, k);
  }

  lemma StartsUncommitted(w: World, k: Bytes)
    requires Fresh(w) && k in w.nodes
    ensures Committal(w, k)
  {
  }

  // ---- Agreement ----

  function Signed(c: Crypto, w: World): set<Bytes> {
    set x | x in w.signed && x.key in w.nodes :: StatementBytes(c, x.terms, x.what)
  }

  /** The strings whose digests name one peer's table. */
  function Naming(c: Crypto, p: Peer): set<Bytes>
    requires p.canonical.Some?
  {
    {TermsBytes(p.terms), RosterBytes(TermsHash(c, p.terms), p.canonical.value),
      CommitBytes(TermsHash(c, p.terms), p.roster)}
  }

  /** A vouched commit is one its key made, at terms with the same hash. */
  lemma VouchedCommit(c: Crypto, w: World, s: Bytes, t: TableTerms, roster: Hash32, strings: set<Bytes>)
    returns (u: TableTerms)
    requires s in w.nodes && Vouched(c, w, s, CommitDigest(c, t, roster))
    requires NoCollision(c.hash, strings) && Signed(c, w) <= strings && CommitBytes(TermsHash(c, t), roster) in strings
    ensures Saying(s, u, Commits(roster)) in w.signed && TermsHash(c, u) == TermsHash(c, t)
  {
    hide TermsHash;
    var x :| x in w.signed && x.key == s && c.hash(StatementBytes(c, x.terms, x.what)) == CommitDigest(c, t, roster);
    u := x.terms;
    assert StatementBytes(c, x.terms, x.what) in Signed(c, w);
    assert BytesOf(OfCommits(TermsHash(c, t), roster)) == CommitBytes(TermsHash(c, t), roster);
    KindsAreSeparate(SaidAt(TermsHash(c, u), x.what), OfCommits(TermsHash(c, t), roster));
    assert x.what.Commits?;
    CommitBytesInjective(TermsHash(c, u), TermsHash(c, t), x.what.roster, roster);
    assert x == Saying(s, u, Commits(roster));
  }

  /** What a settled peer's honest member has said, or holds itself. */
  lemma MemberCommitted(c: Crypto, w: World, k: Bytes, s: Bytes, strings: set<Bytes>) returns (u: TableTerms)
    requires Invariant(c, w) && k in w.nodes && s in w.nodes
    requires w.nodes[k].live.Some? && w.nodes[k].live.value.phase == Settled
    requires w.nodes[k].live.value.canonical.Some? && s in w.nodes[k].live.value.canonical.value
    requires NoCollision(c.hash, strings) && Signed(c, w) + Naming(c, w.nodes[k].live.value) <= strings
    ensures
      var p := w.nodes[k].live.value;
      s == k || (Saying(s, u, Commits(p.roster)) in w.signed && TermsHash(c, u) == TermsHash(c, p.terms))
  {
    hide Sound, Seated, BoundToOwn, CommitDigest, NoCollision, Signed, TermsBytes, RosterBytes, CommitBytes,
      TermsHash, Committal, Framed, OneTable;
    assert NodeInvariant(c, w, k);
    var p := w.nodes[k].live.value;
    u := p.terms;
    if s != k {
      assert s in p.commits && p.commits[s].roster == p.roster;
      u := VouchedCommit(c, w, s, p.terms, p.roster, strings);
    }
  }

  /** One digest names one table. */
  lemma RosterNamesTable(c: Crypto, p: Peer, q: Peer)
    requires p.canonical.Some? && q.canonical.Some? && NoCollision(c.hash, Naming(c, p) + Naming(c, q))
    requires p.roster == q.roster && TermsHash(c, p.terms) == TermsHash(c, q.terms)
    requires Consistent(c, p) && Consistent(c, q) && p.phase == Settled && q.phase == Settled
    ensures p.terms == q.terms && p.canonical == q.canonical
  {
    hide TermsBytes, RosterBytes, CommitBytes, JoinsStand, CommitsStand, SignJoin, SignCommit, InOrder, ValidTerms,
      ValidCredentials;
    TermsBytesInjective(p.terms, q.terms);
    SeatsFit(p.terms);
    SeatsFit(q.terms);
    VerifiedKeysAreUsable(c, p);
    VerifiedKeysAreUsable(c, q);
    InOrderHolds(p.joins.Keys);
    InOrderHolds(q.joins.Keys);
    assert |p.joins.Keys| == |p.joins| && |q.joins.Keys| == |q.joins|;
    RosterBytesInjective(TermsHash(c, p.terms), TermsHash(c, q.terms), InOrder(p.joins.Keys), InOrder(q.joins.Keys));
  }

  /** A process that has settled with this member in its membership. */
  predicate SettledWith(w: World, k: Bytes, s: Bytes) {
    && k in w.nodes && w.nodes[k].live.Some? && w.nodes[k].live.value.phase == Settled
    && w.nodes[k].live.value.canonical.Some? && s in w.nodes[k].live.value.canonical.value
  }

  /** Two processes that have settled with one honest member in common. */
  predicate Meet(w: World, a: Bytes, b: Bytes, s: Bytes) {
    s in w.nodes && SettledWith(w, a, s) && SettledWith(w, b, s)
  }

  /** No two of the strings that name these peers' tables, or that honest keys have
      signed, have one digest. */
  ghost predicate NamesApart(c: Crypto, w: World, a: Bytes, b: Bytes, s: Bytes)
    requires Meet(w, a, b, s)
  {
    NoCollision(c.hash, Signed(c, w) + Naming(c, w.nodes[a].live.value) + Naming(c, w.nodes[b].live.value))
  }

  predicate SameTable(p: Peer, q: Peer) {
    p.terms == q.terms && p.roster == q.roster && p.canonical == q.canonical
  }

  lemma SettledPairAgrees(c: Crypto, w: World, a: Bytes, b: Bytes, s: Bytes)
    requires Invariant(c, w) && Meet(w, a, b, s) && NamesApart(c, w, a, b, s)
    ensures SameTable(w.nodes[a].live.value, w.nodes[b].live.value)
  {
    hide Consistent, Naming, Signed, TermsHash, Vetted, Committal, OneTable;
    var p, q := w.nodes[a].live.value, w.nodes[b].live.value;
    var strings := Signed(c, w) + Naming(c, p) + Naming(c, q);
    var t := MemberCommitted(c, w, a, s, strings);
    var u := MemberCommitted(c, w, b, s, strings);
    assert NodeInvariant(c, w, a) && NodeInvariant(c, w, b) && NodeInvariant(c, w, s);
    LiveIsConsistent(c, w, a);
    LiveIsConsistent(c, w, b);
    if s != a && s != b {
      SaidOnce(w, s, t, p.roster, u, q.roster);
    } else if s == a && s != b {
      SettledStandsBy(w, a, u, q.roster);
    } else if s == b && s != a {
      SettledStandsBy(w, b, t, p.roster);
    }
    RosterNamesTable(c, p, q);
  }

  /** Agreement: in every run that forgets no commitment, two settled peers whose
      memberships share one honest member sit at one table. Loss, repetition,
      reordering, crashes, refused records, failed writes and any number of adversarial
      keys make no difference. */
  lemma SettledPeersAgree(c: Crypto, w: World, events: seq<Event>, end: World)
    requires SignsTruly(c) && Fresh(w) && Leads(c, w, events, end) && NeverForgets(c, w, events)
    ensures forall a, b, s ::
      Meet(end, a, b, s) && NamesApart(c, end, a, b, s) ==> SameTable(end.nodes[a].live.value, end.nodes[b].live.value)
  {
    hide SignsTruly, Leads, Fresh, Invariant, NamesApart, SameTable, NeverForgets;
    FreshHolds(c, w);
    RunsKeep(c, w, events, end);
    forall a, b, s | Meet(end, a, b, s) && NamesApart(c, end, a, b, s)
      ensures SameTable(end.nodes[a].live.value, end.nodes[b].live.value)
    {
      SettledPairAgrees(c, end, a, b, s);
    }
  }

  lemma LiveIsConsistent(c: Crypto, w: World, k: Bytes)
    requires k in w.nodes && NodeInvariant(c, w, k) && w.nodes[k].live.Some?
    ensures Consistent(c, w.nodes[k].live.value) && w.nodes[k].live.value.terms == w.nodes[k].terms
  {
    hide Consistent;
  }

  lemma FreshHolds(c: Crypto, w: World)
    requires Fresh(w)
    ensures Invariant(c, w)
  {
    hide Vetted, Committal;
    forall k | k in w.nodes ensures NodeInvariant(c, w, k) {
      StartsUncommitted(w, k);
    }
  }

  /** Nobody can frame an honest peer: no run that forgets no commitment leaves any
      process holding a proof that another honest key committed to two rosters. */
  lemma HonestPeersAreNeverFramed(c: Crypto, w: World, events: seq<Event>, end: World, a: Bytes, s: Bytes)
    requires SignsTruly(c) && Fresh(w) && Leads(c, w, events, end) && NeverForgets(c, w, events)
    requires a in end.nodes && s in end.nodes && a != s
    requires end.nodes[a].live.Some? && end.nodes[a].live.value.conflict.Some?
    requires
      var p := end.nodes[a].live.value;
      var x := p.conflict.value;
      NoCollision(c.hash, Signed(c, end) +
        {CommitBytes(TermsHash(c, p.terms), x.first.roster), CommitBytes(TermsHash(c, p.terms), x.second.roster)})
    ensures end.nodes[a].live.value.conflict.value.first.signer != s
  {
    hide SignsTruly, Leads, NeverForgets, Consistent, Signed, TermsHash, CommitBytes, NoCollision, CommitDigest;
    FreshHolds(c, w);
    RunsKeep(c, w, events, end);
    var p := end.nodes[a].live.value;
    var x := p.conflict.value;
    assert NodeInvariant(c, end, a) && NodeInvariant(c, end, s);
    if x.first.signer == s {
      var strings := Signed(c, end) +
        {CommitBytes(TermsHash(c, p.terms), x.first.roster), CommitBytes(TermsHash(c, p.terms), x.second.roster)};
      var t := VouchedCommit(c, end, s, p.terms, x.first.roster, strings);
      var u := VouchedCommit(c, end, s, p.terms, x.second.roster, strings);
      SaidOnce(end, s, t, x.first.roster, u, x.second.roster);
    }
  }
}
