/** What a table leaves on disk, and the formation a restart makes of it. */
module TableStore {
  import opened ByteStrings
  import opened Escrow
  import opened Finance
  import opened Messages
  import opened Formation
  import opened FormationPeer
  import opened Confluence

  datatype Record = Record(
    terms: TableTerms, joins: seq<Join>, commits: seq<Commit>,
    beacon: Option<Bytes>, bound: Option<Hash32>, aborted: Option<Reason>, recovery: bool)

  /** What a record comes back as: a table, perhaps kept for recovery only; a table
      accepted but not yet joined; a session that is over; or nothing at all. */
  datatype Resumed = Table(peer: Peer, recovery: bool) | Accepted | Ended(reason: Reason) | Refused

  predicate IsBound(p: Peer) { p.phase in {Committed, Settled} }

  function Pick<T>(m: map<Bytes, T>, keys: seq<Bytes>): seq<T>
    requires forall k :: k in keys ==> k in m
  {
    seq(|keys|, i requires 0 <= i < |keys| => m[keys[i]])
  }

  /** The entries of a map in the order of their keys. */
  ghost function Ordered<T>(m: map<Bytes, T>): seq<T> {
    InOrderHolds(m.Keys);
    Pick(m, InOrder(m.Keys))
  }

  ghost function SnapshotOf(p: Peer, recovery: bool): Record {
    Record(
      p.terms, Ordered(p.joins), Ordered(p.commits), p.beacon,
      if p.canonical.Some? && IsBound(p) then Some(p.roster) else None,
      if p.phase == Aborted then Some(p.reason) else None, recovery)
  }

  // ---- Coming back ----

  ghost function JoinAll(c: Crypto, p: Peer, js: seq<Join>): Option<Peer>
    decreases |js|
  {
    if js == [] then Some(p)
    else if p.phase !in {Aborted, Settled} && !JoinVerifies(c, p.terms, js[0]) then None
    else JoinAll(c, Admit(c, p, js[0]), js[1..])
  }

  ghost function CommitAll(c: Crypto, p: Peer, ms: seq<Commit>): Option<Peer>
    decreases |ms|
  {
    if ms == [] then Some(p)
    else if p.phase != Aborted && !CommitVerifies(c, p.terms, ms[0]) then None
    else CommitAll(c, TakeCommit(c, p, ms[0]), ms[1..])
  }

  /** Binding again must reproduce the roster already committed to. */
  ghost function Rebind(c: Crypto, p: Peer, bound: Option<Hash32>): Option<Peer> {
    if bound.None? then Some(p)
    else if p.phase !in {Formed, Committed, Settled} || p.roster != bound.value then None
    else Some(Bind(c, p))
  }

  ghost function Rebuild(c: Crypto, rec: Record, k: Credentials): Option<Peer> {
    match New(c, rec.terms, k)
    case None => None
    case Some(begun) =>
      match JoinAll(c, begun, rec.joins)
      case None => None
      case Some(joined) =>
        match Rebind(c, joined, rec.bound)
        case None => None
        case Some(bound) =>
          match CommitAll(c, bound, rec.commits)
          case None => None
          case Some(p) =>
            if rec.beacon.None? then Some(p)
            else if rec.beacon.value == [] then None
            else Some(SetBeacon(p, rec.beacon.value))
  }

  /** An aborted table is over, unless money is still held at it: then it comes back
      for recovery only. Nothing comes back when the seat's credentials cannot be made
      or the game will not take its own state back up. */
  ghost function ResumeOf(c: Crypto, rec: Record, k: Credentials, held: bool, loads: bool): Resumed {
    if !ValidTerms(rec.terms) then Refused
    else if rec.aborted.Some? && !held then Ended(rec.aborted.value)
    else if !loads then Refused
    else if rec.joins == [] && rec.bound.None? && rec.beacon.None? then Accepted
    else
      match Rebuild(c, rec, k)
      case None => Refused
      case Some(p) => Table(p, rec.recovery || rec.aborted.Some?)
  }

  // ---- The methods ----

  method SortedKeys<T>(m: map<Bytes, T>) returns (keys: seq<Bytes>)
    ensures keys == InOrder(m.Keys)
  {
    keys := [];
    var todo := m.Keys;
    while todo != {}
      invariant todo <= m.Keys
      invariant multiset(keys) + multiset(todo) == multiset(m.Keys)
      decreases |todo|
    {
      var k :| k in todo;
      keys := keys + [k];
      assert multiset(todo) == multiset(todo - {k}) + multiset{k};
      todo := todo - {k};
    }
    InOrderOf(m.Keys, keys);
    keys := Sorting.Sort(keys, Sorting.Self);
  }

  method Collect<T>(m: map<Bytes, T>) returns (entries: seq<T>)
    ensures entries == Ordered(m)
  {
    hide InOrder;
    var keys := SortedKeys(m);
    InOrderHolds(m.Keys);
    entries := [];
    for i := 0 to |keys|
      invariant entries == Pick(m, keys)[..i]
    {
      entries := entries + [m[keys[i]]];
    }
  }

  /** Renders a formation as it stands. */
  method Snapshot(f: TableFormation, recovery: bool) returns (rec: Record)
    ensures rec == SnapshotOf(f.View(), recovery)
  {
    hide Ordered;
    var joins := Collect(f.joins);
    var commits := Collect(f.commits);
    rec := Record(f.terms, joins, commits, f.beacon, None, None, recovery);
    if f.canonical.Some? && (f.phase == Committed || f.phase == Settled) {
      rec := rec.(bound := Some(f.roster));
    }
    if f.phase == Aborted {
      rec := rec.(aborted := Some(f.reason));
    }
  }

  datatype Outcome = Live(f: TableFormation, recovery: bool) | Waiting | Over(reason: Reason) | Failed

  method ReplayJoins(f: TableFormation, js: seq<Join>) returns (ok: bool)
    requires f.Valid()
    modifies f
    ensures f.Valid()
    ensures if ok then JoinAll(f.c, old(f.View()), js) == Some(f.View()) else JoinAll(f.c, old(f.View()), js).None?
  {
    hide JoinVerifies, Admit, Consistent;
    for i := 0 to |js|
      invariant f.Valid()
      invariant JoinAll(f.c, old(f.View()), js) == JoinAll(f.c, f.View(), js[i..])
    {
      assert js[i..][0] == js[i] && js[i..][1..] == js[i + 1..];
      AdmitKeeps(f.c, f.View(), js[i]);
      ok := f.AddJoin(js[i]);
      if !ok {
        return;
      }
    }
    ok := true;
  }

  method ReplayCommits(f: TableFormation, ms: seq<Commit>) returns (ok: bool)
    requires f.Valid()
    modifies f
    ensures f.Valid()
    ensures if ok then CommitAll(f.c, old(f.View()), ms) == Some(f.View()) else CommitAll(f.c, old(f.View()), ms).None?
  {
    hide CommitVerifies, TakeCommit, Consistent;
    for i := 0 to |ms|
      invariant f.Valid()
      invariant CommitAll(f.c, old(f.View()), ms) == CommitAll(f.c, f.View(), ms[i..])
    {
      assert ms[i..][0] == ms[i] && ms[i..][1..] == ms[i + 1..];
      CommitKeeps(f.c, f.View(), ms[i]);
      ok := f.AddCommit(ms[i]);
      if !ok {
        return;
      }
    }
    ok := true;
  }

  /** Replays a record into a new formation, or gives up. */
  method RebuildTable(c: Crypto, rec: Record, k: Credentials) returns (f: TableFormation?)
    requires SignsTruly(c)
    ensures if f == null then Rebuild(c, rec, k).None?
      else Rebuild(c, rec, k) == Some(f.View()) && fresh(f) && f.Valid()
  {
    hide ValidTerms, SignsTruly, Bind, Formation.SetBeacon, New, Consistent, JoinAll, CommitAll;
    f := TableFormation.NewFormation(c, rec.terms, k);
    if f == null {
      return;
    }
    var ok := ReplayJoins(f, rec.joins);
    if !ok {
      return null;
    }
    if rec.bound.Some? {
      BindKeeps(c, f.View());
      var m := f.Bind();
      if m.None? || m.value.roster != rec.bound.value {
        return null;
      }
    }
    ok := ReplayCommits(f, rec.commits);
    if !ok {
      return null;
    }
    if rec.beacon.Some? {
      BeaconKeeps(c, f.View(), rec.beacon.value);
      ok := f.SetBeacon(rec.beacon.value);
      if !ok {
        return null;
      }
    }
  }

  /** Brings one table back from its record. The game is asked last. */
  method Resume(c: Crypto, rec: Record, k: Credentials, held: bool, loads: bool) returns (r: Outcome)
    requires SignsTruly(c)
    ensures
      match r
      case Live(f, recovery) => ResumeOf(c, rec, k, held, loads) == Table(f.View(), recovery) && fresh(f) && f.Valid()
      case Waiting => ResumeOf(c, rec, k, held, loads) == Accepted
      case Over(why) => ResumeOf(c, rec, k, held, loads) == Ended(why)
      case Failed => ResumeOf(c, rec, k, held, loads) == Refused
  {
    hide ValidTerms, SignsTruly, Rebuild, Consistent;
    if !ValidTerms(rec.terms) {
      return Failed;
    }
    if rec.aborted.Some? && !held {
      return Over(rec.aborted.value);
    }
    if rec.joins == [] && rec.bound.None? && rec.beacon.None? {
      return if loads then Waiting else Failed;
    }
    var f := RebuildTable(c, rec, k);
    if f == null || !loads {
      return Failed;
    }
    r := Live(f, rec.recovery || rec.aborted.Some?);
  }

  // ---- Whatever the record says ----

  lemma {:induction false} JoinAllKeeps(c: Crypto, p: Peer, js: seq<Join>)
    requires Consistent(c, p) && JoinAll(c, p, js).Some?
    ensures Consistent(c, JoinAll(c, p, js).value)
    decreases |js|
  {
    if js != [] {
      AdmitKeeps(c, p, js[0]);
      JoinAllKeeps(c, Admit(c, p, js[0]), js[1..]);
    }
  }

  /** Once bound to a roster, bound to it for good, or given up. */
  predicate Pinned(p: Peer, roster: Hash32) {
    p.phase == Aborted || (IsBound(p) && p.roster == roster)
  }

  lemma {:induction false} CommitAllKeeps(c: Crypto, p: Peer, ms: seq<Commit>)
    requires Consistent(c, p) && CommitAll(c, p, ms).Some?
    ensures Consistent(c, CommitAll(c, p, ms).value)
    ensures forall r :: Pinned(p, r) ==> Pinned(CommitAll(c, p, ms).value, r)
    decreases |ms|
  {
    hide Consistent;
    if ms != [] {
      CommitKeeps(c, p, ms[0]);
      CommitAllKeeps(c, TakeCommit(c, p, ms[0]), ms[1..]);
    }
  }

  /** Any record at all, edited or damaged, is refused or makes a consistent
      formation; and one that says its key committed to a roster never comes
      back bound to another. */
  lemma ResumedStandsByItsRoster(c: Crypto, rec: Record, k: Credentials, held: bool, loads: bool)
    requires SignsTruly(c) && ResumeOf(c, rec, k, held, loads).Table?
    ensures
      var p := ResumeOf(c, rec, k, held, loads).peer;
      && Consistent(c, p)
      && (rec.bound.Some? ==> Pinned(p, rec.bound.value))
  {
    hide Consistent, JoinAll, CommitAll, New, SignsTruly;
    var begun := New(c, rec.terms, k).value;
    NewIsConsistent(c, rec.terms, k);
    JoinAllKeeps(c, begun, rec.joins);
    var joined := JoinAll(c, begun, rec.joins).value;
    BindKeeps(c, joined);
    var bound := Rebind(c, joined, rec.bound).value;
    assert rec.bound.Some? ==> Pinned(bound, rec.bound.value);
    CommitAllKeeps(c, bound, rec.commits);
    var p := CommitAll(c, bound, rec.commits).value;
    if rec.beacon.Some? {
      BeaconKeeps(c, p, rec.beacon.value);
    }
  }

  // ---- The record of a formation brings it back ----

  /** The part of a map that a longer one agrees with. */
  predicate PartOf<T(==)>(part: map<Bytes, T>, whole: map<Bytes, T>) {
    forall k :: k in part ==> k in whole && part[k] == whole[k]
  }

  lemma SameKeysSameMap<T>(part: map<Bytes, T>, whole: map<Bytes, T>)
    requires PartOf(part, whole) && whole.Keys <= part.Keys
    ensures part == whole
  {
  }

  /** Joins a formation already holds, given again one at a time. */
  lemma {:induction false} JoinsComeBack(c: Crypto, q: Peer, p: Peer, order: seq<Bytes>)
    requires Consistent(c, p) && Consistent(c, q)
    requires p.terms == q.terms && |p.joins| <= p.terms.seats
    requires PartOf(q.joins, p.joins) && forall k :: k in order ==> k in p.joins
    requires q.phase in {Joining, Formed} && !q.closed
    ensures
      var r := JoinAll(c, q, Pick(p.joins, order));
      && r.Some? && Consistent(c, r.value)
      && PartOf(r.value.joins, p.joins)
      && r.value.joins.Keys == q.joins.Keys + (set k | k in order)
      && r.value.phase in {Joining, Formed}
      && r.value == q.(joins := r.value.joins, phase := r.value.phase, canonical := r.value.canonical,
        roster := r.value.roster)
    decreases |order|
  {
    hide Consistent, Admit, JoinVerifies, InOrder;
    if order == [] {
      assert q.joins.Keys + (set k | k in order) == q.joins.Keys;
    } else {
      var k := order[0];
      var js := Pick(p.joins, order);
      assert k in order && js[0] == p.joins[k];
      assert js[1..] == Pick(p.joins, order[1..]);
      OneJoinComesBack(c, q, p, k);
      JoinsComeBack(c, Admit(c, q, js[0]), p, order[1..]);
      assert (set x | x in order) == {k} + (set x | x in order[1..]) by {
        assert order == [k] + order[1..];
      }
    }
  }

  lemma OneJoinComesBack(c: Crypto, q: Peer, p: Peer, k: Bytes)
    requires Consistent(c, p) && Consistent(c, q)
    requires p.terms == q.terms && |p.joins| <= p.terms.seats
    requires PartOf(q.joins, p.joins) && k in p.joins
    requires q.phase in {Joining, Formed} && !q.closed
    ensures JoinVerifies(c, q.terms, p.joins[k])
    ensures
      var r := Admit(c, q, p.joins[k]);
      && Consistent(c, r) && PartOf(r.joins, p.joins) && r.joins.Keys == q.joins.Keys + {k}
      && r.phase in {Joining, Formed}
      && r == q.(joins := r.joins, phase := r.phase, canonical := r.canonical, roster := r.roster)
  {
    hide JoinVerifies, CommitsStand, SignJoin, SignCommit, ValidTerms, ValidCredentials, Seated, BoundToOwn,
      Recompute, Listing, InOrder;
    AdmitKeeps(c, q, p.joins[k]);
    if k !in q.joins {
      var more := q.joins[k := p.joins[k]];
      assert |more| <= |p.joins| by {
        SubsetSize(more.Keys, p.joins.Keys);
        assert |more.Keys| == |more| && |p.joins.Keys| == |p.joins|;
      }
      RecomputeSeats(c, q, more);
    }
  }

  lemma RecomputeSeats(c: Crypto, q: Peer, joins: map<Bytes, Join>)
    requires ValidTerms(q.terms) && q.phase in {Joining, Formed}
    requires |joins| <= q.terms.seats && JoinsStand(c, q.terms, joins)
    ensures
      var r := Recompute(c, q.(joins := joins));
      && r.phase in {Joining, Formed}
      && r == q.(joins := joins, phase := r.phase, canonical := r.canonical, roster := r.roster)
  {
    hide JoinVerifies, RosterHash, InOrder, Listing, CanonicalMembers, ValidTerms;
    SeatsFit(q.terms);
    if |joins| == q.terms.seats {
      VerifiedKeysAreUsable(c, q.(joins := joins));
    }
  }

  /** Commits a formation already holds, given again one at a time. */
  lemma {:induction false} CommitsComeBack(c: Crypto, q: Peer, p: Peer, order: seq<Bytes>)
    requires Consistent(c, p) && Consistent(c, q)
    requires p.terms == q.terms && PartOf(q.commits, p.commits) && forall k :: k in order ==> k in p.commits
    requires q.phase != Aborted
    ensures
      var r := CommitAll(c, q, Pick(p.commits, order));
      && r.Some? && Consistent(c, r.value)
      && PartOf(r.value.commits, p.commits)
      && r.value.commits.Keys == q.commits.Keys + (set k | k in order)
      && r.value.phase != Aborted && (IsBound(q) <==> IsBound(r.value))
      && r.value == q.(commits := r.value.commits, phase := r.value.phase)
    decreases |order|
  {
    hide Consistent, TakeCommit, CommitVerifies, InOrder;
    if order == [] {
      assert q.commits.Keys + (set k | k in order) == q.commits.Keys;
    } else {
      var k := order[0];
      var ms := Pick(p.commits, order);
      assert k in order && ms[0] == p.commits[k];
      assert ms[1..] == Pick(p.commits, order[1..]);
      OneCommitComesBack(c, q, p, k);
      CommitsComeBack(c, TakeCommit(c, q, ms[0]), p, order[1..]);
      assert (set x | x in order) == {k} + (set x | x in order[1..]) by {
        assert order == [k] + order[1..];
      }
    }
  }

  lemma OneCommitComesBack(c: Crypto, q: Peer, p: Peer, k: Bytes)
    requires Consistent(c, p) && Consistent(c, q)
    requires p.terms == q.terms && PartOf(q.commits, p.commits) && k in p.commits
    requires q.phase != Aborted
    ensures CommitVerifies(c, q.terms, p.commits[k])
    ensures
      var r := TakeCommit(c, q, p.commits[k]);
      && Consistent(c, r) && PartOf(r.commits, p.commits) && r.commits.Keys == q.commits.Keys + {k}
      && r.phase != Aborted && (IsBound(q) <==> IsBound(r))
      && r == q.(commits := r.commits, phase := r.phase)
  {
    hide CommitVerifies, JoinsStand, SignJoin, SignCommit, ValidTerms, ValidCredentials, Seated, BoundToOwn,
      Recompute, Listing, InOrder;
    CommitKeeps(c, q, p.commits[k]);
    if k !in q.commits {
      RecomputeAdvances(c, q, q.commits[k := p.commits[k]]);
    }
  }

  lemma RecomputeAdvances(c: Crypto, q: Peer, commits: map<Bytes, Commit>)
    requires Consistent(c, q) && q.phase != Aborted
    ensures
      var r := Recompute(c, q.(commits := commits));
      r.phase != Aborted && (IsBound(q) <==> IsBound(r)) && r == q.(commits := commits, phase := r.phase)
  {
    hide CommitVerifies, JoinVerifies, SignJoin, SignCommit, ValidTerms, ValidCredentials, RosterHash, InOrder,
      Listing, CanonicalMembers;
    SeatsFit(q.terms);
    if q.phase == Formed {
      VerifiedKeysAreUsable(c, q);
    }
  }

  lemma KeysInOrder<T>(m: map<Bytes, T>)
    ensures (set k | k in InOrder(m.Keys)) == m.Keys
    ensures forall k :: k in InOrder(m.Keys) ==> k in m
  {
    InOrderHolds(m.Keys);
  }

  /** Everything about a formation but the three things its record leaves out. */
  function Remembered(p: Peer): Peer {
    p.(closed := false, asserts := map[], conflict := None)
  }

  lemma PhaseIsDecided(c: Crypto, p: Peer, q: Peer)
    requires Consistent(c, p) && Consistent(c, q) && p.phase != Aborted && q.phase != Aborted
    requires p.terms == q.terms && p.joins == q.joins && p.commits == q.commits && (IsBound(p) <==> IsBound(q))
    ensures p.phase == q.phase && p.canonical == q.canonical && p.roster == q.roster && p.reason == q.reason
  {
    hide JoinsStand, CommitsStand, SignJoin, SignCommit, ValidTerms, ValidCredentials, RosterHash, InOrder;
  }

  lemma JoinsRebuild(c: Crypto, p: Peer)
    requires Consistent(c, p) && p.phase != Aborted
    ensures New(c, p.terms, p.creds).Some?
    ensures
      var r := JoinAll(c, New(c, p.terms, p.creds).value, Ordered(p.joins));
      && r.Some? && Consistent(c, r.value) && r.value.phase in {Joining, Formed}
      && r.value == Start(p.terms, p.creds).(joins := p.joins, phase := r.value.phase,
        canonical := r.value.canonical, roster := r.value.roster)
  {
    hide JoinVerifies, CommitVerifies, SignJoin, SignCommit, ValidTerms, ValidCredentials, RosterHash, InOrder,
      CanonicalMembers, Listing, Admit, JoinAll;
    SignJoinKey(c, p.terms, p.creds);
    NewIsConsistent(c, p.terms, p.creds);
    var begun := New(c, p.terms, p.creds).value;
    KeysInOrder(p.joins);
    JoinsComeBack(c, begun, p, InOrder(p.joins.Keys));
    SameKeysSameMap(JoinAll(c, begun, Ordered(p.joins)).value.joins, p.joins);
  }

  /** Restarting is a round trip: the record of any formation that has not ended
      rebuilds the same phase, joins, membership, roster, commits and beacon. */
  lemma RestartRebuilds(c: Crypto, p: Peer, recovery: bool, held: bool)
    requires SignsTruly(c) && Consistent(c, p) && p.phase != Aborted
    ensures ResumeOf(c, SnapshotOf(p, recovery), p.creds, held, true) == Table(Remembered(p), recovery)
  {
    hide JoinVerifies, CommitVerifies, JoinsStand, CommitsStand, SignJoin, SignCommit, ValidCredentials, RosterHash,
      InOrder, SignsTruly, CanonicalMembers, Listing, New, JoinAll, CommitAll, Recompute, Bind, ResumeOf, Rebuild,
      ValidTerms;
    JoinsRebuild(c, p);
    var begun := New(c, p.terms, p.creds).value;
    KeysInOrder(p.joins);
    var joined := JoinAll(c, begun, Ordered(p.joins)).value;
    BoundAgain(c, joined, p);
    var bound := if IsBound(p) then Bind(c, joined) else joined;
    KeysInOrder(p.commits);
    CommitsComeBack(c, bound, p, InOrder(p.commits.Keys));
    var q := CommitAll(c, bound, Ordered(p.commits)).value;
    SameKeysSameMap(q.commits, p.commits);
    PhaseIsDecided(c, p, q);
    assert Ordered(p.joins) != [] by {
      assert p.creds.session in InOrder(p.joins.Keys);
    }
    BoundPeersHaveRosters(c, p);
    Reassembles(c, SnapshotOf(p, recovery), p.creds, held, begun, joined, bound, q);
  }

  lemma BoundPeersHaveRosters(c: Crypto, p: Peer)
    requires Consistent(c, p)
    ensures IsBound(p) ==> p.canonical.Some?
    ensures ValidTerms(p.terms) && (p.beacon.Some? ==> p.beacon.value != [])
  {
    hide JoinsStand, CommitsStand, SignJoin, SignCommit, ValidCredentials, RosterHash, InOrder, ValidTerms;
  }

  /** The steps of a restart put together. */
  lemma Reassembles(
      c: Crypto, rec: Record, k: Credentials, held: bool, begun: Peer, joined: Peer, bound: Peer, q: Peer)
    requires ValidTerms(rec.terms) && (rec.aborted.None? || held) && rec.joins != []
    requires New(c, rec.terms, k) == Some(begun) && JoinAll(c, begun, rec.joins) == Some(joined)
    requires Rebind(c, joined, rec.bound) == Some(bound) && CommitAll(c, bound, rec.commits) == Some(q)
    requires rec.beacon.Some? ==> rec.beacon.value != []
    ensures ResumeOf(c, rec, k, held, true) ==
      Table(if rec.beacon.None? then q else SetBeacon(q, rec.beacon.value), rec.recovery || rec.aborted.Some?)
  {
    hide New, JoinAll, Rebind, CommitAll, ValidTerms, SetBeacon;
  }

  /** A formation with every join back binds to the roster it was bound to. */
  lemma BoundAgain(c: Crypto, q: Peer, p: Peer)
    requires SignsTruly(c) && Consistent(c, p) && p.phase != Aborted
    requires Consistent(c, q) && q.phase in {Joining, Formed} && q.joins == p.joins
    requires q == Start(p.terms, p.creds).(joins := p.joins, phase := q.phase, canonical := q.canonical,
      roster := q.roster)
    ensures IsBound(p) ==> q.phase == Formed && q.roster == p.roster
    ensures
      var r := if IsBound(p) then Bind(c, q) else q;
      && Consistent(c, r) && PartOf(r.commits, p.commits) && r.phase != Aborted
      && (IsBound(p) <==> IsBound(r))
      && r == q.(commits := r.commits, phase := r.phase)
  {
    hide JoinVerifies, CommitVerifies, JoinsStand, CommitsStand, SignJoin, SignCommit, ValidTerms, ValidCredentials,
      RosterHash, InOrder, SignsTruly, CanonicalMembers, Listing;
    BindKeeps(c, q);
  }

  /** What comes back as a usable table is the formation itself exactly when it had
      not ended, its window was open, no claim was filed and no conflict proved. */
  lemma RestartIsExact(c: Crypto, p: Peer, held: bool, loads: bool)
    requires SignsTruly(c) && Consistent(c, p)
    ensures ResumeOf(c, SnapshotOf(p, false), p.creds, held, loads) == Table(p, false)
       <==> loads && p.phase != Aborted && !p.closed && p.asserts == map[] && p.conflict == None
  {
    hide Consistent, SignsTruly;
    if p.phase != Aborted {
      RestartRebuilds(c, p, false, held);
    }
  }

  // ---- The record of a table given up ----

  /** Joins that stand are all given back, whatever they make of the formation. */
  lemma {:induction false} StandingJoinsReplay(c: Crypto, q: Peer, p: Peer, order: seq<Bytes>)
    requires JoinsStand(c, p.terms, p.joins) && p.terms == q.terms && forall k :: k in order ==> k in p.joins
    ensures
      var r := JoinAll(c, q, Pick(p.joins, order));
      r.Some? && r.value.terms == q.terms && r.value.commits == q.commits && r.value.conflict == q.conflict
    ensures
      var r := JoinAll(c, q, Pick(p.joins, order)).value;
      r.creds == q.creds && (!IsBound(q) ==> !IsBound(r))
    decreases |order|
  {
    hide Recompute, JoinVerifies;
    if order != [] {
      var js := Pick(p.joins, order);
      assert order[0] in order && js[0] == p.joins[order[0]];
      assert js[1..] == Pick(p.joins, order[1..]);
      RecomputeLeaves(c, q.(joins := q.joins[js[0].key := js[0]]));
      StandingJoinsReplay(c, Admit(c, q, js[0]), p, order[1..]);
    }
  }

  /** Commits that stand, one a signer, are all given back, and prove no conflict. */
  lemma {:induction false} StandingCommitsReplay(c: Crypto, q: Peer, p: Peer, order: seq<Bytes>)
    requires CommitsStand(c, p.terms, p.commits) && p.terms == q.terms && forall k :: k in order ==> k in p.commits
    requires PartOf(q.commits, p.commits) && q.conflict.None?
    ensures
      var r := CommitAll(c, q, Pick(p.commits, order));
      r.Some? && PartOf(r.value.commits, p.commits) && r.value.conflict.None?
    ensures
      var r := CommitAll(c, q, Pick(p.commits, order)).value;
      r.terms == q.terms && r.creds == q.creds && (!IsBound(q) ==> !IsBound(r))
    decreases |order|
  {
    hide Listing, CanonicalMembers, RosterHash, CommitVerifies;
    if order != [] {
      var ms := Pick(p.commits, order);
      assert order[0] in order && ms[0] == p.commits[order[0]];
      assert ms[1..] == Pick(p.commits, order[1..]);
      OneStandingCommit(c, q, p, order[0]);
      StandingCommitsReplay(c, TakeCommit(c, q, ms[0]), p, order[1..]);
    }
  }

  /** The parts of a formation that recomputing does not touch. */
  predicate SameSides(p: Peer, r: Peer) {
    && r.terms == p.terms && r.creds == p.creds && r.closed == p.closed
    && r.commits == p.commits && r.conflict == p.conflict
  }

  lemma AbortLeaves(p: Peer, why: Reason)
    ensures SameSides(p, Abort(p, why)) && Abort(p, why).phase == Aborted
  {
  }

  /** What recomputing does, phase by phase. */
  lemma RecomputePhases(c: Crypto, p: Peer)
    ensures
      var r := Recompute(c, p);
      if p.phase in {Aborted, Settled} then r == p
      else if p.phase == Committed then r == p || r == p.(phase := Settled)
      else
        || (exists why :: r == Abort(p, why))
        || r == p.(canonical := r.canonical, roster := r.roster, phase := Formed)
        || r == p.(canonical := None, phase := Joining)
  {
    hide RosterHash, Listing, CanonicalMembers, AllBound, Abort;
  }

  /** Recomputing leaves what was heard alone, and binds nobody. */
  lemma RecomputeLeaves(c: Crypto, p: Peer)
    ensures
      var r := Recompute(c, p);
      SameSides(p, r) && (!IsBound(p) ==> !IsBound(r)) && forall q :: Pinned(p, q) ==> Pinned(r, q)
  {
    hide Recompute, Abort;
    RecomputePhases(c, p);
    var r := Recompute(c, p);
    if why :| r == Abort(p, why) {
      AbortLeaves(p, why);
    }
  }

  lemma StandingCommit(c: Crypto, p: Peer, k: Bytes)
    requires CommitsStand(c, p.terms, p.commits) && k in p.commits
    ensures CommitVerifies(c, p.terms, p.commits[k]) && p.commits[k].signer == k
  {
    hide CommitVerifies;
  }

  lemma OneStandingCommit(c: Crypto, q: Peer, p: Peer, k: Bytes)
    requires CommitsStand(c, p.terms, p.commits) && p.terms == q.terms && k in p.commits
    requires PartOf(q.commits, p.commits) && q.conflict.None?
    ensures CommitVerifies(c, q.terms, p.commits[k]) && p.commits[k].signer == k
    ensures
      var r := TakeCommit(c, q, p.commits[k]);
      && PartOf(r.commits, p.commits) && r.conflict.None? && r.terms == q.terms && r.creds == q.creds
      && (!IsBound(q) ==> !IsBound(r))
  {
    hide Recompute, CommitVerifies, CommitsStand;
    StandingCommit(c, p, k);
    RecomputeLeaves(c, q.(commits := q.commits[k := p.commits[k]]));
  }

  /** A table given up comes back only while money is held at it, and then for
      recovery: consistent, bound to nothing, holding commits it held before and no
      proof of a conflict. */
  lemma AbortedComesBackForRecovery(c: Crypto, p: Peer, recovery: bool, held: bool, loads: bool)
    requires SignsTruly(c) && Consistent(c, p) && p.phase == Aborted
    ensures
      match ResumeOf(c, SnapshotOf(p, recovery), p.creds, held, loads)
      case Table(q, silent) =>
        && held && loads && silent && Consistent(c, q) && q.terms == p.terms && q.creds == p.creds
        && !IsBound(q) && PartOf(q.commits, p.commits) && q.conflict.None?
      case Ended(why) => !held && why == p.reason
      case Refused => held && !loads
      case Accepted => false
  {
    hide JoinVerifies, CommitVerifies, JoinsStand, CommitsStand, SignJoin, SignCommit, ValidTerms, ValidCredentials,
      RosterHash, InOrder, CanonicalMembers, Listing, New, JoinAll, CommitAll, ResumeOf, SignsTruly;
    var rec := SnapshotOf(p, recovery);
    AbortedIsSound(c, p);
    if !held || !loads {
      EndsWhenNothingHeld(c, rec, p.creds, held, loads);
    } else {
      var begun := New(c, p.terms, p.creds).value;
      KeysInOrder(p.joins);
      StandingJoinsReplay(c, begun, p, InOrder(p.joins.Keys));
      var joined := JoinAll(c, begun, rec.joins).value;
      KeysInOrder(p.commits);
      StandingCommitsReplay(c, joined, p, InOrder(p.commits.Keys));
      var q := CommitAll(c, joined, rec.commits).value;
      assert rec.joins != [] by {
        assert p.creds.session in InOrder(p.joins.Keys);
      }
      Reassembles(c, rec, p.creds, held, begun, joined, joined, q);
      ResumedStandsByItsRoster(c, rec, p.creds, held, loads);
    }
  }

  lemma EndsWhenNothingHeld(c: Crypto, rec: Record, k: Credentials, held: bool, loads: bool)
    requires ValidTerms(rec.terms) && rec.aborted.Some? && !(held && loads)
    ensures ResumeOf(c, rec, k, held, loads) == if held then Refused else Ended(rec.aborted.value)
  {
    hide ValidTerms, Rebuild;
  }

  lemma AbortedIsSound(c: Crypto, p: Peer)
    requires Consistent(c, p)
    ensures ValidTerms(p.terms) && JoinsStand(c, p.terms, p.joins) && CommitsStand(c, p.terms, p.commits)
    ensures p.creds.session in p.joins && (p.beacon.Some? ==> p.beacon.value != [])
    ensures
      var begun := New(c, p.terms, p.creds);
      && begun.Some? && Consistent(c, begun.value) && begun.value.terms == p.terms && begun.value.creds == p.creds
      && begun.value.commits == map[] && begun.value.conflict.None? && !IsBound(begun.value)
  {
    hide JoinVerifies, CommitVerifies, SignJoin, SignCommit, ValidTerms, ValidCredentials, RosterHash, InOrder,
      CanonicalMembers, Listing;
    SignJoinKey(c, p.terms, p.creds);
    NewIsConsistent(c, p.terms, p.creds);
  }
}
