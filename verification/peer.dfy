/** The formation object itself: fields a peer's messages update in place, each
    method proved to take the step the formation module specifies. */
module FormationPeer {
  import opened ByteStrings
  import opened Escrow
  import opened Finance
  import opened Messages
  import opened Formation

  class TableFormation {
    const c: Crypto
    const terms: TableTerms
    const creds: Credentials
    var joins: map<Bytes, Join>
    var commits: map<Bytes, Commit>
    var asserts: map<Bytes, Hash32>
    var closed: bool
    var phase: Phase
    var reason: Reason
    var canonical: Option<seq<Bytes>>
    var roster: Hash32
    var conflict: Option<Conflict>
    var beacon: Option<Bytes>

    ghost function View(): Peer
      reads this
    {
      Peer(terms, creds, joins, commits, asserts, closed, phase, reason, canonical, roster, conflict, beacon)
    }

    ghost predicate Valid()
      reads this
    {
      Consistent(c, View())
    }

    constructor Empty(c: Crypto, t: TableTerms, k: Credentials)
      ensures this.c == c && this.terms == t && this.creds == k && View() == Start(t, k)
    {
      this.c, terms, creds := c, t, k;
      joins, commits, asserts, closed := map[], map[], map[], false;
      phase, reason, canonical, roster := Joining, NoReason, None, NO_ROSTER;
      conflict, beacon := None, None;
    }

    /** Forming a table with one's own join; refused terms or credentials give nothing. */
    static method NewFormation(c: Crypto, t: TableTerms, k: Credentials) returns (f: TableFormation?)
      ensures f == null <==> New(c, t, k).None?
      ensures f != null ==> fresh(f) && f.c == c && f.View() == New(c, t, k).value && f.Valid()
    {
      if !ValidTerms(t) || !ValidCredentials(k) || |k.session| != KEY_LEN {
        return null;
      }
      var ours := SignJoin(c, t, k);
      if !JoinVerifies(c, t, ours) {
        return null;
      }
      f := new TableFormation.Empty(c, t, k);
      var ok := f.AddJoin(ours);
      NewIsConsistent(c, t, k);
    }

    method Keys() returns (keys: seq<Bytes>)
      ensures multiset(keys) == multiset(joins.Keys)
    {
      keys := [];
      var todo := joins.Keys;
      while todo != {}
        invariant todo <= joins.Keys
        invariant multiset(keys) + multiset(todo) == multiset(joins.Keys)
        decreases |todo|
      {
        var k :| k in todo;
        keys := keys + [k];
        assert multiset(todo) == multiset(todo - {k}) + multiset{k};
        todo := todo - {k};
      }
    }

    method GiveUp(why: Reason)
      modifies this
      ensures View() == Abort(old(View()), why)
    {
      phase, reason, canonical := Aborted, why, None;
    }

    /** Advances the state machine after anything was admitted. */
    method Recompute()
      modifies this
      ensures View() == Formation.Recompute(c, old(View()))
    {
      if phase == Aborted || phase == Settled {
        return;
      }
      if phase != Committed {
        if |joins| > terms.seats {
          GiveUp(Oversubscribed(|joins|, terms.seats));
        } else if |joins| == terms.seats {
          var keys := Keys();
          SameMembers(c.curve, joins.Keys, keys);
          var members := SortMembers(c.curve, keys);
          if members.None? {
            GiveUp(Unusable);
          } else {
            canonical, roster, phase := members, RosterHash(c, terms, members.value), Formed;
          }
        } else {
          canonical, phase := None, Joining;
        }
        return;
      }
      if canonical.Some? {
        var members := canonical.value;
        for i := 0 to |members|
          invariant View() == old(View())
          invariant forall n :: 0 <= n < i ==> members[n] in commits && commits[members[n]].roster == roster
        {
          if members[i] !in commits || commits[members[i]].roster != roster {
            assert members[i] in canonical.value;
            return;
          }
        }
      }
      phase := Settled;
    }

    /** Admits one join; false when it does not verify. */
    method AddJoin(j: Join) returns (ok: bool)
      modifies this
      ensures View() == Admit(c, old(View()), j)
      ensures ok <==> old(phase) in {Aborted, Settled} || JoinVerifies(c, terms, j)
    {
      hide JoinVerifies;
      if phase == Aborted || phase == Settled {
        return true;
      }
      if !JoinVerifies(c, terms, j) {
        return false;
      }
      ok := true;
      if j.key in joins || phase == Committed || closed {
        return;
      }
      joins := joins[j.key := j];
      Recompute();
    }

    /** Files another peer's claim and adopts the joins it shows, or refuses the
        claim whole. */
    method AddAssertion(a: Assertion, js: seq<Join>) returns (ok: bool)
      modifies this
      ensures View() == TakeAssertion(c, old(View()), a, js)
      ensures ok <==> old(phase) in {Aborted, Settled} || (AssertionVerifies(c, terms, a) && AllVerify(c, terms, js))
    {
      hide JoinVerifies, AssertionVerifies, Admit, Formation.Recompute;
      if phase == Aborted || phase == Settled {
        return true;
      }
      if !AssertionVerifies(c, terms, a) {
        return false;
      }
      for i := 0 to |js|
        invariant AllVerify(c, terms, js[..i]) && View() == old(View())
      {
        if !JoinVerifies(c, terms, js[i]) {
          return false;
        }
      }
      assert js[..|js|] == js;
      asserts := asserts[a.signer := a.roster];
      ghost var filed := View();
      for i := 0 to |js|
        invariant AdmitAll(c, filed, js) == AdmitAll(c, View(), js[i..])
      {
        assert js[i..][1..] == js[i + 1..];
        ok := AddJoin(js[i]);
        assert ok;
      }
      Recompute();
      ok := true;
    }

    /** Admits one peer's binding; a second, different one ends the table. */
    method AddCommit(m: Commit) returns (ok: bool)
      modifies this
      ensures View() == TakeCommit(c, old(View()), m)
      ensures ok <==> old(phase) == Aborted || CommitVerifies(c, terms, m)
      ensures
        old(phase) != Aborted && CommitVerifies(c, terms, m) && m.signer in old(commits)
          && old(commits)[m.signer].roster != m.roster ==>
        && conflict == Some(Conflict(old(commits)[m.signer], m)) && commits == old(commits)
        && if old(phase) == Settled then phase == Settled else phase == Aborted && reason == TwoRosters(m.signer)
    {
      hide CommitVerifies;
      if phase == Aborted {
        return true;
      }
      if !CommitVerifies(c, terms, m) {
        return false;
      }
      ok := true;
      if m.signer in commits {
        var prev := commits[m.signer];
        if prev.roster == m.roster {
          return;
        }
        conflict := Some(Conflict(prev, m));
        if phase != Settled {
          GiveUp(TwoRosters(m.signer));
        }
        return;
      }
      commits := commits[m.signer := m];
      Recompute();
    }

    /** Commits this peer to the membership it holds. */
    method Bind() returns (m: Option<Commit>)
      requires Valid()
      modifies this
      ensures View() == Formation.Bind(c, old(View()))
      ensures m.Some? <==> old(phase) in {Formed, Committed, Settled}
      ensures m.Some? ==> m.value == SignCommit(c, terms, old(roster), creds.session)
    {
      hide JoinsStand, CommitsStand, SignJoin, SignCommit, RosterHash, InOrder;
      if phase == Committed || phase == Settled {
        return Some(commits[creds.session]);
      }
      if phase != Formed {
        return None;
      }
      var own := SignCommit(c, terms, roster, creds.session);
      commits := commits[creds.session := own];
      phase := Committed;
      Recompute();
      m := Some(own);
    }

    method CloseWindow()
      modifies this
      ensures View() == Formation.CloseWindow(old(View()))
      ensures old(phase) in {Formed, Committed} ==> closed && phase == old(phase)
      ensures old(phase) == Joining && !old(closed) ==>
        closed && phase == Aborted && reason == ShortAtDeadline(|joins|, terms.seats)
      ensures old(phase) in {Settled, Aborted} ==> View() == old(View())
    {
      if closed || phase == Aborted || phase == Settled {
        return;
      }
      closed := true;
      if phase == Joining {
        GiveUp(ShortAtDeadline(|joins|, terms.seats));
      }
    }

    /** Whether every member said it holds this same membership. */
    method Agreed() returns (agreed: bool)
      ensures agreed <==> Formation.Agreed(View())
      ensures agreed <==>
        canonical.Some? && forall k :: k in canonical.value ==> k in asserts && asserts[k] == roster
    {
      if canonical.None? {
        return false;
      }
      var members := canonical.value;
      for i := 0 to |members|
        invariant forall n :: 0 <= n < i ==> members[n] in asserts && asserts[members[n]] == roster
      {
        if members[i] !in asserts || asserts[members[i]] != roster {
          assert members[i] in canonical.value;
          return false;
        }
      }
      return true;
    }

    method MakeAssertion() returns (a: Option<Assertion>)
      modifies this
      ensures View() == Formation.Assert(c, old(View()))
      ensures a.Some? <==> old(canonical).Some?
      ensures a.Some? ==> a.value == SignAssertion(c, terms, old(roster), creds.session)
      ensures asserts == if old(canonical).Some? then old(asserts)[creds.session := old(roster)] else old(asserts)
    {
      hide SignAssertion;
      if canonical.None? {
        return None;
      }
      asserts := asserts[creds.session := roster];
      a := Some(SignAssertion(c, terms, roster, creds.session));
    }

    method SetBeacon(hash: Bytes) returns (ok: bool)
      modifies this
      ensures View() == Formation.SetBeacon(old(View()), hash)
      ensures ok <==> hash != []
      ensures beacon == if hash == [] || old(beacon).Some? then old(beacon) else Some(hash)
    {
      ok := hash != [];
      if ok && beacon.None? {
        beacon := Some(hash);
      }
    }

    method Abandon(why: string)
      modifies this
      ensures View() == Formation.Abandon(old(View()), why)
      ensures old(phase) in {Formed, Committed, Settled} ==> phase == Aborted && reason == GivenUp(why)
      ensures old(phase) in {Joining, Aborted} ==> View() == old(View())
    {
      if phase in {Formed, Committed, Settled} {
        phase, reason := Aborted, GivenUp(why);
      }
    }
  }

  /** The order a map is walked in does not reach the membership. */
  lemma SameMembers(curve: Curve, keys: set<Bytes>, s: seq<Bytes>)
    requires multiset(s) == multiset(keys)
    ensures CanonicalMembers(curve, s) == CanonicalMembers(curve, Listing(keys))
  {
    var l := Listing(keys);
    assert |multiset(s)| == |s| && |multiset(l)| == |l|;
    InOrderOf(keys, s);
    if i :| 0 <= i < |s| && !IsKey(curve, s[i]) {
      assert s[i] in multiset(l);
      var n :| 0 <= n < |l| && l[n] == s[i];
    }
    if i :| 0 <= i < |l| && !IsKey(curve, l[i]) {
      assert l[i] in multiset(s);
      var n :| 0 <= n < |s| && s[n] == l[i];
    }
  }
}
