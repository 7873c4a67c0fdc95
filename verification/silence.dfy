/** When a process says nothing more: once its storage has failed, and while its table is
    kept for recovery only. */
module Silence {
  import opened ByteStrings
  import opened Messages
  import opened Formation
  import opened TableStore
  import opened Agreement

  /** One process after some deeds of its own. */
  ghost function After(c: Crypto, n: Node, ds: seq<Deed>): Node
    decreases |ds|
  {
    if ds == [] then n else After(c, OnNode(c, n, ds[0]), ds[1..])
  }

  ghost predicate CommitsNothing(c: Crypto, n: Node, d: Deed) { forall s :: s in Says(c, n, d) ==> !s.Commits? }

  /** Whether a deed comes to a write, and how that write ends. */
  predicate Writes(n: Node, d: Deed) {
    match d
    case Begin(_, _, _) => Admits(n)
    case Drops(_) => n.live.Some?
    case Keeps(_) => n.live.Some? && !n.fault
    case _ => false
  }

  function WithWrite(d: Deed, how: Write): Deed
    requires d.Begin? || d.Drops? || d.Keeps?
  {
    match d
    case Begin(t, k, _) => Begin(t, k, how)
    case Drops(_) => Drops(how)
    case Keeps(_) => Keeps(how)
  }

  /** Storage is found to have failed by every write that did not end well, and by no
      other deed. Only a restart forgets it. */
  lemma FailedWriteIsFound(c: Crypto, n: Node, d: Deed)
    requires !d.Restarts?
    ensures OnNode(c, n, d).fault <==> n.fault || (Writes(n, d) && d.how != Saved)
  {
    hide New, OnPeer, SignCommit, SnapshotOf, Shelved;
  }

  /** The file is then as it was, or as it would have been, and memory is as it was. */
  lemma FailedWriteIsWhole(c: Crypto, n: Node, d: Deed)
    requires !d.Restarts? && Writes(n, d) && d.how != Saved
    ensures
      var m, whole := OnNode(c, n, d), OnNode(c, n, WithWrite(d, Saved));
      && m.live == n.live && m.unsent == n.unsent && m.kept == n.kept && m.retired == n.retired
      && (d.how == Lost ==> m.disk == n.disk && m.shelved == n.shelved)
      && (d.how == SavedLate ==> m.disk == whole.disk && m.shelved == whole.shelved)
  {
    hide New, OnPeer, SignCommit, SnapshotOf, Shelved, Restarted, Resumption;
  }

  /** And once it has, no invitation is taken up, nothing is recorded and no commit leaves
      until the process restarts, whatever it hears. */
  lemma {:induction false} FailureSilences(c: Crypto, n: Node, ds: seq<Deed>, i: nat)
    requires n.fault && i < |ds| && forall d :: d in ds ==> !d.Restarts?
    ensures After(c, n, ds[..i]).fault && CommitsNothing(c, After(c, n, ds[..i]), ds[i])
    ensures ds[i].Begin? || ds[i].Keeps? ==> OnNode(c, After(c, n, ds[..i]), ds[i]) == After(c, n, ds[..i])
    decreases |ds|
  {
    hide OnPeer, SignCommit, New;
    if i > 0 {
      assert ds[0] in ds;
      assert ds[..i][1..] == ds[1..][..i - 1];
      FailureSilences(c, OnNode(c, n, ds[0]), ds[1..], i - 1);
    }
  }

  /** A table kept for recovery hears nothing and says no commit until it is dropped or the
      process restarts: giving it up is all that still changes it. */
  lemma {:induction false} RecoveryIsSilent(c: Crypto, n: Node, ds: seq<Deed>, i: nat)
    requires n.live.Some? && n.retired && i < |ds| && forall d :: d in ds ==> !d.Restarts? && !d.Drops?
    ensures
      var m := After(c, n, ds[..i]);
      && m.live.Some? && m.retired && CommitsNothing(c, m, ds[i])
      && (OnNode(c, m, ds[i]).live == m.live || ds[i].GivesUp?)
      && m.live.value.joins == n.live.value.joins && m.live.value.commits == n.live.value.commits
    decreases |ds|
  {
    hide SignCommit, New, Restarted, Resumption, Admit, TakeAssertion, TakeCommit, CloseWindow, SetBeacon, Assert,
      Bind;
    if i > 0 {
      assert ds[0] in ds;
      assert ds[..i][1..] == ds[1..][..i - 1];
      RecoveryIsSilent(c, OnNode(c, n, ds[0]), ds[1..], i - 1);
    }
  }

  /** And once that is written down it comes back so, or not at all, and so does a table
      that was given up. */
  lemma RecoverySurvives(c: Crypto, n: Node, how: Write, held: bool, loads: bool)
    requires n.live.Some? && !n.fault && (n.retired || n.live.value.phase == Aborted) && how != Lost
    ensures
      var m := OnNode(c, OnNode(c, n, Keeps(how)), Restarts(held, loads));
      m.retired && !m.fault && m.unsent.None?
  {
    hide Restarted, Resumption;
  }
}
