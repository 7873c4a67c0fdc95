/** The key that signs a match's log, and the book that keeps it from putting its
    name to two things at one position, which would give it away. */
module LogKeys {
  import opened ByteStrings
  import opened Forfeit

  /** What a book holds after it was asked to remember. */
  function Recorded(book: map<Position, Bytes>, p: Position, m: Bytes, how: Write): map<Position, Bytes> {
    if p in book && book[p] != m then book
    else if how == Lost then book
    else book[p := m]
  }

  /** A signature leaves only for a position that is free or holds this message,
      and only once the book has it. */
  predicate Releases(book: map<Position, Bytes>, p: Position, m: Bytes, how: Write) {
    |m| == 32 && (p in book ==> book[p] == m) && how == Saved
  }

  class LogKey<P(==)> {
    const g: Group<P>
    const hash: Bytes -> Hash32
    const secret: nat
    const table: Text
    var book: map<Position, Bytes>

    constructor (g: Group<P>, hash: Bytes -> Hash32, secret: nat, table: Text, book: map<Position, Bytes>)
      ensures this.g == g && this.hash == hash && this.secret == secret && this.table == table && this.book == book
    {
      this.g, this.hash, this.secret, this.table, this.book := g, hash, secret, table, book;
    }

    method Sign(domain: Text, number: u64, m: Bytes, how: Write) returns (sig: Option<Bytes>)
      requires g.n > 0
      modifies this
      ensures
        var p := Position(table, domain, number);
        && book == (if |m| == 32 then Recorded(old(book), p, m, how) else old(book))
        && sig == (if Releases(old(book), p, m, how) then Forfeit.Sign(g, hash, secret, p, m) else None)
    {
      hide Forfeit.Sign;
      var p := Position(table, domain, number);
      if |m| != 32 {
        return None;
      }
      if p in book && book[p] != m {
        return None;
      }
      if how != Lost {
        book := book[p := m];
      }
      if how != Saved {
        return None;
      }
      sig := Forfeit.Sign(g, hash, secret, p, m);
    }

    /** Signs what its position does not determine, and keeps no book of it. */
    method SignCommitted(domain: Text, number: u64, m: Text) returns (sig: Option<Bytes>)
      requires g.n > 0
      ensures sig == Forfeit.SignCommitted(g, hash, secret, Position(table, domain, number), m)
    {
      sig := Forfeit.SignCommitted(g, hash, secret, Position(table, domain, number), m);
    }
  }

  // ---- Runs ----

  /** A key's book, everything it has let out by position, and everything it has
      committed to; restarts keep a book that outlives the process and lose one that
      does not. */
  datatype World = World(book: map<Position, Bytes>, signed: set<(Position, Bytes)>, committed: set<(Position, Text)>)

  datatype Event =
    | Signs(p: Position, m: Bytes, how: Write)
    | SignsCommitted(p: Position, text: Text)
    | Restarts
    | Forgets

  function Next(w: World, e: Event): World {
    match e
    case Signs(p, m, how) =>
      if |m| != 32 then w
      else
        w.(book := Recorded(w.book, p, m, how),
           signed := if Releases(w.book, p, m, how) then w.signed + {(p, m)} else w.signed)
    case SignsCommitted(p, m) => w.(committed := w.committed + {(p, m)})
    case Restarts => w
    case Forgets => w.(book := map[])
  }

  /** A key that has let out nothing. */
  function Unused(book: map<Position, Bytes>): World { World(book, {}, {}) }

  predicate KeepsBook(events: seq<Event>) { forall i :: 0 <= i < |events| ==> !events[i].Forgets? }

  function Run(w: World, events: seq<Event>): World
    decreases |events|
  {
    if events == [] then w else Run(Next(w, events[0]), events[1..])
  }

  ghost predicate Remembered(w: World) {
    forall x :: x in w.signed ==> x.0 in w.book && w.book[x.0] == x.1
  }

  lemma {:induction false} RunsRemember(w: World, events: seq<Event>)
    requires Remembered(w) && KeepsBook(events)
    ensures Remembered(Run(w, events))
    decreases |events|
  {
    if events != [] {
      assert !events[0].Forgets?;
      assert Remembered(Next(w, events[0]));
      RunsRemember(Next(w, events[0]), events[1..]);
    }
  }

  /** With a book that outlives the process, no run of signing, failing to record
      and restarting ever signs two messages at one position. */
  lemma NeverTwoAtOnePosition(book: map<Position, Bytes>, events: seq<Event>, p: Position, a: Bytes, b: Bytes)
    requires KeepsBook(events)
    requires
      var w := Run(Unused(book), events);
      (p, a) in w.signed && (p, b) in w.signed
    ensures a == b
  {
    RunsRemember(Unused(book), events);
  }

  /** What a key has let out. */
  predicate LetOut(w: World, x: Signing) {
    match x
    case ByPosition(p, m) => (p, m) in w.signed
    case Committing(p, m) => (p, m) in w.committed
  }

  /** So nothing an honest key lets out gives the key away: no two signatures by
      position, whether at one or at two, no two messages committed to, whether at one
      position or at two, and no one of each. */
  lemma HonestKeysAreNotRecovered<P(!new)>(
      g: Group<P>, hash: Bytes -> Hash32, d: nat, book: map<Position, Bytes>, events: seq<Event>,
      x: Signing, y: Signing)
    requires IsGroup(g) && d < g.n && KeepsBook(events)
    requires LetOut(Run(Unused(book), events), x) && LetOut(Run(Unused(book), events), y)
    requires Made(g, hash, d, x).Some? && Made(g, hash, d, y).Some?
    requires SourceOf(x) != SourceOf(y) ==> SourcesApart(g, hash, d, SourceOf(x), SourceOf(y))
    ensures
      Recover(g, hash, Public(g, d), MessageOf(x), Made(g, hash, d, x).value, MessageOf(y), Made(g, hash, d, y).value)
        == None
  {
    hide Made, Recover, IsGroup, Run, SourcesApart;
    if SourceOf(x) == SourceOf(y) {
      if x.ByPosition? {
        NeverTwoAtOnePosition(book, events, x.p, MessageOf(x), MessageOf(y));
      }
      assert x == y;
      OneSignatureKeepsTheKey(g, hash, Public(g, d), MessageOf(x), Made(g, hash, d, x).value);
    } else {
      SourcesKeepTheKey(g, hash, d, x, y);
    }
  }

  // ---- A book that is forgotten ----

  /** Two messages are signed at one position. */
  ghost predicate SignedTwice(signed: set<(Position, Bytes)>) {
    exists p, a, b :: (p, a) in signed && (p, b) in signed && a != b
  }

  lemma RememberedIsOnce(w: World)
    requires Remembered(w)
    ensures !SignedTwice(w.signed)
  {
    forall p, a, b | (p, a) in w.signed && (p, b) in w.signed ensures a == b {
      assert w.book[(p, a).0] == (p, a).1 && w.book[(p, b).0] == (p, b).1;
    }
  }

  /** What is let out by position depends on the book and adds to what was. */
  lemma {:induction false} RunAdds(w: World, events: seq<Event>)
    ensures Run(w, events).signed == w.signed + Run(Unused(w.book), events).signed
    decreases |events|
  {
    if events == [] {
      assert w.signed + {} == w.signed;
    } else {
      var v, u := Next(w, events[0]), Next(Unused(w.book), events[0]);
      assert v.book == u.book && v.signed == w.signed + u.signed;
      RunAdds(v, events[1..]);
      RunAdds(u, events[1..]);
    }
  }

  /** A book that dies with its process protects within the process and no further:
      after forgetting, a position is signed twice exactly when the empty book signs,
      at a position signed before, a message other than the one signed there. */
  lemma ForgettingIsExact(w: World, events: seq<Event>)
    requires Remembered(w) && KeepsBook(events)
    ensures SignedTwice(Run(Next(w, Forgets), events).signed) <==>
      exists p, a, b :: (p, a) in w.signed && (p, b) in Run(Unused(map[]), events).signed && a != b
  {
    hide Run;
    var v, u := Run(Next(w, Forgets), events), Run(Unused(map[]), events);
    RunAdds(Next(w, Forgets), events);
    RunsRemember(Unused(map[]), events);
    assert v.signed == w.signed + u.signed;
    RememberedIsOnce(w);
    RememberedIsOnce(u);
    if p, a, b :| (p, a) in v.signed && (p, b) in v.signed && a != b {
      assert !((p, a) in w.signed && (p, b) in w.signed) && !((p, a) in u.signed && (p, b) in u.signed);
    }
    if p, a, b :| (p, a) in w.signed && (p, b) in u.signed && a != b {
      assert (p, a) in v.signed && (p, b) in v.signed;
    }
  }

  /** For one: the next different message at a position already signed is signed too. */
  lemma ForgettingSignsTwice(w: World, p: Position, a: Bytes, b: Bytes)
    requires (p, a) in w.signed && |b| == 32
    ensures
      var v := Run(w, [Forgets, Signs(p, b, Saved)]);
      (p, a) in v.signed && (p, b) in v.signed
  {
    var s := [Forgets, Signs(p, b, Saved)];
    assert s[1..] == [Signs(p, b, Saved)];
    var v := Next(w, Forgets);
    assert Run(v, s[1..]) == Run(Next(v, s[1..][0]), s[1..][1..]);
  }
}
