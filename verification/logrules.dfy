/** What a chain that was appended entry by entry is, said of its entries and not of how
    it came about. */
module LogRules {
  import opened ByteStrings
  import opened Forfeit
  import opened GameLog
  import opened Transcripts

  /** What an entry follows: the one before it, or the match's first link. */
  function LinkBefore<P>(s: Suite<P>, c: Chain, i: nat): Hash32
    requires i <= |c.entries|
  {
    if i == 0 then s.hash(GenesisBytes(c.id)) else s.hash(SigningBytes(c.entries[i - 1]))
  }

  /** The place of an entry: by its own seat's key, next in number, linked to the one
      before and not behind it in height. */
  predicate InPlace<P(==)>(s: Suite<P>, c: Chain, i: nat)
    requires i < |c.entries|
  {
    var e := c.entries[i];
    && e.seat in c.roster && e.signer == c.roster[e.seat]
    && e.number == (i + 1) % 0x1_0000_0000_0000_0000 && e.prev == LinkBefore(s, c, i)
    && (i > 0 ==> c.entries[i - 1].height <= e.height)
  }

  /** A signed play: of this version, on a street there is, one of the six actions, with
      an amount that is not negative and is nothing for a fold or a check, under a
      signature that the signer's key verifies. */
  predicate Signed<P(==)>(s: Suite<P>, e: Entry) {
    && e.version == 2 && e.street <= 3 && e.amount >= 0
    && e.action in {Ascii("fold"), Ascii("check"), Ascii("call"), Ascii("bet"), Ascii("raise"), Ascii("allin")}
    && (e.action == Ascii("fold") || e.action == Ascii("check") ==> e.amount == 0)
    && |e.signer| == 33 && |e.sig| == 64 && s.parse(e.signer).Some?
    && Verifies(s.g, s.hash, s.parse(e.signer).value, s.hash(SigningBytes(e)), e.sig)
  }

  lemma VerifiedIsSigned<P>(s: Suite<P>, e: Entry)
    ensures EntryVerifies(s, e) <==> Signed(s, e)
  {
    hide Verifies, SigningBytes;
    assert forall a :: a in Actions() ==> |a| <= 16;
  }

  /** Every entry in its place and signed, at the seats of a readable roster, with the
      last one's hash and number for a head. */
  predicate Ruled<P(==)>(s: Suite<P>, c: Chain) {
    && c.id != [] && |c.roster| >= 2
    && (forall seat :: seat in c.roster ==> |c.roster[seat]| == 33 && s.parse(c.roster[seat]).Some?)
    && (forall i :: 0 <= i < |c.entries| ==> InPlace(s, c, i) && Signed(s, c.entries[i]))
    && c.head == LinkBefore(s, c, |c.entries|) && c.number == |c.entries| % 0x1_0000_0000_0000_0000
  }

  /** The chain without its last entry. */
  function Shorter<P>(s: Suite<P>, c: Chain): Chain
    requires c.entries != []
  {
    var n := |c.entries| - 1;
    Chain(c.id, c.roster, c.entries[..n], LinkBefore(s, c, n), n % 0x1_0000_0000_0000_0000)
  }

  lemma ShorterIsRuled<P>(s: Suite<P>, c: Chain)
    requires Ruled(s, c) && c.entries != []
    ensures Ruled(s, Shorter(s, c))
  {
    hide Signed, SigningBytes, LinkBefore;
    var b := Shorter(s, c);
    forall i | 0 <= i <= |b.entries| ensures LinkBefore(s, b, i) == LinkBefore(s, c, i) {
      LinksAgree(s, b, c, i);
    }
    forall i | 0 <= i < |b.entries| ensures InPlace(s, b, i) && Signed(s, b.entries[i]) {
      assert InPlace(s, c, i) && Signed(s, c.entries[i]);
    }
  }

  lemma LinksAgree<P>(s: Suite<P>, b: Chain, c: Chain, i: nat)
    requires i <= |b.entries| && b.entries <= c.entries && b.id == c.id
    ensures LinkBefore(s, b, i) == LinkBefore(s, c, i)
  {
  }

  lemma LastAppends<P>(s: Suite<P>, c: Chain)
    requires Ruled(s, c) && c.entries != []
    ensures Appends(s, Shorter(s, c), c.entries[|c.entries| - 1])
  {
    hide Signed, SigningBytes, EntryVerifies;
    var n := |c.entries| - 1;
    assert InPlace(s, c, n) && Signed(s, c.entries[n]);
    VerifiedIsSigned(s, c.entries[n]);
    FollowsNumber(n);
  }

  lemma LastIsAppended<P>(s: Suite<P>, c: Chain)
    requires Ruled(s, c) && c.entries != []
    ensures Append(s, Shorter(s, c), c.entries[|c.entries| - 1]) == Some(c)
  {
    hide Appends, Signed, SigningBytes, EntryVerifies;
    var n := |c.entries| - 1;
    LastAppends(s, c);
    assert InPlace(s, c, n);
    assert c.entries[..n] + [c.entries[n]] == c.entries;
  }

  lemma FollowsNumber(n: nat)
    ensures Following(n % 0x1_0000_0000_0000_0000) == (n + 1) % 0x1_0000_0000_0000_0000
  {
  }

  lemma AppendedIsRuled<P>(s: Suite<P>, c: Chain, e: Entry)
    requires Ruled(s, c) && Append(s, c, e).Some?
    ensures Ruled(s, Append(s, c, e).value)
  {
    hide Signed, SigningBytes, EntryVerifies;
    var v := Append(s, c, e).value;
    VerifiedIsSigned(s, e);
    FollowsNumber(|c.entries|);
    forall i | 0 <= i < |v.entries| ensures InPlace(s, v, i) && Signed(s, v.entries[i]) {
      if i < |c.entries| {
        assert InPlace(s, c, i) && Signed(s, c.entries[i]);
        assert LinkBefore(s, v, i) == LinkBefore(s, c, i);
      }
    }
  }

  /** A chain was built by appending exactly when every entry of it is in its place and
      signed: by its own seat's key, numbered in turn, linked to the one before, not
      behind it in height, and of a legal shape. */
  lemma {:induction false} BuiltIsRuled<P(!new)>(s: Suite<P>, c: Chain)
    ensures Built(s, c) <==> Ruled(s, c)
    decreases |c.entries|
  {
    hide Signed, SigningBytes, EntryVerifies, Append;
    if c.entries != [] {
      if Built(s, c) {
        var b := Before(s, c);
        BuiltIsRuled(s, b);
        AppendedIsRuled(s, b, c.entries[|c.entries| - 1]);
      }
      if Ruled(s, c) {
        ShorterIsRuled(s, c);
        BuiltIsRuled(s, Shorter(s, c));
        LastIsAppended(s, c);
      }
    }
  }

  lemma {:induction false} LinesAreEntries<P>(s: Suite<P>, c: Chain, lines: seq<Line>)
    requires AppendAll(s, c, lines).Some?
    ensures
      var v := AppendAll(s, c, lines).value;
      && v.id == c.id && v.roster == c.roster && |v.entries| == |c.entries| + |lines|
      && v.entries[..|c.entries|] == c.entries
      && forall i :: 0 <= i < |lines| ==> EntryOf(lines[i]) == Some(v.entries[|c.entries| + i])
    decreases |lines|
  {
    hide EntryOf, Appends;
    if lines != [] {
      var d := Append(s, c, EntryOf(lines[0]).value).value;
      LinesAreEntries(s, d, lines[1..]);
      var v := AppendAll(s, c, lines).value;
      assert v.entries[..|d.entries|][..|c.entries|] == c.entries;
      assert v.entries[|c.entries|] == v.entries[..|d.entries|][|c.entries|];
      forall i | 0 < i < |lines| ensures EntryOf(lines[i]) == Some(v.entries[|c.entries| + i]) {
        assert lines[i] == lines[1..][i - 1];
      }
    }
  }

  /** So whatever a container says, what is read from it is a chain of the match it names,
      its lines one by one, in which every entry is in its place and signed. */
  lemma OnlyRuledChainsAreRead<P(!new)>(s: Suite<P>, t: Transcript)
    requires Unmarshal(s, t).Some?
    ensures
      var c := Unmarshal(s, t).value;
      && Ruled(s, c) && t.version == 2 && c.id == t.id && |c.entries| == |t.lines|
      && (forall i :: 0 <= i < |t.lines| ==> EntryOf(t.lines[i]) == Some(c.entries[i]))
      && c.roster.Keys == t.roster.Keys
      && forall seat :: seat in t.roster ==> Unhex(t.roster[seat]) == Some(c.roster[seat])
  {
    hide Ruled, EntryOf, Unhex, AppendAll, Appends;
    OnlyBuiltChainsAreRead(s, t);
    BuiltIsRuled(s, Unmarshal(s, t).value);
    LinesAreEntries(s, NewChain(s, t.id, UnhexRoster(t.roster).value).value, t.lines);
  }

  /** The streets' names are told apart, and no other text names one. */
  lemma StreetsAreNamed(b: byte, name: string)
    ensures ParseStreet(name) == Some(b) <==> b <= 3 && name == StreetName(b)
    ensures b <= 3 ==> StreetName(b) in {"preflop", "flop", "turn", "river"}
    ensures b > 3 ==> ParseStreet(StreetName(b)).None?
  {
  }

  /** A proof of equivocation verifies exactly when it holds two different plays, each
      signed, of one seat under one key at one number. */
  lemma ProofIsTwoPlays<P>(s: Suite<P>, a: Entry, b: Entry)
    requires NoCollision(s.hash, {SigningBytes(a), SigningBytes(b)})
    ensures ProofVerifies(s, a, b) <==>
      && a.seat == b.seat && a.signer == b.signer && a.number == b.number
      && Unsigned(a) != Unsigned(b) && Signed(s, a) && Signed(s, b)
  {
    hide Signed, SigningBytes, EntryVerifies, Shaped, NoCollision;
    VerifiedIsSigned(s, a);
    VerifiedIsSigned(s, b);
    if EntryVerifies(s, a) && EntryVerifies(s, b) {
      VerifiedIsShaped(s, a);
      VerifiedIsShaped(s, b);
      if Unsigned(a) == Unsigned(b) {
        SigningForgetsSignatures(a, b);
      } else if s.hash(SigningBytes(a)) == s.hash(SigningBytes(b)) {
        SameString(s.hash, {SigningBytes(a), SigningBytes(b)}, SigningBytes(a), SigningBytes(b));
        SigningBytesInjective(a, b);
      }
    }
  }

  lemma VerifiedIsShaped<P>(s: Suite<P>, e: Entry)
    requires EntryVerifies(s, e)
    ensures Shaped(e)
  {
    hide Shaped, Verifies;
  }

  lemma SigningForgetsSignatures(a: Entry, b: Entry)
    requires Unsigned(a) == Unsigned(b)
    ensures SigningBytes(a) == SigningBytes(b)
  {
    assert a == b.(sig := a.sig);
  }
}
