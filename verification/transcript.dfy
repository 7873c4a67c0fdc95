/** A match's log as an object, and its transcript: written out, read back and
    verified entry by entry on the way. */
module Transcripts {
  import opened ByteStrings
  import opened Forfeit
  import opened GameLog

  /** One entry with its binary fields in hexadecimal. */
  datatype Line = Line(
    version: u16, prev: Bytes, number: u64, hand: u64, street: string, seat: u32, signer: Bytes,
    action: Bytes, amount: i64, height: u32, sig: Bytes)

  datatype Transcript = Transcript(version: nat, id: Bytes, roster: map<u32, Bytes>, lines: seq<Line>)

  const FORMAT: nat := 2

  function StreetName(b: byte): string {
    if b == 0 then "preflop" else if b == 1 then "flop" else if b == 2 then "turn" else if b == 3 then "river"
      else "street"
  }

  function ParseStreet(s: string): Option<byte> {
    if s == "preflop" then Some(0) else if s == "flop" then Some(1)
    else if s == "turn" then Some(2) else if s == "river" then Some(3) else None
  }

  function LineOf(e: Entry): Line {
    Line(e.version, Hex(e.prev), e.number, e.hand, StreetName(e.street), e.seat, Hex(e.signer), e.action, e.amount,
      e.height, Hex(e.sig))
  }

  function EntryOf(l: Line): Option<Entry> {
    match (Unhex(l.prev), Unhex(l.signer), Unhex(l.sig), ParseStreet(l.street))
    case (Some(prev), Some(signer), Some(sig), Some(street)) =>
      if |prev| != 32 then None
      else Some(Entry(l.version, prev, l.number, l.hand, street, l.seat, signer, l.action, l.amount, l.height, sig))
    case _ => None
  }

  function LinesOf(entries: seq<Entry>): seq<Line> {
    seq(|entries|, i requires 0 <= i < |entries| => LineOf(entries[i]))
  }

  function HexRoster(roster: map<u32, Bytes>): map<u32, Bytes> { map seat | seat in roster :: Hex(roster[seat]) }

  function UnhexRoster(roster: map<u32, Bytes>): Option<map<u32, Bytes>> {
    if forall seat :: seat in roster ==> Unhex(roster[seat]).Some?
    then Some(map seat | seat in roster :: Unhex(roster[seat]).GetOr([])) else None
  }

  function Marshal(c: Chain): Transcript { Transcript(FORMAT, c.id, HexRoster(c.roster), LinesOf(c.entries)) }

  function AppendAll<P(==)>(s: Suite<P>, c: Chain, lines: seq<Line>): Option<Chain>
    decreases |lines|
  {
    if lines == [] then Some(c)
    else
      match EntryOf(lines[0])
      case None => None
      case Some(e) => if Append(s, c, e).None? then None else AppendAll(s, Append(s, c, e).value, lines[1..])
  }

  function Unmarshal<P(==)>(s: Suite<P>, t: Transcript): Option<Chain> {
    if t.version != FORMAT then None
    else
      match UnhexRoster(t.roster)
      case None => None
      case Some(roster) =>
        match NewChain(s, t.id, roster)
        case None => None
        case Some(c) => AppendAll(s, c, t.lines)
  }

  // ---- Round trip ----

  lemma LineRoundTrip(e: Entry)
    requires e.street <= LAST_STREET
    ensures EntryOf(LineOf(e)) == Some(e)
  {
    UnhexHex(e.prev);
    UnhexHex(e.signer);
    UnhexHex(e.sig);
  }

  lemma RosterRoundTrip(roster: map<u32, Bytes>)
    ensures UnhexRoster(HexRoster(roster)) == Some(roster)
  {
    var hexed := HexRoster(roster);
    forall seat | seat in roster ensures Unhex(hexed[seat]) == Some(roster[seat]) {
      UnhexHex(roster[seat]);
    }
    assert (map seat | seat in hexed :: Unhex(hexed[seat]).GetOr([])) == roster;
  }

  lemma {:induction false} AppendLast<P>(s: Suite<P>, c: Chain, lines: seq<Line>, l: Line)
    requires AppendAll(s, c, lines).Some?
    ensures AppendAll(s, c, lines + [l]) ==
      match EntryOf(l)
      case None => None
      case Some(e) => Append(s, AppendAll(s, c, lines).value, e)
    decreases |lines|
  {
    hide EntryOf, Appends;
    if lines == [] {
      assert lines + [l] == [l] && [l][1..] == [];
    } else {
      assert (lines + [l])[1..] == lines[1..] + [l];
      AppendLast(s, Append(s, c, EntryOf(lines[0]).value).value, lines[1..], l);
    }
  }

  lemma {:induction false} LinesRebuild<P(!new)>(s: Suite<P>, c: Chain)
    requires Built(s, c)
    ensures NewChain(s, c.id, c.roster).Some?
    ensures AppendAll(s, NewChain(s, c.id, c.roster).value, LinesOf(c.entries)) == Some(c)
    decreases |c.entries|
  {
    hide EntryOf, LineOf, Verifies, SigningBytes;
    if c.entries != [] {
      var b, e := Before(s, c), c.entries[|c.entries| - 1];
      LinesRebuild(s, b);
      LastIsHashed(s, c);
      LineRoundTrip(e);
      assert LinesOf(c.entries) == LinesOf(b.entries) + [LineOf(e)];
      AppendLast(s, NewChain(s, c.id, c.roster).value, LinesOf(b.entries), LineOf(e));
    }
  }

  /** A transcript read back is the chain it was written from. */
  lemma TranscriptRoundTrip<P(!new)>(s: Suite<P>, c: Chain)
    requires Built(s, c)
    ensures Unmarshal(s, Marshal(c)) == Some(c)
  {
    hide AppendAll, NewChain, LinesOf, Built, HexRoster, UnhexRoster;
    RosterRoundTrip(c.roster);
    LinesRebuild(s, c);
  }

  lemma {:induction false} AppendAllBuilds<P(!new)>(s: Suite<P>, c: Chain, lines: seq<Line>)
    requires Built(s, c) && AppendAll(s, c, lines).Some?
    ensures Built(s, AppendAll(s, c, lines).value)
    decreases |lines|
  {
    hide Built, Append, EntryOf;
    if lines != [] {
      AppendBuilds(s, c, EntryOf(lines[0]).value);
      AppendAllBuilds(s, Append(s, c, EntryOf(lines[0]).value).value, lines[1..]);
    }
  }

  /** Whatever the container says, only a chain that appending could have built
      comes out of it: every signature, signer, number, link and height checked. */
  lemma OnlyBuiltChainsAreRead<P(!new)>(s: Suite<P>, t: Transcript)
    requires Unmarshal(s, t).Some?
    ensures Built(s, Unmarshal(s, t).value)
  {
    hide AppendAll, UnhexRoster;
    var c := NewChain(s, t.id, UnhexRoster(t.roster).value).value;
    AppendAllBuilds(s, c, t.lines);
  }

  // ---- The log as an object ----

  class MatchLog<P(==)> {
    const s: Suite<P>
    const id: Bytes
    const roster: map<u32, Bytes>
    var entries: seq<Entry>
    var head: Hash32
    var number: u64

    ghost function View(): Chain
      reads this
    {
      Chain(id, roster, entries, head, number)
    }

    constructor Empty(s: Suite<P>, id: Bytes, roster: map<u32, Bytes>)
      ensures this.s == s && View() == Chain(id, roster, [], s.hash(GenesisBytes(id)), 0)
    {
      this.s, this.id, this.roster := s, id, roster;
      entries, head, number := [], s.hash(GenesisBytes(id)), 0;
    }

    /** Starts an empty chain for a match, with a key of a readable point at every
        seat. */
    static method Start(s: Suite<P>, id: Bytes, roster: map<u32, Bytes>) returns (log: MatchLog?<P>)
      ensures log == null <==> NewChain(s, id, roster).None?
      ensures log != null ==> fresh(log) && log.s == s && log.View() == NewChain(s, id, roster).value
    {
      if id == [] || |roster| < 2 {
        return null;
      }
      var todo := roster.Keys;
      while todo != {}
        invariant todo <= roster.Keys
        invariant forall seat :: seat in roster && seat !in todo ==>
          |roster[seat]| == KEY_LEN && s.parse(roster[seat]).Some?
        decreases |todo|
      {
        var seat :| seat in todo;
        if |roster[seat]| != KEY_LEN || s.parse(roster[seat]).None? {
          return null;
        }
        todo := todo - {seat};
      }
      log := new MatchLog.Empty(s, id, roster);
    }

    /** Verifies an entry against the chain and adds it. */
    method Add(e: Entry) returns (ok: bool)
      modifies this
      ensures ok <==> Append(s, old(View()), e).Some?
      ensures View() == Append(s, old(View()), e).GetOr(old(View()))
    {
      hide Shaped, SigningBytes, Verifies;
      if e.seat !in roster || e.signer != roster[e.seat] {
        return false;
      }
      if e.number != Following(number) || e.prev != head {
        return false;
      }
      if |entries| > 0 && e.height < entries[|entries| - 1].height {
        return false;
      }
      if !EntryVerifies(s, e) {
        return false;
      }
      entries, head, number := entries + [e], EntryHash(s.hash, e), e.number;
      ok := true;
    }

    method Render() returns (t: Transcript)
      ensures t == Marshal(View())
    {
      var lines: seq<Line> := [];
      for i := 0 to |entries|
        invariant lines == LinesOf(entries)[..i]
      {
        lines := lines + [LineOf(entries[i])];
      }
      t := Transcript(FORMAT, id, HexRoster(roster), lines);
    }

    /** Rebuilds a log from a transcript; one that does not verify gives nothing. */
    static method Read(s: Suite<P>, t: Transcript) returns (log: MatchLog?<P>)
      ensures log == null <==> Unmarshal(s, t).None?
      ensures log != null ==> fresh(log) && log.s == s && log.View() == Unmarshal(s, t).value
    {
      hide EntryOf, NewChain, Appends, UnhexRoster;
      if t.version != FORMAT {
        return null;
      }
      var roster := UnhexRoster(t.roster);
      if roster.None? {
        return null;
      }
      log := Start(s, t.id, roster.value);
      if log == null {
        return;
      }
      ghost var begun := log.View();
      for i := 0 to |t.lines|
        invariant log != null && fresh(log) && log.s == s
        invariant AppendAll(s, begun, t.lines) == AppendAll(s, log.View(), t.lines[i..])
      {
        assert t.lines[i..][0] == t.lines[i] && t.lines[i..][1..] == t.lines[i + 1..];
        var e := EntryOf(t.lines[i]);
        if e.None? {
          return null;
        }
        var ok := log.Add(e.value);
        if !ok {
          return null;
        }
      }
    }
  }
}
