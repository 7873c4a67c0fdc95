/** The outbox as the bridge keeps it: a file appended to, a map of what it said,
    and a scan that heals and rereads it; each method is proved to take the step
    the outbox's runs are made of. */
module OutboxFile {
  import opened ByteStrings
  import opened WireFiles
  import opened Outbox

  /** Reading the rest of a file into a map begun already. */
  function Scan(c: Codec<Claim>, b: Bytes, m: Claims): Option<Claims> {
    match Parse(c, Lines(b))
    case None => None
    case Some(cs) => FoldAll(m, cs)
  }

  lemma ScanTakesLine(c: Codec<Claim>, b: Bytes, m: Claims)
    requires b != []
    ensures
      var n := FirstBreak(b);
      var rest := if n == |b| then [] else b[n + 1..];
      Scan(c, b, m) ==
      match c.decode(b[..n])
      case None => None
      case Some(x) => if Parse(c, Lines(rest)).None? || Fold(m, x).None? then None else Scan(c, rest, Fold(m, x).value)
  {
    hide Fold, Lines, Parse;
    ParseTakesLine(c, b);
    var n := FirstBreak(b);
    var rest := Parse(c, Lines(if n == |b| then [] else b[n + 1..]));
    if c.decode(b[..n]).Some? && rest.Some? {
      var x := c.decode(b[..n]).value;
      assert ([x] + rest.value)[1..] == rest.value;
    }
  }

  /** Reads the outbox file, refusing a line that is damaged, that names another
      text, or that takes a sent message back. */
  method ReadClaims(c: Codec<Claim>, file: Bytes) returns (healed: Bytes, m: Option<Claims>)
    ensures healed == file[..Whole(file)] && m == Load(c, file)
  {
    var dropped;
    healed, dropped := HealTornTail(file);
    var claims: Claims := map[];
    var rest := healed;
    while rest != []
      invariant Scan(c, healed, map[]) == Scan(c, rest, claims)
      decreases |rest|
    {
      ScanTakesLine(c, rest, claims);
      var n := FirstBreak(rest);
      var line := rest[..n];
      rest := if n == |rest| then [] else rest[n + 1..];
      var claim := c.decode(line);
      if claim.None? {
        return healed, None;
      }
      var x := claim.value;
      if x.key in claims {
        if claims[x.key].digest != x.digest {
          return healed, None;
        }
        if claims[x.key].state == Sent && x.state != Sent {
          return healed, None;
        }
      }
      claims := claims[x.key := Entry(x.digest, x.state)];
    }
    m := Some(claims);
  }

  class BridgeOutbox {
    const c: Codec<Claim>
    var file: Bytes
    var loaded: bool
    var claims: Claims

    ghost function View(): Store
      reads this
    {
      Store(file, if loaded then Some(claims) else None)
    }

    constructor (c: Codec<Claim>, file: Bytes)
      ensures this.c == c && View() == Store(file, None)
    {
      this.c, this.file, loaded, claims := c, file, false, map[];
    }

    method LoadLocked() returns (ok: bool)
      modifies this
      ensures View() == Loaded(c, old(View()))
      ensures ok <==> loaded
    {
      if loaded {
        return true;
      }
      var m;
      file, m := ReadClaims(c, file);
      ok := m.Some?;
      if ok {
        loaded, claims := true, m.value;
      }
    }

    /** One line appended and synced; memory is untouched unless that worked. */
    method AppendLocked(x: Claim, how: Append) returns (ok: bool)
      requires loaded
      modifies this
      ensures View() == Add(c, old(View()), x, how) && ok == how.Done?
    {
      file := Appended(file, LineOf(c, x), how);
      ok := how.Done?;
      if ok {
        claims := claims[x.key := Entry(x.digest, x.state)];
      }
      if how.Cut? {
        loaded := false;
      }
    }

    /** Consumes the one opportunity to send, durably, before the send begins. */
    method ClaimSend(key: Key, digest: Bytes, at: int, how: Append) returns (taken: bool)
      modifies this
      ensures View() == Operate(c, old(View()), Claimed, key, digest, at, how)
      ensures
        var m := Loaded(c, old(View())).mem;
        taken <==> how.Done? && m.Some? && (key in m.value ==> m.value[key] == Entry(digest, SendState.Released))
    {
      hide Loaded, Add;
      var ok := LoadLocked();
      if !ok {
        return false;
      }
      if key in claims {
        if claims[key].digest != digest {
          return false;
        }
        if claims[key].state != Released {
          return false;
        }
      }
      taken := AppendLocked(Claim(key, digest, at, Claimed), how);
    }

    method MarkSent(key: Key, digest: Bytes, at: int, how: Append) returns (ok: bool)
      modifies this
      ensures View() == Operate(c, old(View()), Sent, key, digest, at, how)
      ensures
        var m := Loaded(c, old(View())).mem;
        ok <==> m.Some? && key in m.value && m.value[key].digest == digest && (m.value[key].state == Sent || how.Done?)
    {
      hide Loaded, Add;
      ok := LoadLocked();
      if !ok {
        return;
      }
      if key !in claims || claims[key].digest != digest {
        return false;
      }
      if claims[key].state == Sent {
        return true;
      }
      ok := AppendLocked(Claim(key, digest, at, Sent), how);
    }

    /** Frees a claim whose send was refused for certain. */
    method Release(key: Key, digest: Bytes, at: int, how: Append) returns (ok: bool)
      modifies this
      ensures View() == Operate(c, old(View()), Released, key, digest, at, how)
      ensures
        var m := Loaded(c, old(View())).mem;
        ok <==> how.Done? && m.Some? && key in m.value && m.value[key] == Entry(digest, Claimed)
    {
      hide Loaded, Add;
      ok := LoadLocked();
      if !ok {
        return;
      }
      if key !in claims || claims[key].digest != digest || claims[key].state != Claimed {
        return false;
      }
      ok := AppendLocked(Claim(key, digest, at, Released), how);
    }
  }
}
