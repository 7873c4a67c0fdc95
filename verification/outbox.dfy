/** The outbox: a durable claim before every send, so the relay takes each message
    part at most once whatever crashes, fails or is asked again. */
module Outbox {
  import opened ByteStrings
  import opened WireFiles

  /** What names one physical send. */
  datatype Key = Key(game: Bytes, gcid: Bytes, mid: Bytes, part: Bytes)

  datatype SendState = Claimed | Sent | Released
  datatype Claim = Claim(key: Key, digest: Bytes, at: int, state: SendState)
  datatype Entry = Entry(digest: Bytes, state: SendState)
  type Claims = map<Key, Entry>

  // ---- The file and the map ----

  /** One line of the file folded into the map, unless the reader rejects it. */
  function Fold(m: Claims, c: Claim): Option<Claims> {
    if c.key in m && (m[c.key].digest != c.digest || (m[c.key].state == Sent && c.state != Sent)) then None
    else Some(m[c.key := Entry(c.digest, c.state)])
  }

  function FoldAll(m: Claims, cs: seq<Claim>): Option<Claims>
    decreases |cs|
  {
    if cs == [] then Some(m)
    else
      match Fold(m, cs[0])
      case None => None
      case Some(n) => FoldAll(n, cs[1..])
  }

  function Load(c: Codec<Claim>, file: Bytes): Option<Claims> {
    match ReadBack(c, file)
    case None => None
    case Some(cs) => FoldAll(map[], cs)
  }

  /** The file, and the map a running process holds of it. */
  datatype Store = Store(file: Bytes, mem: Option<Claims>)

  function Loaded(c: Codec<Claim>, s: Store): Store {
    if s.mem.Some? then s else Store(s.file[..Whole(s.file)], Load(c, s.file))
  }

  /** An append; memory follows only when it worked, and a crash ends the process. */
  function Add(c: Codec<Claim>, s: Store, x: Claim, how: Append): Store
    requires s.mem.Some?
  {
    var file := Appended(s.file, LineOf(c, x), how);
    match how
    case Done => Store(file, Some(s.mem.value[x.key := Entry(x.digest, x.state)]))
    case Cut(_) => Store(file, None)
    case _ => s.(file := file)
  }

  /** Whether a message may be claimed: never claimed, or released after a refusal. */
  predicate Claimable(s: Store, key: Key, digest: Bytes) {
    s.mem.Some? && (key in s.mem.value ==> s.mem.value[key].digest == digest && s.mem.value[key].state == Released)
  }

  predicate Markable(s: Store, key: Key, digest: Bytes) {
    s.mem.Some? && key in s.mem.value && s.mem.value[key].digest == digest && s.mem.value[key].state != Sent
  }

  predicate Releasable(s: Store, key: Key, digest: Bytes) {
    s.mem.Some? && key in s.mem.value && s.mem.value[key] == Entry(digest, Claimed)
  }

  /** The line an operation appends, if it appends one. */
  function Line(s: Store, state: SendState, key: Key, digest: Bytes, at: int): Option<Claim> {
    var may := match state
      case Claimed => Claimable(s, key, digest)
      case Sent => Markable(s, key, digest)
      case Released => Releasable(s, key, digest);
    if may then Some(Claim(key, digest, at, state)) else None
  }

  function Operate(c: Codec<Claim>, s: Store, state: SendState, key: Key, digest: Bytes, at: int, how: Append): Store {
    var l := Loaded(c, s);
    match Line(l, state, key, digest, at)
    case None => l
    case Some(x) => Add(c, l, x, how)
  }

  // ---- Runs ----

  /** What the relay answered: it took the message, refused it for certain, or the
      outcome is not known. */
  datatype Result = Taken | NotSent | Unknown(took: bool)

  datatype Phase = Free | Took | Refused
  datatype Call = Call(phase: Phase, digest: Bytes)

  /** The store, the sends in progress, every send asked of the relay so far, and
      the records ever written whole. */
  datatype World = World(store: Store, calls: map<Key, Call>, asked: Asked, records: seq<Claim>)

  datatype Event =
    | Operates(state: SendState, key: Key, digest: Bytes, at: int, how: Append)
    | Sends(key: Key, result: Result)
    | Crashes

  predicate TookIt(r: Result) { r == Taken || r == Unknown(true) }

  type Asked = seq<(Key, Result)>

  /** A message the relay may have taken. */
  predicate Spent(asked: Asked, key: Key) { exists i :: 0 <= i < |asked| && asked[i].0 == key && asked[i].1 != NotSent }

  /** A message the relay did take, and so has on record. */
  predicate OnRecord(asked: Asked, key: Key) { exists i :: 0 <= i < |asked| && asked[i].0 == key && TookIt(asked[i].1) }

  /** Who may do what: a mark follows a send that was taken, or finds the message in
      the relay's own record; a release follows a refusal; and a claim that failed
      after it was written is asked again with the same text. */
  predicate Possible(c: Codec<Claim>, w: World, e: Event) {
    e.Operates? ==>
      var l := Loaded(c, w.store);
      match e.state
      case Sent => OnRecord(w.asked, e.key)
      case Released => e.key in w.calls && w.calls[e.key].phase == Refused
      case Claimed => SameTextAgain(c, l, e.key, e.digest)
  }

  /** A key the file has and memory has not is claimed again only with its text. */
  predicate SameTextAgain(c: Codec<Claim>, l: Store, key: Key, digest: Bytes) {
    var f := Load(c, l.file);
    l.mem.Some? && key !in l.mem.value && f.Some? && key in f.value ==> f.value[key].digest == digest
  }

  function Next(c: Codec<Claim>, w: World, e: Event): World {
    match e
    case Operates(state, key, digest, at, how) =>
      var l := Loaded(c, w.store);
      var line := Line(l, state, key, digest, at);
      var store := Operate(c, w.store, state, key, digest, at, how);
      var records := if line.Some? && Landed(LineOf(c, line.value), how) then w.records + [line.value] else w.records;
      var calls :=
        if line.Some? && how.Cut? then map[]
        else if state == Claimed
          then (if line.Some? && how == Done then w.calls[key := Call(Free, digest)] else w.calls)
        else w.calls - {key};
      World(store, calls, w.asked, records)
    case Sends(key, result) =>
      if key !in w.calls || w.calls[key].phase != Free then w
      else
        w.(asked := w.asked + [(key, result)],
           calls := if result == Taken then w.calls[key := w.calls[key].(phase := Took)]
                    else if result == NotSent then w.calls[key := w.calls[key].(phase := Refused)]
                    else w.calls - {key})
    case Crashes => w.(store := w.store.(mem := None), calls := map[])
  }

  ghost predicate Leads(c: Codec<Claim>, w: World, events: seq<Event>, end: World)
    decreases |events|
  {
    if events == [] then w == end
    else Possible(c, w, events[0]) && Leads(c, Next(c, w, events[0]), events[1..], end)
  }

  const EMPTY: World := World(Store([], None), map[], [], [])

  // ---- The invariant ----

  /** Memory knows no more than the file, and the same texts. */
  predicate Follows(m: Claims, f: Claims) {
    forall k :: k in m ==> k in f && f[k].digest == m[k].digest && (m[k].state == Sent ==> f[k].state == Sent)
  }

  /** A message that may have been taken stands as claimed or sent. */
  predicate Guards(asked: Asked, m: Claims) {
    forall i :: 0 <= i < |asked| && asked[i].1 != NotSent ==> asked[i].0 in m && m[asked[i].0].state != Released
  }

  /** Of one message's sends, all but the last were refused for certain. */
  predicate OnlyRefusedTwice(asked: Asked) {
    forall i, j :: 0 <= i < j < |asked| && asked[i].0 == asked[j].0 ==> asked[i].1 == NotSent
  }

  predicate Open(m: Claims, key: Key) { key in m && m[key].state != Released }

  /** How the file's map f, the memory, the calls and the sends stand together. */
  predicate Steady(f: Claims, mem: Option<Claims>, calls: map<Key, Call>, asked: Asked) {
    && Guards(asked, f) && OnlyRefusedTwice(asked)
    && (forall k :: k in f && f[k].state == Sent ==> Spent(asked, k))
    && (mem.None? ==> calls == map[])
    && (mem.Some? ==> Follows(mem.value, f) && Guards(asked, mem.value))
    && (forall k :: k in calls ==>
          && mem.Some? && Open(mem.value, k) && Open(f, k)
          && (calls[k].phase != Took ==> !Spent(asked, k)))
  }

  ghost predicate Invariant(c: Codec<Claim>, w: World) {
    && Filed(c, w.store.file, w.records)
    && (w.store.mem.Some? ==> w.store.file == Written(c, w.records))
    && FoldAll(map[], w.records).Some?
    && Steady(FoldAll(map[], w.records).value, w.store.mem, w.calls, w.asked)
  }

  lemma {:induction false} FoldAppends(m: Claims, cs: seq<Claim>, x: Claim)
    requires FoldAll(m, cs).Some?
    ensures FoldAll(m, cs + [x]) == Fold(FoldAll(m, cs).value, x)
    decreases |cs|
  {
    if cs == [] {
      assert [x][1..] == [] && cs + [x] == [x];
    } else {
      assert (cs + [x])[1..] == cs[1..] + [x];
      FoldAppends(Fold(m, cs[0]).value, cs[1..], x);
    }
  }

  /** Reading the healed file after a restart keeps the invariant. */
  lemma LoadKeeps(c: Codec<Claim>, w: World)
    requires Faithful(c) && Invariant(c, w)
    ensures
      var v := w.(store := Loaded(c, w.store));
      Invariant(c, v) && v.store.mem.Some?
    ensures Load(c, w.store.file) == FoldAll(map[], w.records)
  {
    hide FoldAll;
    FiledReads(c, w.store.file, w.records);
    if w.store.mem.None? {
      assert Loaded(c, w.store).file == Written(c, w.records) + [];
    }
  }

  /** A line folded into the file's map, with what memory and the calls become. */
  lemma LineKeepsSteady(f: Claims, mem: Claims, calls: map<Key, Call>, asked: Asked, x: Claim, landed: bool,
      how: Append)
    requires Steady(f, Some(mem), calls, asked)
    requires (x.key in f ==> f[x.key].digest == x.digest) && (x.state == Sent <==> Spent(asked, x.key))
    requires x.state == Sent ==> x.key in mem
    requires how == Done ==> landed
    ensures Fold(f, x).Some?
    ensures
      var g := if landed then Fold(f, x).value else f;
      var m := if how.Cut? then None else if how == Done then Some(mem[x.key := Entry(x.digest, x.state)])
        else Some(mem);
      Steady(g, m, CallsAfter(calls, x, how), asked)
  {
    hide Spent, Guards, OnlyRefusedTwice;
    assert Guards(asked, f[x.key := Entry(x.digest, x.state)]) by { GuardsHold(asked, f, x); }
    assert Guards(asked, mem[x.key := Entry(x.digest, x.state)]) by { GuardsHold(asked, mem, x); }
  }

  lemma GuardsHold(asked: Asked, m: Claims, x: Claim)
    requires Guards(asked, m) && (x.state == Sent <==> Spent(asked, x.key))
    ensures Guards(asked, m[x.key := Entry(x.digest, x.state)])
  {
  }

  function CallsAfter(calls: map<Key, Call>, x: Claim, how: Append): map<Key, Call> {
    if how.Cut? then map[]
    else if x.state == Claimed then (if how == Done then calls[x.key := Call(Free, x.digest)] else calls)
    else calls - {x.key}
  }

  lemma AddKeeps(c: Codec<Claim>, w: World, x: Claim, how: Append)
    requires Faithful(c) && Invariant(c, w) && w.store.mem.Some?
    requires
      var f := FoldAll(map[], w.records).value;
      && (x.key in f ==> f[x.key].digest == x.digest)
      && (x.state == Sent <==> Spent(w.asked, x.key))
      && (x.state == Sent ==> x.key in w.store.mem.value)
    ensures
      var records := if Landed(LineOf(c, x), how) then w.records + [x] else w.records;
      Invariant(c, World(Add(c, w.store, x, how), CallsAfter(w.calls, x, how), w.asked, records))
  {
    hide FoldAll, Fold, LineOf, Appended, Written, Steady, Spent, Faithful, Filed, CallsAfter;
    AppendFiles(c, w.records, x, how);
    FoldAppends(map[], w.records, x);
    LineKeepsSteady(FoldAll(map[], w.records).value, w.store.mem.value, w.calls, w.asked, x,
      Landed(LineOf(c, x), how), how);
    if !how.Cut? {
      AppendedWhole(c, w.records, x, how);
    }
  }

  lemma SendKeeps(c: Codec<Claim>, w: World, key: Key, result: Result)
    requires Invariant(c, w)
    ensures Invariant(c, Next(c, w, Sends(key, result)))
  {
    hide FoldAll, Filed, Written, Guards, OnlyRefusedTwice, Spent;
    if key in w.calls && w.calls[key].phase == Free {
      AskedOnce(w.asked, key, result);
      AskedGuards(w.asked, FoldAll(map[], w.records).value, key, result);
      AskedGuards(w.asked, w.store.mem.value, key, result);
    }
  }

  /** One more send, of a message the relay cannot have taken yet. */
  lemma AskedOnce(asked: Asked, key: Key, result: Result)
    requires !Spent(asked, key) && OnlyRefusedTwice(asked)
    ensures OnlyRefusedTwice(asked + [(key, result)])
    ensures forall k :: Spent(asked + [(key, result)], k) <==> Spent(asked, k) || (k == key && result != NotSent)
  {
    var more := asked + [(key, result)];
    assert more[|asked|] == (key, result);
    forall k ensures Spent(more, k) <==> Spent(asked, k) || (k == key && result != NotSent) {
      if i :| 0 <= i < |asked| && asked[i].0 == k && asked[i].1 != NotSent {
        assert more[i] == asked[i];
      }
    }
  }

  lemma AskedGuards(asked: Asked, m: Claims, key: Key, result: Result)
    requires Guards(asked, m) && Open(m, key)
    ensures Guards(asked + [(key, result)], m)
  {
  }

  lemma TookIsSpent(asked: Asked, key: Key)
    requires OnRecord(asked, key)
    ensures Spent(asked, key)
  {
  }

  lemma GuardedIsThere(asked: Asked, m: Claims, key: Key)
    requires Guards(asked, m) && Spent(asked, key)
    ensures Open(m, key)
  {
  }

  lemma OperateKeeps(c: Codec<Claim>, w: World, e: Event)
    requires Faithful(c) && Invariant(c, w) && e.Operates? && Possible(c, w, e)
    ensures Invariant(c, Next(c, w, e))
  {
    hide FoldAll, Filed, Written, LineOf, Appended, Load, Spent, Guards, OnlyRefusedTwice, Landed, OnRecord;
    LoadKeeps(c, w);
    var v := w.(store := Loaded(c, w.store));
    LoadKeeps(c, v);
    if Spent(w.asked, e.key) {
      GuardedIsThere(w.asked, v.store.mem.value, e.key);
    }
    if e.state == Sent {
      TookIsSpent(w.asked, e.key);
    }
    var line := Line(v.store, e.state, e.key, e.digest, e.at);
    if line.Some? {
      AddKeeps(c, v, line.value, e.how);
    }
  }

  lemma {:induction false} RunsKeep(c: Codec<Claim>, w: World, events: seq<Event>, end: World)
    requires Faithful(c) && Invariant(c, w) && Leads(c, w, events, end)
    ensures Invariant(c, end)
    decreases |events|
  {
    hide Invariant, Possible, Faithful, Next;
    if events != [] {
      var e := events[0];
      match e {
        case Operates(_, _, _, _, _) => OperateKeeps(c, w, e);
        case Sends(key, result) => SendKeeps(c, w, key, result);
        case Crashes => CrashKeeps(c, w);
      }
      RunsKeep(c, Next(c, w, e), events[1..], end);
    }
  }

  lemma CrashKeeps(c: Codec<Claim>, w: World)
    requires Invariant(c, w)
    ensures Invariant(c, Next(c, w, Crashes))
  {
    hide FoldAll, Filed, Written;
  }

  /** Over every run, with crashes that cut the file at any byte of its last record
      and appends that fail before or after they are written: the reader accepts
      what the writers left and gives exactly the records written whole; and of
      the sends of one message, every one before the last was refused for certain,
      so the relay takes each at most once. */
  lemma TakenAtMostOnce(c: Codec<Claim>, events: seq<Event>, end: World)
    requires Faithful(c) && Leads(c, EMPTY, events, end)
    ensures ReadBack(c, end.store.file) == Some(end.records)
    ensures Load(c, end.store.file).Some? && Load(c, end.store.file) == FoldAll(map[], end.records)
    ensures OnlyRefusedTwice(end.asked)
  {
    hide Leads;
    EmptyIsSteady(c);
    RunsKeep(c, EMPTY, events, end);
    LoadKeeps(c, end);
    FiledReads(c, end.store.file, end.records);
  }

  /** The guard on a repeated claim is exact: a claim whose append failed after it
      was written, asked again, leaves a file the reader accepts just when it is
      asked again with the same text. */
  lemma ReaderRejectsOtherText(c: Codec<Claim>, w: World, key: Key, digest: Bytes, at: int)
    requires Faithful(c) && Invariant(c, w) && w.store.mem.Some? && key !in w.store.mem.value
    requires key in FoldAll(map[], w.records).value
    ensures
      var v := Next(c, w, Operates(Claimed, key, digest, at, Done));
      Load(c, v.store.file).Some? <==> digest == FoldAll(map[], w.records).value[key].digest
  {
    hide FoldAll, Filed, Spent;
    var x := Claim(key, digest, at, Claimed);
    var v := Next(c, w, Operates(Claimed, key, digest, at, Done));
    AppendedWhole(c, w.records, x, Done);
    assert v.store.file == Written(c, w.records + [x]) + [];
    ReadsWholeRecords(c, w.records + [x], []);
    FoldAppends(map[], w.records, x);
    var f := FoldAll(map[], w.records).value;
    if f[key].state == Sent {
      assert Spent(w.asked, key);
      GuardedIsThere(w.asked, w.store.mem.value, key);
    }
  }

  /** And a run reaches such a claim: from nothing, one claim whose append failed
      after it was written leaves the key in the file and not in memory. */
  lemma LateClaimIsReached(c: Codec<Claim>, key: Key, digest: Bytes, at: int, other: Bytes, when: int)
    requires Faithful(c)
    ensures
      var first := Operates(Claimed, key, digest, at, Late);
      var w := Next(c, EMPTY, first);
      && Leads(c, EMPTY, [first], w) && Invariant(c, w)
      && w.store.mem.Some? && key !in w.store.mem.value
      && key in FoldAll(map[], w.records).value && FoldAll(map[], w.records).value[key].digest == digest
      && var v := Next(c, w, Operates(Claimed, key, other, when, Done));
      && (Load(c, v.store.file).Some? <==> other == digest)
  {
    hide Faithful, Invariant, Load, Written, LineOf, Landed;
    var first := Operates(Claimed, key, digest, at, Late);
    var x := Claim(key, digest, at, Claimed);
    EmptyIsSteady(c);
    LoadKeeps(c, EMPTY);
    var w := Next(c, EMPTY, first);
    assert FoldAll(map[], []) == Some(map[]);
    assert w.records == [x] by { LateLands(c, x); }
    FoldAppends(map[], [], x);
    assert [] + [x] == [x];
    OperateKeeps(c, EMPTY, first);
    assert [first][1..] == [];
    ReaderRejectsOtherText(c, w, key, other, when);
  }

  lemma LateLands(c: Codec<Claim>, x: Claim)
    ensures Landed(LineOf(c, x), Late)
  {
  }

  lemma EmptyIsSteady(c: Codec<Claim>)
    ensures Invariant(c, EMPTY)
  {
    assert [] == Written(c, []) + [];
    assert Filed(c, EMPTY.store.file, EMPTY.records);
  }

  // ---- One message, one text ----

  /** The records of one key carry one text, and after it stood as sent it stands as sent
      for good. */
  predicate OneText(cs: seq<Claim>) {
    forall i, j :: 0 <= i < j < |cs| && cs[i].key == cs[j].key ==>
      cs[i].digest == cs[j].digest && (cs[i].state == Sent ==> cs[j].state == Sent)
  }

  lemma {:induction false} FoldedIsLast(cs: seq<Claim>, i: nat)
    requires FoldAll(map[], cs).Some? && i < |cs|
    ensures
      var m := FoldAll(map[], cs).value;
      && cs[i].key in m && m[cs[i].key].digest == cs[i].digest
      && (cs[i].state == Sent ==> m[cs[i].key].state == Sent)
    decreases |cs|
  {
    hide FoldAll;
    var last := |cs| - 1;
    assert cs[..last] + [cs[last]] == cs;
    FoldSome(cs[..last], cs[last]);
    FoldAppends(map[], cs[..last], cs[last]);
    if i < last {
      FoldedIsLast(cs[..last], i);
    }
  }

  lemma {:induction false} FoldSome(cs: seq<Claim>, x: Claim)
    requires FoldAll(map[], cs + [x]).Some?
    ensures FoldAll(map[], cs).Some?
  {
    FoldSomeFrom(map[], cs, x);
  }

  lemma {:induction false} FoldSomeFrom(m: Claims, cs: seq<Claim>, x: Claim)
    requires FoldAll(m, cs + [x]).Some?
    ensures FoldAll(m, cs).Some?
    decreases |cs|
  {
    if cs != [] {
      assert (cs + [x])[0] == cs[0] && (cs + [x])[1..] == cs[1..] + [x];
      FoldSomeFrom(Fold(m, cs[0]).value, cs[1..], x);
    }
  }

  lemma {:induction false} AcceptedIsOneText(cs: seq<Claim>)
    requires FoldAll(map[], cs).Some?
    ensures OneText(cs)
    decreases |cs|
  {
    hide FoldAll;
    if cs != [] {
      var last := |cs| - 1;
      assert cs[..last] + [cs[last]] == cs;
      FoldSome(cs[..last], cs[last]);
      FoldAppends(map[], cs[..last], cs[last]);
      AcceptedIsOneText(cs[..last]);
      forall i | 0 <= i < last && cs[i].key == cs[last].key
        ensures cs[i].digest == cs[last].digest && (cs[i].state == Sent ==> cs[last].state == Sent)
      {
        FoldedIsLast(cs[..last], i);
      }
    }
  }

  /** In every run the records of one message carry one text, and none takes back a message
      that stood as sent. */
  lemma OneMessageHasOneText(c: Codec<Claim>, events: seq<Event>, end: World)
    requires Faithful(c) && Leads(c, EMPTY, events, end)
    ensures OneText(end.records)
  {
    hide Leads, OneText, Steady, Filed, Written;
    EmptyIsSteady(c);
    RunsKeep(c, EMPTY, events, end);
    AcceptedIsOneText(end.records);
  }
}
