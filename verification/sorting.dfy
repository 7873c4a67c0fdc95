/** Sorting by a byte-string key. Go's sort.Slice promises a sorted permutation
    and no more; a sorted permutation is unique when equal keys mean equal
    elements, so whatever follows a sort cannot depend on the input order. */
module Sorting {
  import opened ByteStrings

  ghost predicate SortedBy<T>(s: seq<T>, key: T -> Bytes) {
    forall i, j :: 0 <= i < j < |s| ==> !Less(key(s[j]), key(s[i]))
  }

  /** Equal keys mean equal elements. */
  ghost predicate KeysIdentify<T>(s: seq<T>, key: T -> Bytes) {
    forall i, j :: 0 <= i < |s| && 0 <= j < |s| && key(s[i]) == key(s[j]) ==> s[i] == s[j]
  }

  /** No element twice. */
  predicate Distinct<T(==)>(s: seq<T>) { forall i, j :: 0 <= i < j < |s| ==> s[i] != s[j] }

  function Self(b: Bytes): Bytes { b }

  function Insert<T>(x: T, s: seq<T>, key: T -> Bytes): seq<T> {
    if s == [] || !Less(key(s[0]), key(x)) then [x] + s
    else [s[0]] + Insert(x, s[1..], key)
  }

  function Sort<T>(s: seq<T>, key: T -> Bytes): seq<T> {
    if s == [] then [] else Insert(s[0], Sort(s[1..], key), key)
  }

  lemma {:induction false} InsertSorts<T>(x: T, s: seq<T>, key: T -> Bytes)
    requires SortedBy(s, key)
    ensures SortedBy(Insert(x, s, key), key)
    ensures multiset(Insert(x, s, key)) == multiset{x} + multiset(s)
  {
    if s == [] {
    } else if !Less(key(s[0]), key(x)) {
      forall j | 0 < j < |s| ensures !Less(key(s[j]), key(x)) {
        if Less(key(s[j]), key(x)) {
          LessTotal(key(s[0]), key(s[j]));
          if Less(key(s[0]), key(s[j])) {
            LessTransitive(key(s[0]), key(s[j]), key(x));
          }
        }
      }
    } else {
      var r := Insert(x, s[1..], key);
      InsertSorts(x, s[1..], key);
      assert s == [s[0]] + s[1..];
      forall j | 0 <= j < |r| ensures !Less(key(r[j]), key(s[0])) {
        assert r[j] in multiset(r);
        if r[j] == x {
          if Less(key(x), key(s[0])) {
            LessTransitive(key(x), key(s[0]), key(x));
            LessIrreflexive(key(x));
          }
        } else {
          assert r[j] in s[1..];
        }
      }
    }
  }

  lemma {:induction false} SortSorts<T>(s: seq<T>, key: T -> Bytes)
    ensures SortedBy(Sort(s, key), key)
    ensures multiset(Sort(s, key)) == multiset(s)
    ensures |Sort(s, key)| == |s|
  {
    if s != [] {
      SortSorts(s[1..], key);
      InsertSorts(s[0], Sort(s[1..], key), key);
      assert s == [s[0]] + s[1..];
      assert |multiset(Sort(s, key))| == |multiset(s)|;
    }
  }

  lemma TwicePlaced<T>(s: seq<T>, i: nat, j: nat)
    requires i < j < |s| && s[i] == s[j]
    ensures multiset(s)[s[i]] >= 2
  {
    assert s == s[..j] + [s[j]] + s[j + 1..];
    assert s[..j][i] in multiset(s[..j]);
  }

  /** No element of a sorted permutation sorts below the first one. */
  lemma FirstIsLeast<T>(a: seq<T>, b: seq<T>, key: T -> Bytes)
    requires SortedBy(a, key) && multiset(a) == multiset(b) && a != [] && b != []
    ensures b[0] in a && !Less(key(b[0]), key(a[0]))
  {
    assert b[0] in multiset(a);
    var j :| 0 <= j < |a| && a[j] == b[0];
    if j == 0 {
      LessIrreflexive(key(a[0]));
    }
  }

  lemma SortedTail<T>(a: seq<T>, key: T -> Bytes)
    requires a != [] && SortedBy(a, key)
    ensures SortedBy(a[1..], key)
  {
    var t := a[1..];
    forall i, j | 0 <= i < j < |t| ensures !Less(key(t[j]), key(t[i])) {
      assert t[i] == a[i + 1] && t[j] == a[j + 1];
    }
  }

  lemma IdentifiedTail<T>(a: seq<T>, key: T -> Bytes)
    requires a != [] && KeysIdentify(a, key)
    ensures KeysIdentify(a[1..], key)
  {
    var t := a[1..];
    forall i, j | 0 <= i < |t| && 0 <= j < |t| && key(t[i]) == key(t[j]) ensures t[i] == t[j] {
      assert t[i] == a[i + 1] && t[j] == a[j + 1];
    }
  }

  lemma TailsArePermutations<T>(a: seq<T>, b: seq<T>)
    requires a != [] && b != [] && a[0] == b[0] && multiset(a) == multiset(b)
    ensures multiset(a[1..]) == multiset(b[1..])
  {
    assert a == [a[0]] + a[1..] && b == [b[0]] + b[1..];
    assert multiset(a[1..]) == multiset(a) - multiset{a[0]};
    assert multiset(b[1..]) == multiset(b) - multiset{b[0]};
  }

  lemma SameKeySameElement<T>(a: seq<T>, x: T, key: T -> Bytes)
    requires a != [] && KeysIdentify(a, key) && x in a && key(x) == key(a[0])
    ensures x == a[0]
  {
  }

  /** There is one sorted permutation of elements their keys identify. */
  lemma {:induction false} SortedUnique<T>(a: seq<T>, b: seq<T>, key: T -> Bytes)
    requires SortedBy(a, key) && SortedBy(b, key)
    requires multiset(a) == multiset(b)
    requires KeysIdentify(a, key)
    ensures a == b
    decreases |a|
  {
    assert |multiset(a)| == |a| && |multiset(b)| == |b|;
    if a != [] {
      FirstIsLeast(a, b, key);
      FirstIsLeast(b, a, key);
      LessTotal(key(a[0]), key(b[0]));
      SameKeySameElement(a, b[0], key);
      SortedTail(a, key);
      IdentifiedTail(a, key);
      TailsArePermutations(a, b);
      SortedTail(b, key);
      SortedUnique(a[1..], b[1..], key);
      assert a == [a[0]] + a[1..] && b == [b[0]] + b[1..];
    }
  }

  lemma SelfIdentifies(s: seq<Bytes>)
    ensures KeysIdentify(s, Self)
  {
  }

  /** Permuting the input does not change what sorting gives. */
  lemma SortIgnoresOrder<T>(a: seq<T>, b: seq<T>, key: T -> Bytes)
    requires multiset(a) == multiset(b) && KeysIdentify(a, key)
    ensures Sort(a, key) == Sort(b, key)
  {
    SortSorts(a, key);
    SortSorts(b, key);
    var s := Sort(a, key);
    forall i, j | 0 <= i < |s| && 0 <= j < |s| && key(s[i]) == key(s[j])
      ensures s[i] == s[j]
    {
      assert s[i] in multiset(a) && s[j] in multiset(a);
    }
    SortedUnique(Sort(a, key), Sort(b, key), key);
  }

  // ---- A function of every element ----

  function Map<T, U>(f: T -> U, s: seq<T>): seq<U> { seq(|s|, i requires 0 <= i < |s| => f(s[i])) }

  lemma MapWithout<T, U>(f: T -> U, s: seq<T>, j: nat)
    requires j < |s|
    ensures multiset(Map(f, s)) == multiset(Map(f, s[..j] + s[j + 1..])) + multiset{f(s[j])}
  {
    var m := Map(f, s);
    assert m == m[..j] + [f(s[j])] + m[j + 1..];
    assert Map(f, s[..j] + s[j + 1..]) == m[..j] + m[j + 1..];
  }

  lemma RestPermutes<T>(a: seq<T>, b: seq<T>, j: nat)
    requires a != [] && j < |b| && b[j] == a[0] && multiset(a) == multiset(b)
    ensures multiset(a[1..]) == multiset(b[..j] + b[j + 1..])
  {
    assert a == [a[0]] + a[1..];
    assert b == b[..j] + [b[j]] + b[j + 1..];
    assert multiset(a[1..]) == multiset(a) - multiset{a[0]};
    assert multiset(b[..j] + b[j + 1..]) == multiset(b) - multiset{b[j]};
  }

  lemma {:induction false} MapPermutes<T, U>(f: T -> U, a: seq<T>, b: seq<T>)
    requires multiset(a) == multiset(b)
    ensures multiset(Map(f, a)) == multiset(Map(f, b))
    decreases |a|
  {
    hide Map;
    assert |multiset(a)| == |a| && |multiset(b)| == |b|;
    if a == [] {
      assert b == [];
    } else {
      assert a[0] in multiset(b);
      var j :| 0 <= j < |b| && b[j] == a[0];
      RestPermutes(a, b, j);
      MapPermutes(f, a[1..], b[..j] + b[j + 1..]);
      MapWithout(f, a, 0);
      MapWithout(f, b, j);
      assert a[..0] + a[1..] == a[1..];
    }
  }
}
