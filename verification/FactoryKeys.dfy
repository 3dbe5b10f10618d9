/** The byte keys under which the factory files its pairs, and their order in storage. */
module FactoryKeys {

  type Byte = b: int | 0 <= b < 256
  type Key = seq<Byte>

  datatype AssetInfo = NativeToken(denom: seq<Byte>) | Token(contractAddr: seq<Byte>)

  function AsBytes(a: AssetInfo): Key {
    match a
    case NativeToken(denom) => denom
    case Token(contractAddr) => contractAddr
  }

  function BytesOf(infos: seq<AssetInfo>): seq<Key> {
    if infos == [] then [] else [AsBytes(infos[0])] + BytesOf(infos[1..])
  }

  // ----- Byte order -----

  /** Lexicographic order: the order of storage iteration and of byte slices. */
  predicate Lt(a: Key, b: Key) {
    b != [] && (a == [] || a[0] < b[0] || (a[0] == b[0] && Lt(a[1..], b[1..])))
  }

  lemma {:induction false} LtTotal(a: Key, b: Key)
    ensures a == b || Lt(a, b) || Lt(b, a)
    ensures !(Lt(a, b) && Lt(b, a)) && !Lt(a, a)
  {
    if a != [] { LtTotal(a[1..], a[1..]); }
    if a != [] && b != [] {
      LtTotal(a[1..], b[1..]);
      if a[0] == b[0] && a[1..] == b[1..] { assert a == [a[0]] + a[1..] == b; }
    }
  }

  lemma {:induction false} LtTransitive(a: Key, b: Key, c: Key)
    requires Lt(a, b) && Lt(b, c)
    ensures Lt(a, c)
  {
    if a != [] && a[0] == b[0] == c[0] { LtTransitive(a[1..], b[1..], c[1..]); }
  }

  predicate Prefix(a: Key, b: Key) {
    |a| <= |b| && forall j :: 0 <= j < |a| ==> a[j] == b[j]
  }

  /** a and b agree before i, where a has the smaller byte. */
  predicate SmallerAt(a: Key, b: Key, i: nat) {
    i < |a| && i < |b| && a[i] < b[i] && forall j :: 0 <= j < i ==> a[j] == b[j]
  }

  /** What the order means: b extends a, or exceeds it at the first byte where they differ. */
  lemma {:induction false} LtMeans(a: Key, b: Key)
    ensures Lt(a, b) <==> (Prefix(a, b) && |a| < |b|) || exists i: nat :: SmallerAt(a, b, i)
  {
    if a != [] && b != [] {
      LtMeans(a[1..], b[1..]);
      assert a[0] < b[0] ==> SmallerAt(a, b, 0);
      assert forall i: nat :: SmallerAt(a, b, i) && a[0] >= b[0] ==>
        i > 0 && a[0] == b[0] && SmallerAt(a[1..], b[1..], i - 1);
      assert forall i: nat :: SmallerAt(a[1..], b[1..], i) && a[0] == b[0] ==> SmallerAt(a, b, i + 1);
      assert a[0] == b[0] && Prefix(a[1..], b[1..]) ==> Prefix(a, b);
      assert Prefix(a, b) ==> a[0] == b[0] && Prefix(a[1..], b[1..]);
    }
  }

  // ----- Sorting -----

  function Insert(x: Key, s: seq<Key>): seq<Key> {
    if s == [] || !Lt(s[0], x) then [x] + s else [s[0]] + Insert(x, s[1..])
  }

  function Sort(s: seq<Key>): seq<Key> {
    if s == [] then [] else Insert(s[0], Sort(s[1..]))
  }

  predicate Ordered(s: seq<Key>) {
    forall i, j :: 0 <= i < j < |s| ==> !Lt(s[j], s[i])
  }

  lemma {:induction false} InsertSorts(x: Key, s: seq<Key>)
    requires Ordered(s)
    ensures Ordered(Insert(x, s)) && multiset(Insert(x, s)) == multiset(s) + multiset{x}
  {
    hide Lt;
    if s == [] {
    } else if !Lt(s[0], x) {
      forall j | 0 <= j < |s| ensures !Lt(s[j], x) {
        LtTotal(s[0], x);
        LtTotal(s[0], s[j]);
        if Lt(s[j], x) {
          if s[0] != s[j] { LtTransitive(s[0], s[j], x); }
        }
      }
    } else {
      var rest := Insert(x, s[1..]);
      InsertSorts(x, s[1..]);
      assert s == [s[0]] + s[1..];
      LtTotal(s[0], x);
      forall j | 0 <= j < |rest| ensures !Lt(rest[j], s[0]) {
        assert rest[j] in multiset(rest);
        if rest[j] != x {
          assert rest[j] in multiset(s[1..]);
          var k :| 0 <= k < |s[1..]| && s[1..][k] == rest[j];
          assert s[k + 1] == rest[j];
        }
      }
    }
  }

  lemma {:induction false} SortSorts(s: seq<Key>)
    ensures Ordered(Sort(s)) && multiset(Sort(s)) == multiset(s)
  {
    if s != [] {
      SortSorts(s[1..]);
      InsertSorts(s[0], Sort(s[1..]));
      assert s == [s[0]] + s[1..];
    }
  }

  lemma RemoveAt<T>(s: seq<T>, j: nat)
    requires j < |s|
    ensures multiset(s[..j] + s[j + 1..]) == multiset(s) - multiset{s[j]}
  {
    assert s == s[..j] + ([s[j]] + s[j + 1..]);
    assert multiset(s) == multiset(s[..j]) + (multiset{s[j]} + multiset(s[j + 1..]));
  }

  lemma NoneBelowFirst(s: seq<Key>, x: Key)
    requires Ordered(s) && x in multiset(s)
    ensures !Lt(x, s[0])
  {
    hide Lt;
    var i :| 0 <= i < |s| && s[i] == x;
    LtTotal(x, x);
  }

  lemma OrderedTail(s: seq<Key>)
    requires Ordered(s) && s != []
    ensures Ordered(s[1..])
  {
    hide Lt;
  }

  /** Sorting loses nothing but the order: there is only one ordered arrangement of the same keys. */
  lemma {:induction false} OrderedIsUnique(s: seq<Key>, t: seq<Key>)
    requires Ordered(s) && Ordered(t) && multiset(s) == multiset(t)
    ensures s == t
    decreases |s|
  {
    hide Lt, Ordered;
    assert |multiset(s)| == |s| && |multiset(t)| == |t|;
    if s != [] {
      assert s[0] in multiset(t) && t[0] in multiset(s);
      NoneBelowFirst(s, t[0]);
      NoneBelowFirst(t, s[0]);
      LtTotal(s[0], t[0]);
      RemoveAt(s, 0);
      RemoveAt(t, 0);
      assert s[..0] + s[1..] == s[1..] && t[..0] + t[1..] == t[1..];
      OrderedTail(s);
      OrderedTail(t);
      OrderedIsUnique(s[1..], t[1..]);
      assert s == [s[0]] + s[1..] && t == [t[0]] + t[1..];
    }
  }

  // ----- The key of a pair -----

  function Flatten(s: seq<Key>): Key {
    if s == [] then [] else s[0] + Flatten(s[1..])
  }

  /** The bytes of the assets, sorted and concatenated. */
  function PairKey(infos: seq<AssetInfo>): Key {
    Flatten(Sort(BytesOf(infos)))
  }

  lemma {:induction false} BytesSplit(a: seq<AssetInfo>, b: seq<AssetInfo>)
    ensures BytesOf(a + b) == BytesOf(a) + BytesOf(b)
    decreases |a|
  {
    if a == [] {
      assert a + b == b;
    } else {
      BytesSplit(a[1..], b);
      assert (a + b)[1..] == a[1..] + b;
    }
  }

  lemma {:induction false} SameBytes(a: seq<AssetInfo>, b: seq<AssetInfo>)
    requires multiset(a) == multiset(b)
    ensures multiset(BytesOf(a)) == multiset(BytesOf(b))
    decreases |a|
  {
    hide AsBytes;
    assert |multiset(a)| == |a| && |multiset(b)| == |b|;
    if a != [] {
      assert a[0] in multiset(b);
      var j :| 0 <= j < |b| && b[j] == a[0];
      var rest := b[..j] + b[j + 1..];
      RemoveAt(a, 0);
      assert a[..0] + a[1..] == a[1..];
      RemoveAt(b, j);
      SameBytes(a[1..], rest);
      BytesAround(b, j);
    }
  }

  lemma BytesCons(x: AssetInfo, rest: seq<AssetInfo>)
    ensures BytesOf([x] + rest) == [AsBytes(x)] + BytesOf(rest)
  {
    assert ([x] + rest)[1..] == rest;
  }

  lemma SplitAt<T>(s: seq<T>, j: nat)
    requires j < |s|
    ensures s == s[..j] + ([s[j]] + s[j + 1..])
  {
  }

  lemma BytesAround(b: seq<AssetInfo>, j: nat)
    requires j < |b|
    ensures multiset(BytesOf(b)) == multiset{AsBytes(b[j])} + multiset(BytesOf(b[..j] + b[j + 1..]))
  {
    hide AsBytes, BytesOf;
    SplitAt(b, j);
    BytesSplit(b[..j], [b[j]] + b[j + 1..]);
    BytesCons(b[j], b[j + 1..]);
    BytesSplit(b[..j], b[j + 1..]);
    InTheMiddle(BytesOf(b[..j]), AsBytes(b[j]), BytesOf(b[j + 1..]));
  }

  lemma InTheMiddle(p: seq<Key>, x: Key, q: seq<Key>)
    ensures multiset(p + ([x] + q)) == multiset{x} + multiset(p + q)
  {
  }

  /** Every permutation of a list of assets has the same key. */
  lemma PairKeyIgnoresOrder(a: seq<AssetInfo>, b: seq<AssetInfo>)
    requires multiset(a) == multiset(b)
    ensures PairKey(a) == PairKey(b)
  {
    SameBytes(a, b);
    SortSorts(BytesOf(a));
    SortSorts(BytesOf(b));
    OrderedIsUnique(Sort(BytesOf(a)), Sort(BytesOf(b)));
  }

  // ----- When keys collide -----

  /** The same text cut into names in two ways: the shorter of the first names begins the other, and the rest of that
      one goes on to be matched. */
  predicate Regroups(s: seq<Key>, t: seq<Key>)
    decreases |s| + |t|
  {
    if s == [] then forall j :: 0 <= j < |t| ==> t[j] == []
    else if t == [] then forall i :: 0 <= i < |s| ==> s[i] == []
    else if |s[0]| <= |t[0]| then Prefix(s[0], t[0]) && Regroups(s[1..], [t[0][|s[0]|..]] + t[1..])
    else Prefix(t[0], s[0]) && Regroups([s[0][|t[0]|..]] + s[1..], t[1..])
  }

  lemma {:induction false} FlattenEmpty(s: seq<Key>)
    ensures Flatten(s) == [] <==> forall i :: 0 <= i < |s| ==> s[i] == []
  {
    if s != [] {
      FlattenEmpty(s[1..]);
      assert forall i :: 0 < i < |s| ==> s[i] == s[1..][i - 1];
      assert forall i :: 0 <= i < |s| - 1 ==> s[1..][i] == s[i + 1];
    }
  }

  /** Two concatenations agree exactly when the shorter first part begins the other and the remainders agree. */
  lemma ConcatIff(p: Key, s: Key, q: Key, t: Key)
    requires |p| <= |q|
    ensures p + s == q + t <==> Prefix(p, q) && s == q[|p|..] + t
  {
    if p + s == q + t {
      assert forall j :: 0 <= j < |p| ==> p[j] == (p + s)[j] == (q + t)[j] == q[j];
      assert s == (p + s)[|p|..] == (q + t)[|p|..] == q[|p|..] + t;
    }
    if Prefix(p, q) && s == q[|p|..] + t {
      assert q == p + q[|p|..];
      assert p + (q[|p|..] + t) == (p + q[|p|..]) + t;
    }
  }

  lemma {:induction false} FlattenIff(s: seq<Key>, t: seq<Key>)
    ensures Flatten(s) == Flatten(t) <==> Regroups(s, t)
    decreases |s| + |t|
  {
    hide Prefix;
    if s == [] || t == [] {
      FlattenEmpty(s);
      FlattenEmpty(t);
    } else if |s[0]| <= |t[0]| {
      var t' := [t[0][|s[0]|..]] + t[1..];
      assert t'[1..] == t[1..];
      FlattenIff(s[1..], t');
      ConcatIff(s[0], Flatten(s[1..]), t[0], Flatten(t[1..]));
    } else {
      var s' := [s[0][|t[0]|..]] + s[1..];
      assert s'[1..] == s[1..];
      FlattenIff(s', t[1..]);
      ConcatIff(t[0], Flatten(t[1..]), s[0], Flatten(s[1..]));
    }
  }

  /** Exactly when two lists of assets, of any lengths, have the same key: one's sorted names are the other's cut
      differently. */
  lemma KeysAgreeIff(a: seq<AssetInfo>, b: seq<AssetInfo>)
    ensures PairKey(a) == PairKey(b) <==> Regroups(Sort(BytesOf(a)), Sort(BytesOf(b)))
  {
    FlattenIff(Sort(BytesOf(a)), Sort(BytesOf(b)));
  }

  predicate SameLengths(s: seq<Key>, t: seq<Key>) {
    |s| == |t| && forall i :: 0 <= i < |s| ==> |s[i]| == |t[i]|
  }

  lemma {:induction false} FlattenInjective(s: seq<Key>, t: seq<Key>)
    requires SameLengths(s, t) && Flatten(s) == Flatten(t)
    ensures s == t
    decreases |s|
  {
    if s != [] {
      assert s[0] == Flatten(s)[..|s[0]|] == Flatten(t)[..|t[0]|] == t[0];
      assert Flatten(s[1..]) == Flatten(s)[|s[0]|..] == Flatten(t)[|t[0]|..] == Flatten(t[1..]);
      FlattenInjective(s[1..], t[1..]);
      assert s == [s[0]] + s[1..] && t == [t[0]] + t[1..];
    }
  }

  /** When two lists have asset names of the same lengths, once sorted, their keys agree exactly when they list the
      same names. */
  lemma SameLengthKeysAgreeIff(a: seq<AssetInfo>, b: seq<AssetInfo>)
    requires SameLengths(Sort(BytesOf(a)), Sort(BytesOf(b)))
    ensures PairKey(a) == PairKey(b) <==> multiset(BytesOf(a)) == multiset(BytesOf(b))
  {
    SortSorts(BytesOf(a));
    SortSorts(BytesOf(b));
    if PairKey(a) == PairKey(b) { FlattenInjective(Sort(BytesOf(a)), Sort(BytesOf(b))); }
    if multiset(BytesOf(a)) == multiset(BytesOf(b)) { OrderedIsUnique(Sort(BytesOf(a)), Sort(BytesOf(b))); }
  }

  // ----- Pairs -----

  type Two = infos: seq<AssetInfo> | |infos| == 2 witness [NativeToken([]), NativeToken([])]

  /** The lesser and the greater name of a pair. */
  function Low(a: Two): Key { if Lt(AsBytes(a[1]), AsBytes(a[0])) then AsBytes(a[1]) else AsBytes(a[0]) }

  function High(a: Two): Key { if Lt(AsBytes(a[1]), AsBytes(a[0])) then AsBytes(a[0]) else AsBytes(a[1]) }

  lemma KeyOfTwo(a: Two)
    ensures BytesOf(a) == [AsBytes(a[0]), AsBytes(a[1])]
    ensures Sort(BytesOf(a)) == [Low(a), High(a)] && PairKey(a) == Low(a) + High(a)
  {
    hide Lt, AsBytes;
    var x, y := AsBytes(a[0]), AsBytes(a[1]);
    LtTotal(x, y);
    assert a == [a[0]] + [a[1]] && [a[1]][1..] == [];
    assert BytesOf([a[1]]) == [y] + BytesOf([]);
    assert BytesOf(a) == [x] + BytesOf([a[1]]) == [x, y];
    assert Sort([y]) == Insert(y, Sort([])) == [y];
    assert Sort([x, y]) == Insert(x, Sort([y]));
    assert Insert(x, []) == [x];
    TwoFlat(Low(a), High(a));
  }

  lemma TwoFlat(x: Key, y: Key)
    ensures Flatten([x, y]) == x + y
  {
    assert Flatten([y]) == y + Flatten([]) == y;
  }

  /** (x, y) becomes (u, v) by moving the end of x, possibly nothing of it, to the start of y. */
  predicate Shifted(x: Key, y: Key, u: Key, v: Key) {
    Prefix(u, x) && v == x[|u|..] + y
  }

  /** Something is moved across the boundary between the two names, one way or the other. */
  predicate Collide(a: Two, b: Two) {
    Low(a) != Low(b) && (Shifted(Low(a), High(a), Low(b), High(b)) || Shifted(Low(b), High(b), Low(a), High(a)))
  }

  /** Two pairs have the same key if and only if they name the same assets or one is the other with bytes moved across
      the boundary; these are exclusive, so colliding pairs are always different. */
  lemma PairKeysAgreeIff(a: Two, b: Two)
    ensures PairKey(a) == PairKey(b) <==> multiset(BytesOf(a)) == multiset(BytesOf(b)) || Collide(a, b)
    ensures !(multiset(BytesOf(a)) == multiset(BytesOf(b)) && Collide(a, b))
  {
    hide Lt, AsBytes, Flatten, Insert, Prefix;
    KeyOfTwo(a);
    KeyOfTwo(b);
    SortSorts(BytesOf(a));
    SortSorts(BytesOf(b));
    if multiset(BytesOf(a)) == multiset(BytesOf(b)) {
      OrderedIsUnique(Sort(BytesOf(a)), Sort(BytesOf(b)));
      assert [Low(a), High(a)][0] == [Low(b), High(b)][0];
    } else {
      if |Low(b)| <= |Low(a)| {
        ShiftIff(Low(a), High(a), Low(b), High(b));
      } else {
        ShiftIff(Low(b), High(b), Low(a), High(a));
      }
      SamePrefix(Low(a), Low(b));
      if Low(a) == Low(b) && PairKey(a) == PairKey(b) { SameLowSameNames(a, b); }
    }
  }

  lemma SameLowSameNames(a: Two, b: Two)
    requires Low(a) == Low(b) && PairKey(a) == PairKey(b)
    ensures multiset(BytesOf(a)) == multiset(BytesOf(b))
  {
    hide Lt, AsBytes, Flatten, Insert, Sort, Low, High, PairKey;
    KeyOfTwo(a);
    KeyOfTwo(b);
    SortSorts(BytesOf(a));
    SortSorts(BytesOf(b));
    assert High(a) == PairKey(a)[|Low(a)|..] == High(b);
  }

  lemma ShiftIff(x: Key, y: Key, u: Key, v: Key)
    requires |u| <= |x|
    ensures x + y == u + v <==> Shifted(x, y, u, v)
  {
    ConcatIff(u, v, x, y);
  }

  lemma SamePrefix(x: Key, u: Key)
    ensures |u| <= |x| && Prefix(x, u) ==> x == u
    ensures |x| <= |u| && Prefix(u, x) ==> x == u
  {
  }
}
