/** The factory's paged listing of its pairs, and a client walking it page by page. */
module FactoryPages {
  import opened Outcome
  import opened FixedPoint
  import opened Bank
  import opened FactoryKeys

  const MAX_LIMIT: nat := 30
  const DEFAULT_LIMIT: nat := 10

  type Pairs = map<Key, Addr>

  datatype PairInfo = PairInfo(contractAddr: Addr, liquidityToken: Denom, assetInfos: seq<AssetInfo>)

  /** What each contract answers when asked which pair it is. */
  type View = Addr -> Option<PairInfo>

  // ----- Storage order -----

  predicate Increasing(s: seq<Key>) {
    forall i, j :: 0 <= i < j < |s| ==> Lt(s[i], s[j])
  }

  predicate IsLeast(s: set<Key>, x: Key) {
    x in s && forall y :: y in s && y != x ==> Lt(x, y)
  }

  lemma {:induction false} LeastExists(s: set<Key>)
    requires s != {}
    ensures exists x :: IsLeast(s, x)
    ensures forall x, y :: IsLeast(s, x) && IsLeast(s, y) ==> x == y
    decreases |s|
  {
    forall x, y | IsLeast(s, x) && IsLeast(s, y) ensures x == y { LtTotal(x, y); }
    var z :| z in s;
    if s == {z} {
      assert IsLeast(s, z);
    } else {
      var rest := s - {z};
      LeastExists(rest);
      var x :| IsLeast(rest, x);
      LtTotal(x, z);
      if Lt(x, z) {
        assert IsLeast(s, x);
      } else {
        forall y | y in rest && y != x ensures Lt(z, y) { LtTransitive(z, x, y); }
        assert IsLeast(s, z);
      }
    }
  }

  /** The keys in the order in which storage iterates over them. */
  function Ascending(s: set<Key>): (r: seq<Key>)
    ensures Increasing(r) && |r| == |s|
    ensures forall k :: k in r <==> k in s
    decreases |s|
  {
    if s == {} then [] else
    LeastExists(s);
    var x :| x in s && IsLeast(s, x);
    var rest := Ascending(s - {x});
    assert forall j :: 0 <= j < |rest| ==> rest[j] in rest;
    [x] + rest
  }

  lemma {:induction false} IncreasingIsUnique(s: seq<Key>, t: seq<Key>)
    requires Increasing(s) && Increasing(t) && forall k :: k in s <==> k in t
    ensures s == t
    decreases |s|
  {
    hide Lt;
    assert |t| > 0 ==> t[0] in s;
    if s != [] {
      assert s[0] in t;
      LtTotal(s[0], t[0]);
      assert s[0] == t[0];
      SameTail(s, t);
      IncreasingIsUnique(s[1..], t[1..]);
    }
  }

  lemma SameTail(s: seq<Key>, t: seq<Key>)
    requires Increasing(s) && Increasing(t) && (forall k :: k in s <==> k in t) && s != [] && t != [] && s[0] == t[0]
    ensures forall k :: k in s[1..] <==> k in t[1..]
  {
    hide Lt;
    LtTotal(s[0], s[0]);
    forall k ensures k in s[1..] <==> k in s && k != s[0] { }
    forall k ensures k in t[1..] <==> k in t && k != t[0] { }
  }

  // ----- Reading a page -----

  function First<T>(s: seq<T>, n: nat): seq<T> {
    if n < |s| then s[..n] else s
  }

  predicate After(bound: Option<Key>, k: Key) {
    bound.None? || Lt(bound.value, k)
  }

  function KeysAfter(keys: set<Key>, bound: Option<Key>): set<Key> {
    set k | k in keys && After(bound, k)
  }

  /** The keys beyond the bound, in storage order. */
  function Range(keys: set<Key>, bound: Option<Key>): (r: seq<Key>)
    ensures Increasing(r) && forall k :: k in r <==> k in keys && After(bound, k)
  {
    Ascending(KeysAfter(keys, bound))
  }

  /** The first n of them. */
  function Page(keys: set<Key>, bound: Option<Key>, n: nat): (r: seq<Key>)
    ensures forall k :: k in r ==> k in keys && After(bound, k)
  {
    var s := Range(keys, bound);
    assert forall k :: k in First(s, n) ==> k in s;
    First(s, n)
  }

  /** Ten unless the caller says otherwise, and never more than thirty. */
  function Limit(limit: Option<nat>): (r: nat)
    ensures limit.None? ==> r == 10
    ensures limit.Some? ==> r <= limit.value && r <= 30 && (r == limit.value || r == 30)
  {
    Min(UnwrapOr(limit, DEFAULT_LIMIT), MAX_LIMIT)
  }

  /** A page after some assets starts beyond their key with a byte 1 added. */
  function CalcRangeStart(startAfter: Option<seq<AssetInfo>>): Option<Key> {
    if startAfter.None? then None else Some(PairKey(startAfter.value) + [1])
  }

  function AddressesOf(pairs: Pairs, keys: seq<Key>): seq<Addr>
    requires forall k :: k in keys ==> k in pairs
  {
    seq(|keys|, i requires 0 <= i < |keys| => pairs[keys[i]])
  }

  function ReadPairs(pairs: Pairs, startAfter: Option<seq<AssetInfo>>, limit: Option<nat>): seq<Addr> {
    AddressesOf(pairs, Page(pairs.Keys, CalcRangeStart(startAfter), Limit(limit)))
  }

  /** The answers of the listed contracts, if all of them answer. */
  function AskAll(view: View, addrs: seq<Addr>): Option<seq<PairInfo>> {
    if addrs == [] then Some([]) else
    var head, rest := view(addrs[0]), AskAll(view, addrs[1..]);
    if head.Some? && rest.Some? then Some([head.value] + rest.value) else None
  }

  function QueryPairs(pairs: Pairs, view: View, startAfter: Option<seq<AssetInfo>>,
                      limit: Option<nat>): Option<seq<PairInfo>> {
    AskAll(view, ReadPairs(pairs, startAfter, limit))
  }

  /** A client reading up to n pages, each starting after the assets of the last pair it saw, until a page is empty. */
  function Walk(pairs: Pairs, view: View, startAfter: Option<seq<AssetInfo>>, limit: Option<nat>,
                n: nat): Option<seq<PairInfo>>
    decreases n
  {
    if n == 0 then Some([]) else
    var page := QueryPairs(pairs, view, startAfter, limit);
    if page.None? || page.value == [] then page else
    var rest := Walk(pairs, view, Some(page.value[|page.value| - 1].assetInfos), limit, n - 1);
    if rest.None? then None else Some(page.value + rest.value)
  }

  // ----- Which keys a page boundary passes over -----

  /** k' comes so close after k that the bound derived from k skips it. */
  predicate Shadows(k: Key, k': Key) {
    Prefix(k, k') && |k| < |k'| && (k'[|k|] == 0 || k' == k + [1])
  }

  predicate NoShadows(keys: set<Key>) {
    forall k, k' :: k in keys && k' in keys ==> !Shadows(k, k')
  }

  lemma ShadowsTail(k: Key, k': Key)
    requires k != [] && k' != [] && k[0] == k'[0]
    ensures Shadows(k, k') <==> Shadows(k[1..], k'[1..])
  {
    assert Prefix(k[1..], k'[1..]) ==> Prefix(k, k') by {
      if Prefix(k[1..], k'[1..]) {
        forall j | 0 <= j < |k| ensures k[j] == k'[j] {
          if j > 0 { assert k[1..][j - 1] == k'[1..][j - 1]; }
        }
      }
    }
    assert (k + [1])[1..] == k[1..] + [1];
    assert k' == [k'[0]] + k'[1..] && k + [1] == [k[0]] + (k[1..] + [1]);
  }

  /** The keys beyond k with a byte 1 added are exactly the keys beyond k that k does not shadow. */
  lemma {:induction false} BoundSkipsShadows(k: Key, k': Key)
    ensures Lt(k + [1], k') <==> Lt(k, k') && !Shadows(k, k')
  {
    if k == [] {
      assert k + [1] == [1];
      assert Lt([1], k') <==> k' != [] && (1 < k'[0] || (k'[0] == 1 && k'[1..] != []));
      assert k' != [] && k'[0] == 1 && k'[1..] == [] ==> k' == [1];
    } else if k' != [] {
      assert (k + [1])[1..] == k[1..] + [1];
      if k[0] == k'[0] {
        ShadowsTail(k, k');
        BoundSkipsShadows(k[1..], k'[1..]);
      }
    }
  }

  /** Bytes above 1, as in every denom a chain accepts. */
  predicate Plain(k: Key) {
    forall i :: 0 <= i < |k| ==> k[i] > 1
  }

  lemma {:induction false} FlattenPlain(s: seq<Key>)
    requires forall i :: 0 <= i < |s| ==> Plain(s[i])
    ensures Plain(Flatten(s))
  {
    if s != [] { FlattenPlain(s[1..]); }
  }

  /** Assets named in bytes above 1 have a key of bytes above 1, */
  lemma PlainNamesPlainKey(infos: seq<AssetInfo>)
    requires forall i :: 0 <= i < |infos| ==> Plain(AsBytes(infos[i]))
    ensures Plain(PairKey(infos))
  {
    var names := BytesOf(infos);
    NamesPlain(infos);
    SortSorts(names);
    forall i | 0 <= i < |Sort(names)| ensures Plain(Sort(names)[i]) {
      assert Sort(names)[i] in multiset(names);
    }
    FlattenPlain(Sort(names));
  }

  /** and no key shadows such a key. */
  lemma PlainIsNotShadowed(k: Key, k': Key)
    requires Plain(k')
    ensures !Shadows(k, k')
  {
    assert (k + [1])[|k|] == 1;
  }

  lemma {:induction false} NamesPlain(infos: seq<AssetInfo>)
    requires forall i :: 0 <= i < |infos| ==> Plain(AsBytes(infos[i]))
    ensures forall name :: name in BytesOf(infos) ==> Plain(name)
  {
    if infos != [] { NamesPlain(infos[1..]); }
  }

  // ----- The walk, on keys -----

  function KeyWalk(keys: set<Key>, bound: Option<Key>, l: nat, n: nat): (r: seq<Key>)
    ensures forall k :: k in r ==> k in keys
    decreases n
  {
    if n == 0 then [] else
    var page := Page(keys, bound, l);
    if page == [] then [] else page + KeyWalk(keys, Some(page[|page| - 1] + [1]), l, n - 1)
  }

  lemma TailMembers(s: seq<Key>, m: nat, k: Key)
    requires Increasing(s) && 0 < m <= |s|
    ensures k in s[m..] <==> k in s && Lt(s[m - 1], k)
  {
    hide Lt;
    if k in s && Lt(s[m - 1], k) {
      var i :| 0 <= i < |s| && s[i] == k;
      LtTotal(s[m - 1], k);
      assert i >= m;
      assert s[m..][i - m] == k;
    }
  }

  /** Without shadows, what follows a page of the listing is the rest of the listing. */
  lemma NextPage(keys: set<Key>, bound: Option<Key>, m: nat)
    requires NoShadows(keys) && 0 < m <= |Range(keys, bound)|
    ensures var s := Range(keys, bound); Range(keys, Some(s[m - 1] + [1])) == s[m..]
  {
    hide Lt, Shadows, Range;
    var s := Range(keys, bound);
    var last := s[m - 1];
    assert last in s;
    var next := Range(keys, Some(last + [1]));
    forall k ensures k in next <==> k in s[m..] {
      TailMembers(s, m, k);
      BoundSkipsShadows(last, k);
      if bound.Some? && Lt(last, k) { LtTransitive(bound.value, last, k); }
    }
    IncreasingIsUnique(next, s[m..]);
  }

  lemma FirstSplit<T>(s: seq<T>, l: nat, rest: nat)
    ensures First(s, l) + First(s[|First(s, l)|..], rest) == First(s, l + rest)
    ensures |First(s, l)| <= |s| && First(s, l) == s[..|First(s, l)|]
    ensures First(s, l) == [] ==> l == 0 || s == []
  {
  }

  lemma PagesTimesLimit(l: nat, n: nat)
    ensures n * l >= 0 && (l == 0 ==> n * l == 0) && (l >= 1 ==> n * l >= n)
    ensures n > 0 ==> n * l == l + (n - 1) * l && (n - 1) * l >= 0
  {
    if l >= 1 { assert n * l == n + n * (l - 1); assert n * (l - 1) >= 0; }
  }

  /** Without shadows, n pages of l keys are the first n * l keys of the listing. */
  lemma {:induction false} KeyWalkIsListing(keys: set<Key>, bound: Option<Key>, l: nat, n: nat)
    requires NoShadows(keys)
    ensures n * l >= 0 && KeyWalk(keys, bound, l, n) == First(Range(keys, bound), n * l)
    decreases n
  {
    hide Lt, Shadows, NoShadows, Range, First;
    var s := Range(keys, bound);
    var page := First(s, l);
    PagesTimesLimit(l, n);
    NothingFirst(s);
    if n > 0 {
      FirstSplit(s, l, (n - 1) * l);
      if page != [] {
        NextPage(keys, bound, |page|);
        KeyWalkIsListing(keys, Some(page[|page| - 1] + [1]), l, n - 1);
      }
    }
  }

  lemma NothingFirst<T>(s: seq<T>)
    ensures First(s, 0) == []
    ensures s == [] ==> forall n :: First(s, n) == []
    ensures forall n :: n >= |s| ==> First(s, n) == s
  {
  }

  lemma {:induction false} WalkStaysAfter(keys: set<Key>, bound: Option<Key>, l: nat, n: nat, k: Key)
    requires k in KeyWalk(keys, bound, l, n)
    ensures After(bound, k)
    decreases n
  {
    hide Lt, Page, Shadows;
    var page := Page(keys, bound, l);
    if k !in page {
      var last := page[|page| - 1];
      assert last in page;
      WalkStaysAfter(keys, Some(last + [1]), l, n - 1, k);
      BoundSkipsShadows(last, k);
      if bound.Some? { LtTransitive(bound.value, last, k); }
    }
  }

  /** A page of one key is the least key beyond the bound. */
  lemma PageOfOne(keys: set<Key>, bound: Option<Key>, k: Key) returns (x: Key)
    requires k in keys && After(bound, k)
    ensures Page(keys, bound, 1) == [x] && (x == k || Lt(x, k))
  {
    hide Lt, Range;
    var s := Range(keys, bound);
    assert k in s;
    x := s[0];
    var i :| 0 <= i < |s| && s[i] == k;
  }

  /** Read one at a time, a key and one that it shadows are never both listed. */
  lemma {:induction false} OneByOneSkips(keys: set<Key>, bound: Option<Key>, n: nat, k: Key, k': Key)
    requires k in keys && k' in keys && Shadows(k, k') && After(bound, k)
    ensures !(k in KeyWalk(keys, bound, 1, n) && k' in KeyWalk(keys, bound, 1, n))
    decreases n
  {
    hide Lt, Shadows, Page, KeysAfter;
    var walk := KeyWalk(keys, bound, 1, n);
    if n > 0 && k in walk && k' in walk {
      var x := PageOfOne(keys, bound, k);
      var next := Some(x + [1]);
      var rest := KeyWalk(keys, next, 1, n - 1);
      assert walk == [x] + rest;
      BoundSkipsShadows(k, k');
      ShadowedIsBeyond(k, k');
      LtTotal(k, k');
      if k == x {
        WalkStaysAfter(keys, next, 1, n - 1, k');
      } else {
        LtTransitive(x, k, k');
        LtTotal(x, k');
        WalkStaysAfter(keys, next, 1, n - 1, k);
        OneByOneSkips(keys, next, n - 1, k, k');
      }
    }
  }

  lemma ShadowedIsBeyond(k: Key, k': Key)
    requires Shadows(k, k')
    ensures Lt(k, k')
  {
    LtMeans(k, k');
  }

  // ----- The walk, on pairs -----

  /** Every registered contract says that it trades the assets it is registered under. */
  predicate Consistent(pairs: Pairs, view: View) {
    forall k :: k in pairs ==> view(pairs[k]).Some? && PairKey(view(pairs[k]).value.assetInfos) == k
  }

  function InfosAt(pairs: Pairs, view: View, keys: seq<Key>): seq<PairInfo>
    requires Consistent(pairs, view) && forall k :: k in keys ==> k in pairs
  {
    seq(|keys|, i requires 0 <= i < |keys| => assert keys[i] in keys; view(pairs[keys[i]]).value)
  }

  /** All registered pairs in key order. */
  function Listing(pairs: Pairs, view: View): seq<PairInfo>
    requires Consistent(pairs, view)
  {
    InfosAt(pairs, view, Range(pairs.Keys, None))
  }

  lemma {:induction false} AllAnswer(pairs: Pairs, view: View, keys: seq<Key>)
    requires Consistent(pairs, view) && forall k :: k in keys ==> k in pairs
    ensures AskAll(view, AddressesOf(pairs, keys)) == Some(InfosAt(pairs, view, keys))
    decreases |keys|
  {
    hide PairKey;
    if keys != [] {
      assert keys[0] in keys;
      AllAnswer(pairs, view, keys[1..]);
      assert AddressesOf(pairs, keys)[1..] == AddressesOf(pairs, keys[1..]);
      assert InfosAt(pairs, view, keys) == [view(pairs[keys[0]]).value] + InfosAt(pairs, view, keys[1..]);
    }
  }

  lemma InfosSplit(pairs: Pairs, view: View, s: seq<Key>, t: seq<Key>)
    requires Consistent(pairs, view) && (forall k :: k in s ==> k in pairs) && (forall k :: k in t ==> k in pairs)
    ensures InfosAt(pairs, view, s + t) == InfosAt(pairs, view, s) + InfosAt(pairs, view, t)
  {
    hide Consistent;
  }

  lemma QueryIsPage(pairs: Pairs, view: View, startAfter: Option<seq<AssetInfo>>, limit: Option<nat>)
    requires Consistent(pairs, view)
    ensures
      var page := Page(pairs.Keys, CalcRangeStart(startAfter), Limit(limit));
      var infos := InfosAt(pairs, view, page);
      && QueryPairs(pairs, view, startAfter, limit) == Some(infos) && |infos| == |page|
      && (page != [] ==> PairKey(infos[|page| - 1].assetInfos) == page[|page| - 1])
  {
    hide PairKey, Page;
    var page := Page(pairs.Keys, CalcRangeStart(startAfter), Limit(limit));
    AllAnswer(pairs, view, page);
    if page != [] { assert page[|page| - 1] in page; }
  }

  lemma {:induction false} WalkIsKeyWalk(pairs: Pairs, view: View, startAfter: Option<seq<AssetInfo>>,
                                         limit: Option<nat>, n: nat)
    requires Consistent(pairs, view)
    ensures Walk(pairs, view, startAfter, limit, n)
         == Some(InfosAt(pairs, view, KeyWalk(pairs.Keys, CalcRangeStart(startAfter), Limit(limit), n)))
    decreases n
  {
    hide PairKey, Lt, Limit, After, Page, QueryPairs, Consistent;
    assert InfosAt(pairs, view, []) == [];
    if n > 0 {
      var page := Page(pairs.Keys, CalcRangeStart(startAfter), Limit(limit));
      QueryIsPage(pairs, view, startAfter, limit);
      var infos := InfosAt(pairs, view, page);
      if page != [] {
        var last := Some(infos[|page| - 1].assetInfos);
        WalkIsKeyWalk(pairs, view, last, limit, n - 1);
        InfosSplit(pairs, view, page, KeyWalk(pairs.Keys, CalcRangeStart(last), Limit(limit), n - 1));
      }
    }
  }

  /** Reading n pages yields the first n * limit registered pairs in key order, each exactly once and none missing;
      so the walk ends, with every pair, as soon as n * limit reaches their number. */
  lemma PageWalk(pairs: Pairs, view: View, limit: Option<nat>, n: nat)
    requires Consistent(pairs, view) && NoShadows(pairs.Keys)
    ensures Walk(pairs, view, None, limit, n) == Some(First(Listing(pairs, view), n * Limit(limit)))
    ensures Limit(limit) >= 1 && n >= |pairs| ==> Walk(pairs, view, None, limit, n) == Some(Listing(pairs, view))
  {
    hide PairKey, Lt, Limit, Shadows, Walk, KeyWalk, First, Range;
    var l := Limit(limit);
    WalkIsKeyWalk(pairs, view, None, limit, n);
    KeyWalkIsListing(pairs.Keys, None, l, n);
    var all := Range(pairs.Keys, None);
    InfosFirst(pairs, view, all, n * l);
    RangeOfAll(pairs.Keys);
    PagesTimesLimit(l, n);
    NothingFirst(all);
  }

  lemma RangeOfAll(keys: set<Key>)
    ensures |Range(keys, None)| == |keys|
  {
    hide Lt;
    assert KeysAfter(keys, None) == keys;
  }

  lemma InfosFirst(pairs: Pairs, view: View, s: seq<Key>, n: nat)
    requires Consistent(pairs, view) && forall k :: k in s ==> k in pairs
    ensures forall k :: k in First(s, n) ==> k in pairs
    ensures InfosAt(pairs, view, First(s, n)) == First(InfosAt(pairs, view, s), n)
  {
    hide Consistent;
  }

  /** Each registered pair appears at exactly one place of the listing. */
  lemma ListedOnce(pairs: Pairs, view: View, k: Key)
    requires Consistent(pairs, view) && k in pairs
    ensures exists i :: 0 <= i < |Listing(pairs, view)| && Listing(pairs, view)[i] == view(pairs[k]).value
    ensures forall i, j :: 0 <= i < j < |Listing(pairs, view)| ==>
      Lt(PairKey(Listing(pairs, view)[i].assetInfos), PairKey(Listing(pairs, view)[j].assetInfos))
  {
    hide PairKey, Lt;
    var keys := Range(pairs.Keys, None);
    assert forall i :: 0 <= i < |keys| ==> keys[i] in keys && PairKey(Listing(pairs, view)[i].assetInfos) == keys[i];
    assert k in keys;
    var i :| 0 <= i < |keys| && keys[i] == k;
    assert Listing(pairs, view)[i] == view(pairs[k]).value;
  }

  /** If a registered key shadows another, walking one pair at a time never lists all pairs. */
  lemma ShadowBreaksWalk(pairs: Pairs, view: View)
    requires Consistent(pairs, view) && !NoShadows(pairs.Keys)
    ensures Walk(pairs, view, None, Some(1), |pairs|) != Some(Listing(pairs, view))
  {
    hide Walk, Lt, Shadows, PairKey, KeyWalk;
    var k, k' :| k in pairs.Keys && k' in pairs.Keys && Shadows(k, k');
    var n := |pairs|;
    WalkIsKeyWalk(pairs, view, None, Some(1), n);
    OneByOneSkips(pairs.Keys, None, n, k, k');
    var walked, all := KeyWalk(pairs.Keys, None, 1, n), Range(pairs.Keys, None);
    assert k in all && k' in all;
    SameInfosSameKeys(pairs, view, walked, all);
  }

  /** Walking the pages lists every pair, whatever the page size, exactly when no registered key shadows another. */
  lemma PageWalkCompleteIff(pairs: Pairs, view: View)
    requires Consistent(pairs, view)
    ensures NoShadows(pairs.Keys) <==>
      forall limit, n: nat :: Limit(limit) >= 1 && n >= |pairs| ==>
        Walk(pairs, view, None, limit, n) == Some(Listing(pairs, view))
  {
    hide Walk, Lt, Shadows, PairKey, KeyWalk, NoShadows, Listing;
    if NoShadows(pairs.Keys) {
      forall limit, n: nat | Limit(limit) >= 1 && n >= |pairs|
        ensures Walk(pairs, view, None, limit, n) == Some(Listing(pairs, view))
      {
        PageWalk(pairs, view, limit, n);
      }
    } else {
      ShadowBreaksWalk(pairs, view);
      assert Limit(Some(1)) == 1 && Walk(pairs, view, None, Some(1), |pairs|) != Some(Listing(pairs, view));
    }
  }

  lemma SameInfosSameKeys(pairs: Pairs, view: View, s: seq<Key>, t: seq<Key>)
    requires Consistent(pairs, view) && (forall k :: k in s ==> k in pairs) && (forall k :: k in t ==> k in pairs)
    ensures InfosAt(pairs, view, s) == InfosAt(pairs, view, t) ==> s == t
  {
    hide PairKey;
    if InfosAt(pairs, view, s) == InfosAt(pairs, view, t) {
      assert |s| == |InfosAt(pairs, view, s)| == |t|;
      forall i | 0 <= i < |s| ensures s[i] == t[i] {
        assert s[i] in s && t[i] in t;
        assert InfosAt(pairs, view, s)[i] == view(pairs[s[i]]).value;
        assert InfosAt(pairs, view, t)[i] == view(pairs[t[i]]).value;
      }
    }
  }
}
