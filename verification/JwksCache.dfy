/** The bounded key cache: least recently touched key ids go first, refreshes merge what was published. */
module JwksCache {
  import opened Basics

  const MAX_KIDS: nat := 10

  /** One published key; an entry without a key id has the empty one. */
  datatype Jwk<+K> = Jwk(kid: string, key: K)

  // ----- Order of last touch -----

  function Without(kids: seq<string>, kid: string): seq<string> {
    if kids == [] then []
    else if kids[0] == kid then kids[1..]
    else [kids[0]] + Without(kids[1..], kid)
  }

  function MoveToEnd(kids: seq<string>, kid: string): seq<string> {
    Without(kids, kid) + [kid]
  }

  /** All key ids of a history of touches, the most recently touched last. */
  function Recency(touched: seq<string>): seq<string> {
    if touched == [] then [] else MoveToEnd(Recency(touched[..|touched| - 1]), touched[|touched| - 1])
  }

  function Newest(kids: seq<string>): seq<string> {
    if |kids| <= MAX_KIDS then kids else kids[|kids| - MAX_KIDS..]
  }

  // ----- A published document as a dict -----

  function DictOrder<K>(jwks: seq<Jwk<K>>): seq<string> {
    if jwks == [] then []
    else
      var earlier, kid := DictOrder(jwks[..|jwks| - 1]), jwks[|jwks| - 1].kid;
      if kid == "" || kid in earlier then earlier else earlier + [kid]
  }

  function DictValues<K>(jwks: seq<Jwk<K>>): map<string, K> {
    if jwks == [] then map[]
    else
      var earlier, last := DictValues(jwks[..|jwks| - 1]), jwks[|jwks| - 1];
      if last.kid == "" then earlier else earlier[last.kid := last.key]
  }

  lemma {:induction false} DictOrderIs<K>(jwks: seq<Jwk<K>>)
    ensures Distinct(DictOrder(jwks))
    ensures forall k :: k in DictOrder(jwks) <==> k in DictValues(jwks)
  {
    if jwks != [] {
      DictOrderIs(jwks[..|jwks| - 1]);
    }
  }

  ghost predicate LastListed<K>(jwks: seq<Jwk<K>>, k: string, n: nat) {
    n < |jwks| && jwks[n].kid == k && forall m :: n < m < |jwks| ==> jwks[m].kid != k
  }

  /** A document's dict: the non-empty key ids it lists, each with the key of its last entry. */
  lemma {:induction false} DictMeaning<K>(jwks: seq<Jwk<K>>, k: string)
    ensures k in DictOrder(jwks) <==> k != "" && exists n :: 0 <= n < |jwks| && jwks[n].kid == k
    ensures k in DictOrder(jwks) ==>
      k in DictValues(jwks) && exists n: nat :: LastListed(jwks, k, n) && DictValues(jwks)[k] == jwks[n].key
  {
    DictOrderIs(jwks);
    if jwks != [] {
      var earlier, last := jwks[..|jwks| - 1], |jwks| - 1;
      DictMeaning(earlier, k);
      if k != "" && jwks[last].kid == k {
        assert LastListed(jwks, k, last);
      } else if k in DictOrder(earlier) {
        var n: nat :| LastListed(earlier, k, n) && DictValues(earlier)[k] == earlier[n].key;
        assert LastListed(jwks, k, n);
      }
      assert forall n :: 0 <= n < last ==> jwks[n] == earlier[n];
    }
  }

  /** Where a key id is first listed; past the end if it is not. */
  function FirstListed<K>(jwks: seq<Jwk<K>>, k: string): nat {
    if jwks == [] || jwks[0].kid == k then 0 else 1 + FirstListed(jwks[1..], k)
  }

  lemma {:induction false} FirstListedSnoc<K>(jwks: seq<Jwk<K>>, last: Jwk<K>, k: string)
    ensures FirstListed(jwks, k) < |jwks| ==> FirstListed(jwks + [last], k) == FirstListed(jwks, k)
    ensures FirstListed(jwks, k) >= |jwks| ==> FirstListed(jwks, k) == |jwks| <= FirstListed(jwks + [last], k)
    ensures FirstListed(jwks, k) < |jwks| <==> exists n :: 0 <= n < |jwks| && jwks[n].kid == k
  {
    if jwks != [] {
      assert (jwks + [last])[1..] == jwks[1..] + [last];
      FirstListedSnoc(jwks[1..], last, k);
      assert forall n :: 0 < n < |jwks| ==> jwks[n] == jwks[1..][n - 1];
      if FirstListed(jwks[1..], k) < |jwks[1..]| {
        var n :| 0 <= n < |jwks[1..]| && jwks[1..][n].kid == k;
        assert jwks[n + 1].kid == k;
      }
    }
  }

  /** The dict lists key ids in the order of their first entries. */
  lemma {:induction false} DictInOrder<K>(jwks: seq<Jwk<K>>)
    ensures var kids := DictOrder(jwks);
      forall i, j :: 0 <= i < j < |kids| ==> FirstListed(jwks, kids[i]) < FirstListed(jwks, kids[j])
  {
    if jwks != [] {
      var earlier, last := jwks[..|jwks| - 1], jwks[|jwks| - 1];
      var kids := DictOrder(jwks);
      DictInOrder(earlier);
      assert jwks == earlier + [last];
      forall i, j | 0 <= i < j < |kids|
        ensures FirstListed(jwks, kids[i]) < FirstListed(jwks, kids[j])
      {
        DictMeaning(earlier, kids[i]);
        DictMeaning(earlier, kids[j]);
        FirstListedSnoc(earlier, last, kids[i]);
        FirstListedSnoc(earlier, last, kids[j]);
      }
    }
  }

  ghost function ListedIds<K>(jwks: seq<Jwk<K>>): set<string> {
    set e | e in jwks && e.kid != "" :: e.kid
  }

  lemma IsListed<K>(jwks: seq<Jwk<K>>, k: string)
    ensures k in ListedIds(jwks) <==> k in DictOrder(jwks)
  {
    DictMeaning(jwks, k);
    if n :| 0 <= n < |jwks| && jwks[n].kid == k {
      assert jwks[n] in jwks;
    }
  }

  lemma {:induction false} DictSize<K>(jwks: seq<Jwk<K>>)
    ensures |DictOrder(jwks)| == |ListedIds(jwks)|
  {
    if jwks != [] {
      var earlier, last := jwks[..|jwks| - 1], jwks[|jwks| - 1];
      DictSize(earlier);
      assert jwks == earlier + [last];
      assert ListedIds(jwks) == ListedIds(earlier) + if last.kid == "" then {} else {last.kid};
      IsListed(earlier, last.kid);
    }
  }

  // ----- Suffixes of the recency order -----

  /** `order` is the recent end of `all`, and nothing is missing from it below the cap. */
  ghost predicate RecentEnd(all: seq<string>, order: seq<string>) {
    && |order| <= |all| && order == all[|all| - |order|..]
    && (|order| >= MAX_KIDS || order == all)
  }

  lemma DistinctTail(kids: seq<string>)
    requires Distinct(kids) && kids != []
    ensures Distinct(kids[1..]) && kids[0] !in kids[1..]
    ensures forall k :: k in kids <==> k == kids[0] || k in kids[1..]
  {
    assert kids == [kids[0]] + kids[1..];
    forall n | 0 <= n < |kids[1..]|
      ensures kids[1..][n] != kids[0]
    {
      assert kids[0] != kids[n + 1];
    }
  }

  lemma {:induction false} WithoutIs(kids: seq<string>, kid: string)
    requires Distinct(kids)
    ensures Distinct(Without(kids, kid))
    ensures forall k :: k in Without(kids, kid) <==> k in kids && k != kid
    ensures |Without(kids, kid)| == if kid in kids then |kids| - 1 else |kids|
  {
    if kids != [] {
      DistinctTail(kids);
      WithoutIs(kids[1..], kid);
      assert forall n :: 0 <= n < |Without(kids[1..], kid)| ==> Without(kids[1..], kid)[n] in Without(kids[1..], kid);
    }
  }

  lemma ConcatAssociative(first: string, a: seq<string>, b: seq<string>)
    ensures [first] + (a + b) == [first] + a + b
  {
  }

  lemma {:induction false} WithoutConcat(a: seq<string>, b: seq<string>, kid: string)
    ensures Without(a + b, kid) == if kid in a then Without(a, kid) + b else a + Without(b, kid)
  {
    if a == [] {
      assert a + b == b;
    } else {
      var first, rest := a[0], a[1..];
      assert a == [first] + rest;
      ConcatAssociative(first, rest, b);
      if first != kid {
        WithoutConcat(rest, b, kid);
        ConcatAssociative(first, if kid in rest then Without(rest, kid) else rest, if kid in rest then b else Without(b, kid));
      }
    }
  }

  lemma {:induction false} RecencyDistinct(touched: seq<string>)
    ensures Distinct(Recency(touched))
    ensures forall k :: k in Recency(touched) <==> k in touched
  {
    if touched != [] {
      var last := |touched| - 1;
      RecencyDistinct(touched[..last]);
      WithoutIs(Recency(touched[..last]), touched[last]);
      assert touched == touched[..last] + [touched[last]];
      var w := Without(Recency(touched[..last]), touched[last]);
      assert forall n :: 0 <= n < |w| ==> w[n] in w;
    }
  }

  /** Touching a key id keeps the cache order the recent end of the recency order. */
  lemma TouchKeepsRecentEnd(all: seq<string>, order: seq<string>, kid: string)
    requires Distinct(all) && RecentEnd(all, order)
    ensures RecentEnd(MoveToEnd(all, kid), MoveToEnd(order, kid))
  {
    var older := all[..|all| - |order|];
    assert all == older + order;
    WithoutConcat(older, order, kid);
    if kid in older {
      NotInBoth(older, order, kid);
      NothingToRemove(order, kid);
    }
    var rest := if kid in older then Without(older, kid) else older;
    WithoutIs(all, kid);
    if order == all {
      assert older == [];
    } else {
      OrderKeepsSize(order, kid);
    }
  }

  lemma NotInBoth(older: seq<string>, order: seq<string>, kid: string)
    requires Distinct(older + order) && kid in older
    ensures kid !in order
  {
    var m :| 0 <= m < |older| && older[m] == kid;
    forall n | 0 <= n < |order|
      ensures order[n] != kid
    {
      assert (older + order)[m] != (older + order)[|older| + n];
    }
  }

  lemma {:induction false} NothingToRemove(kids: seq<string>, kid: string)
    requires kid !in kids
    ensures Without(kids, kid) == kids
  {
    if kids != [] {
      assert kids == [kids[0]] + kids[1..];
      NothingToRemove(kids[1..], kid);
    }
  }

  lemma {:induction false} OrderKeepsSize(kids: seq<string>, kid: string)
    ensures |MoveToEnd(kids, kid)| >= |kids|
  {
    if kids != [] && kids[0] != kid {
      OrderKeepsSize(kids[1..], kid);
    }
  }

  lemma MoveAcross(older: seq<string>, kids: seq<string>, kid: string) returns (older': seq<string>)
    requires kid !in kids
    ensures MoveToEnd(older + kids, kid) == older' + (kids + [kid])
  {
    WithoutConcat(older, kids, kid);
    NothingToRemove(kids, kid);
    older' := if kid in older then Without(older, kid) else older;
    assert Without(older + kids, kid) == older' + kids;
  }

  /** What was published last is the recent end of every history, whatever came before. */
  lemma {:induction false} RecencyEndsWith(touched: seq<string>, kids: seq<string>) returns (older: seq<string>)
    requires Distinct(kids)
    ensures Recency(touched + kids) == older + kids
  {
    if kids == [] {
      assert touched + kids == touched;
      older := Recency(touched);
    } else {
      var last := |kids| - 1;
      var o := RecencyEndsWith(touched, kids[..last]);
      assert (touched + kids)[..|touched + kids| - 1] == touched + kids[..last];
      older := MoveAcross(o, kids[..last], kids[last]);
      assert kids == kids[..last] + [kids[last]];
    }
  }

  lemma NewestOfConcat(older: seq<string>, kids: seq<string>)
    ensures if |kids| >= MAX_KIDS then Newest(older + kids) == Newest(kids)
      else |Newest(older + kids)| >= |kids| && Newest(older + kids)[|Newest(older + kids)| - |kids|..] == kids
  {
  }

  /** A just-published key stays in the cache exactly when it is among the ten published last. */
  lemma PublishedKeptIff(touched: seq<string>, kids: seq<string>, k: string)
    requires Distinct(kids) && k in kids
    ensures k in Newest(Recency(touched + kids)) <==> k in Newest(kids)
    ensures |kids| <= MAX_KIDS ==> k in Newest(Recency(touched + kids))
  {
    var older := RecencyEndsWith(touched, kids);
    NewestOfConcat(older, kids);
    if |kids| < MAX_KIDS {
      var n :| 0 <= n < |kids| && kids[n] == k;
      assert Newest(older + kids)[|Newest(older + kids)| - |kids| + n] == k;
    }
  }

  // ----- The cache -----

  datatype Contents<K> = Contents(order: seq<string>, keys: map<string, K>)

  function Put<K>(c: Contents<K>, kid: string, key: K): Contents<K> {
    Contents(MoveToEnd(c.order, kid), c.keys[kid := key])
  }

  function PutAll<K>(c: Contents<K>, items: seq<Jwk<K>>): Contents<K> {
    if items == [] then c
    else
      var last := items[|items| - 1];
      Put(PutAll(c, items[..|items| - 1]), last.kid, last.key)
  }

  /** The entries of a dict, in order. */
  function Items<K>(kids: seq<string>, values: map<string, K>): (items: seq<Jwk<K>>)
    requires forall k :: k in kids ==> k in values
    ensures |items| == |kids|
  {
    seq(|kids|, n requires 0 <= n < |kids| => Jwk(kids[n], values[kids[n]]))
  }

  /** Only the ten most recent keys stay. */
  function Trimmed<K>(c: Contents<K>): Contents<K> {
    var excess := if |c.order| > MAX_KIDS then |c.order| - MAX_KIDS else 0;
    Contents(c.order[excess..], c.keys - set k | k in c.order[..excess])
  }

  function Refreshed<K>(c: Contents<K>, jwks: seq<Jwk<K>>): Contents<K> {
    DictOrderIs(jwks);
    Trimmed(PutAll(c, Items(DictOrder(jwks), DictValues(jwks))))
  }

  /** A refresh that is not needed or fails anywhere before the merge changes nothing. */
  function RefreshedIf<K>(c: Contents<K>, needed: bool, fetch: Option<seq<Jwk<K>>>): Contents<K> {
    if needed && fetch.Some? then Refreshed(c, fetch.value) else c
  }

  class Cache<K> {
    const ttl: real
    var order: seq<string>
    var keys: map<string, K>
    var fetchedAt: real

    ghost function Value(): Contents<K>
      reads this
    {
      Contents(order, keys)
    }

    constructor (ttl: real)
      ensures this.ttl == ttl && Value() == Contents([], map[])
    {
      this.ttl := ttl;
      order, keys, fetchedAt := [], map[], 0.0;
    }

    method Merge(kids: seq<string>, values: map<string, K>)
      requires forall k :: k in kids ==> k in values
      modifies this`order, this`keys
      ensures Value() == PutAll(old(Value()), Items(kids, values))
    {
      ghost var items := Items(kids, values);
      for n := 0 to |kids|
        invariant Value() == PutAll(old(Value()), items[..n])
      {
        assert items[..n + 1][..n] == items[..n];
        keys := keys[kids[n] := values[kids[n]]];
        order := MoveToEnd(order, kids[n]);
      }
      assert items[..|kids|] == items;
    }

    /** popitem(last=False) while over the cap */
    method Evict()
      modifies this`order, this`keys
      ensures Value() == Trimmed(old(Value()))
    {
      ghost var dropped := 0;
      while |order| > MAX_KIDS
        invariant dropped <= |old(order)| && order == old(order)[dropped..]
        invariant dropped > 0 ==> |old(order)| - dropped >= MAX_KIDS
        invariant keys == old(keys) - set k | k in old(order)[..dropped]
      {
        assert old(order)[..dropped + 1] == old(order)[..dropped] + [order[0]];
        keys := keys - {order[0]};
        order := order[1..];
        dropped := dropped + 1;
      }
    }

    method Refresh(fetch: Option<seq<Jwk<K>>>, now: real)
      modifies this
      ensures Value() == RefreshedIf(old(Value()), true, fetch)
      ensures fetchedAt == if fetch.Some? then now else old(fetchedAt)
    {
      if fetch.None? {
        return;
      }
      DictOrderIs(fetch.value);
      var kids, values := ReadJwks(fetch.value);
      Merge(kids, values);
      Evict();
      fetchedAt := now;
    }

    /** None stands for the unknown-kid error. */
    method Get(kid: string, now: real, fetch1: Option<seq<Jwk<K>>>, fetch2: Option<seq<Jwk<K>>>)
      returns (key: Option<K>)
      modifies this
      ensures (Value(), key) == Lookup(old(Value()), kid, now - old(fetchedAt) > ttl, fetch1, fetch2)
    {
      if now - fetchedAt > ttl {
        Refresh(fetch1, now);
      }
      if kid !in keys {
        Refresh(fetch2, now);
      }
      if kid !in keys {
        return None;
      }
      order := MoveToEnd(order, kid);
      key := Some(keys[kid]);
    }
  }

  /** A lookup: refresh if expired, refresh once more on a miss, then touch what was found. */
  function Lookup<K>(c: Contents<K>, kid: string, expired: bool, fetch1: Option<seq<Jwk<K>>>, fetch2: Option<seq<Jwk<K>>>)
    : (Contents<K>, Option<K>)
  {
    var c1 := RefreshedIf(c, expired, fetch1);
    var c2 := RefreshedIf(c1, kid !in c1.keys, fetch2);
    if kid in c2.keys then (Contents(MoveToEnd(c2.order, kid), c2.keys), Some(c2.keys[kid])) else (c2, None)
  }

  method ReadJwks<K>(jwks: seq<Jwk<K>>) returns (kids: seq<string>, values: map<string, K>)
    ensures kids == DictOrder(jwks) && values == DictValues(jwks)
  {
    kids, values := [], map[];
    for n := 0 to |jwks|
      invariant kids == DictOrder(jwks[..n]) && values == DictValues(jwks[..n])
    {
      assert jwks[..n + 1][..n] == jwks[..n];
      DictOrderIs(jwks[..n]);
      var kid := jwks[n].kid;
      if kid == "" {
        continue;
      }
      if kid !in values {
        kids := kids + [kid];
      }
      values := values[kid := jwks[n].key];
    }
    assert jwks[..|jwks|] == jwks;
  }

  // ----- The cache against the history of touches and publications -----

  /** Key ids touched so far, oldest first, and the key last published under each id. */
  datatype History<K> = History(touched: seq<string>, latest: map<string, K>)

  function Published<K>(h: History<K>, needed: bool, fetch: Option<seq<Jwk<K>>>): History<K> {
    if needed && fetch.Some? then History(h.touched + DictOrder(fetch.value), h.latest + DictValues(fetch.value)) else h
  }

  function Cached<K>(h: History<K>): seq<string> {
    Newest(Recency(h.touched))
  }

  ghost predicate KeysOf<K>(c: Contents<K>, latest: map<string, K>) {
    && (forall k :: k in c.order <==> k in c.keys)
    && (forall k :: k in c.keys ==> k in latest && c.keys[k] == latest[k])
  }

  /** The cache holds the ten most recently touched key ids, in that order, each with its latest key. */
  ghost predicate Tracks<K>(c: Contents<K>, h: History<K>) {
    c.order == Cached(h) && KeysOf(c, h.latest)
  }

  /** The same before eviction: possibly more than ten keys, never fewer than it could hold. */
  ghost predicate TracksUntrimmed<K>(c: Contents<K>, h: History<K>) {
    RecentEnd(Recency(h.touched), c.order) && KeysOf(c, h.latest)
  }

  lemma EmptyTracks<K>()
    ensures Tracks<K>(Contents([], map[]), History([], map[]))
  {
    assert Recency([]) == [];
  }

  lemma RecencyStep(touched: seq<string>, kid: string)
    ensures Recency(touched + [kid]) == MoveToEnd(Recency(touched), kid)
  {
    assert (touched + [kid])[..|touched|] == touched;
  }

  lemma PutKeys<K>(c: Contents<K>, latest: map<string, K>, kid: string, key: K)
    requires Distinct(c.order) && KeysOf(c, latest)
    ensures KeysOf(Put(c, kid, key), latest[kid := key])
  {
    WithoutIs(c.order, kid);
    assert forall k :: k in MoveToEnd(c.order, kid) <==> k in c.order || k == kid;
  }

  /** The history after a key id was published with a key. */
  function Touched<K>(h: History<K>, kid: string, key: K): History<K> {
    History(h.touched + [kid], h.latest[kid := key])
  }

  lemma PutTracks<K>(c: Contents<K>, h: History<K>, kid: string, key: K, h': History<K>)
    requires TracksUntrimmed(c, h) && h' == Touched(h, kid, key)
    ensures TracksUntrimmed(Put(c, kid, key), h')
  {
    var all := Recency(h.touched);
    RecencyDistinct(h.touched);
    RecencyStep(h.touched, kid);
    TouchKeepsRecentEnd(all, c.order, kid);
    PutKeys(c, h.latest, kid, key);
  }

  ghost function TouchAll<K>(h: History<K>, items: seq<Jwk<K>>): History<K> {
    if items == [] then h
    else
      var last := items[|items| - 1];
      Touched(TouchAll(h, items[..|items| - 1]), last.kid, last.key)
  }

  lemma {:induction false} PutAllTracks<K>(c: Contents<K>, h: History<K>, items: seq<Jwk<K>>)
    requires TracksUntrimmed(c, h)
    ensures TracksUntrimmed(PutAll(c, items), TouchAll(h, items))
  {
    if items != [] {
      var earlier, last := items[..|items| - 1], items[|items| - 1];
      PutAllTracks(c, h, earlier);
      PutTracks(PutAll(c, earlier), TouchAll(h, earlier), last.kid, last.key, TouchAll(h, items));
    }
  }

  lemma {:induction false} TouchedItems<K>(h: History<K>, kids: seq<string>, values: map<string, K>)
    requires forall k :: k in kids ==> k in values
    ensures var h' := TouchAll(h, Items(kids, values));
      && h'.touched == h.touched + kids
      && (forall k :: k in h'.latest <==> k in h.latest || k in kids)
      && (forall k :: k in h'.latest ==> h'.latest[k] == if k in kids then values[k] else h.latest[k])
  {
    if kids != [] {
      var earlier, kid := kids[..|kids| - 1], kids[|kids| - 1];
      assert kids == earlier + [kid];
      TouchedItems(h, earlier, values);
      assert Items(kids, values)[..|kids| - 1] == Items(earlier, values);
    }
  }

  /** Touching every entry of a dict publishes the dict. */
  lemma TouchDict<K>(h: History<K>, kids: seq<string>, values: map<string, K>)
    requires forall k :: k in kids <==> k in values
    ensures TouchAll(h, Items(kids, values)) == History(h.touched + kids, h.latest + values)
  {
    TouchedItems(h, kids, values);
  }

  lemma RecentEndIsNewest(all: seq<string>, order: seq<string>)
    requires RecentEnd(all, order)
    ensures (if |order| > MAX_KIDS then order[|order| - MAX_KIDS..] else order) == Newest(all)
  {
  }

  lemma TrimKeys<K>(c: Contents<K>, latest: map<string, K>)
    requires Distinct(c.order) && KeysOf(c, latest)
    ensures KeysOf(Trimmed(c), latest)
  {
    var excess := if |c.order| > MAX_KIDS then |c.order| - MAX_KIDS else 0;
    assert c.order == c.order[..excess] + c.order[excess..];
    forall k | k in c.order[excess..]
      ensures k !in c.order[..excess]
    {
      var n :| 0 <= n < |c.order| - excess && c.order[excess..][n] == k;
      assert c.order[excess + n] == k;
    }
  }

  lemma TrimTracks<K>(c: Contents<K>, h: History<K>)
    requires TracksUntrimmed(c, h)
    ensures Tracks(Trimmed(c), h)
  {
    var all := Recency(h.touched);
    RecencyDistinct(h.touched);
    RecentEndIsNewest(all, c.order);
    TrimKeys(c, h.latest);
  }

  /** A refresh keeps the cache in step with what was published. */
  lemma RefreshTracks<K>(c: Contents<K>, h: History<K>, needed: bool, fetch: Option<seq<Jwk<K>>>)
    requires Tracks(c, h)
    ensures Tracks(RefreshedIf(c, needed, fetch), Published(h, needed, fetch))
  {
    if needed && fetch.Some? {
      var kids, values := DictOrder(fetch.value), DictValues(fetch.value);
      DictOrderIs(fetch.value);
      PutAllTracks(c, h, Items(kids, values));
      TouchDict(h, kids, values);
      TrimTracks(PutAll(c, Items(kids, values)), Published(h, needed, fetch));
    }
  }

  lemma TouchTracks<K>(c: Contents<K>, h: History<K>, kid: string)
    requires Tracks(c, h) && kid in c.keys
    ensures Tracks(Contents(MoveToEnd(c.order, kid), c.keys), h.(touched := h.touched + [kid]))
  {
    var all := Recency(h.touched);
    RecencyDistinct(h.touched);
    TouchKeepsSize(all, c.order, kid);
    TouchKeepsRecentEnd(all, c.order, kid);
    RecentEndIsNewest(MoveToEnd(all, kid), MoveToEnd(c.order, kid));
    RecencyStep(h.touched, kid);
  }

  lemma TouchKeepsSize(all: seq<string>, order: seq<string>, kid: string)
    requires Distinct(all) && RecentEnd(all, order) && kid in order
    ensures |MoveToEnd(order, kid)| == |order| && forall k :: k in MoveToEnd(order, kid) <==> k in order
  {
    MoveToEndIs(all, order, kid);
  }

  /**
   A lookup answers exactly the key ids the history caches at that point, with the
   key last published under the id, and the cache stays in step.
   */
  lemma LookupTracks<K>(c: Contents<K>, h: History<K>, kid: string, expired: bool,
                        fetch1: Option<seq<Jwk<K>>>, fetch2: Option<seq<Jwk<K>>>)
    requires Tracks(c, h)
    ensures var (c', key) := Lookup(c, kid, expired, fetch1, fetch2);
      var h1 := Published(h, expired, fetch1);
      var h2 := Published(h1, kid !in Cached(h1), fetch2);
      && (key.Some? <==> kid in Cached(h2))
      && (key.Some? ==> kid in h2.latest && key.value == h2.latest[kid])
      && Tracks(c', if key.Some? then h2.(touched := h2.touched + [kid]) else h2)
  {
    RefreshTracks(c, h, expired, fetch1);
    var c1, h1 := RefreshedIf(c, expired, fetch1), Published(h, expired, fetch1);
    RefreshTracks(c1, h1, kid !in c1.keys, fetch2);
    var c2 := RefreshedIf(c1, kid !in c1.keys, fetch2);
    if kid in c2.keys {
      TouchTracks(c2, Published(h1, kid !in c1.keys, fetch2), kid);
    }
  }

  // ----- Any sequence of refreshes and lookups -----

  datatype Operation<K> =
    | Reload(fetch: Option<seq<Jwk<K>>>)
    | Find(kid: string, expired: bool, fetch1: Option<seq<Jwk<K>>>, fetch2: Option<seq<Jwk<K>>>)

  function After<K>(c: Contents<K>, op: Operation<K>): Contents<K> {
    match op
    case Reload(fetch) => RefreshedIf(c, true, fetch)
    case Find(kid, expired, fetch1, fetch2) => Lookup(c, kid, expired, fetch1, fetch2).0
  }

  /** What a lookup publishes before it answers: an aged cache is refreshed, and a missing id asked for once. */
  function Asked<K>(h: History<K>, kid: string, expired: bool, fetch1: Option<seq<Jwk<K>>>, fetch2: Option<seq<Jwk<K>>>)
    : History<K>
  {
    var h1 := Published(h, expired, fetch1);
    Published(h1, kid !in Cached(h1), fetch2)
  }

  function Recorded<K>(h: History<K>, op: Operation<K>): History<K> {
    match op
    case Reload(fetch) => Published(h, true, fetch)
    case Find(kid, expired, fetch1, fetch2) =>
      var h' := Asked(h, kid, expired, fetch1, fetch2);
      if kid in Cached(h') then h'.(touched := h'.touched + [kid]) else h'
  }

  function AfterAll<K>(ops: seq<Operation<K>>): Contents<K> {
    if ops == [] then Contents([], map[]) else After(AfterAll(ops[..|ops| - 1]), ops[|ops| - 1])
  }

  function HistoryOf<K>(ops: seq<Operation<K>>): History<K> {
    if ops == [] then History([], map[]) else Recorded(HistoryOf(ops[..|ops| - 1]), ops[|ops| - 1])
  }

  /** After any sequence of refreshes and lookups on a new cache, it is what the history says. */
  lemma {:induction false} EveryRunTracks<K>(ops: seq<Operation<K>>)
    ensures Tracks(AfterAll(ops), HistoryOf(ops)) && |AfterAll(ops).order| <= 10
  {
    if ops == [] {
      EmptyTracks<K>();
    } else {
      var c, h := AfterAll(ops[..|ops| - 1]), HistoryOf(ops[..|ops| - 1]);
      EveryRunTracks(ops[..|ops| - 1]);
      match ops[|ops| - 1]
      case Reload(fetch) => RefreshTracks(c, h, true, fetch);
      case Find(kid, expired, fetch1, fetch2) => LookupTracks(c, h, kid, expired, fetch1, fetch2);
    }
  }

  /** So every lookup of every run answers exactly the ten ids touched last, with the key published last. */
  lemma EveryRunAnswers<K>(ops: seq<Operation<K>>, kid: string, expired: bool,
                           fetch1: Option<seq<Jwk<K>>>, fetch2: Option<seq<Jwk<K>>>)
    ensures var key, h := Lookup(AfterAll(ops), kid, expired, fetch1, fetch2).1, Asked(HistoryOf(ops), kid, expired, fetch1, fetch2);
      && (key.Some? <==> kid in Cached(h))
      && (key.Some? ==> kid in h.latest && key.value == h.latest[kid])
  {
    EveryRunTracks(ops);
    LookupTracks(AfterAll(ops), HistoryOf(ops), kid, expired, fetch1, fetch2);
  }

  lemma MoveToEndIs(all: seq<string>, order: seq<string>, kid: string)
    requires Distinct(all) && RecentEnd(all, order)
    ensures Distinct(order)
    ensures forall k :: k in MoveToEnd(order, kid) <==> k in order || k == kid
    ensures |MoveToEnd(order, kid)| == if kid in order then |order| else |order| + 1
  {
    WithoutIs(order, kid);
  }

  /**
   After any run: once a refresh has read a document that lists at most ten ids, a
   lookup of a listed id answers the key of its last entry.
   */
  lemma JustPublishedAnswers<K>(ops: seq<Operation<K>>, jwks: seq<Jwk<K>>, k: string, n: nat)
    requires |ListedIds(jwks)| <= 10 && k != "" && LastListed(jwks, k, n)
    ensures Lookup(AfterAll(ops + [Reload(Some(jwks))]), k, false, None, None).1 == Some(jwks[n].key)
  {
    var all := ops + [Reload(Some(jwks))];
    assert all[..|ops|] == ops;
    EveryRunAnswers(all, k, false, None, None);
    ListedIsPublished(HistoryOf(ops), jwks, k, n);
  }

  lemma ListedIsPublished<K>(h: History<K>, jwks: seq<Jwk<K>>, k: string, n: nat)
    requires |ListedIds(jwks)| <= 10 && k != "" && LastListed(jwks, k, n)
    ensures var h' := Published(h, true, Some(jwks)); k in Cached(h') && k in h'.latest && h'.latest[k] == jwks[n].key
  {
    DictMeaning(jwks, k);
    DictSize(jwks);
    DictOrderIs(jwks);
    PublishedKeptIff(h.touched, DictOrder(jwks), k);
  }

  /** An unknown id is found by the one refresh a lookup makes for it, when the document lists it. */
  lemma MissFindsPublished<K>(ops: seq<Operation<K>>, jwks: seq<Jwk<K>>, k: string, n: nat)
    requires k !in AfterAll(ops).keys
    requires |ListedIds(jwks)| <= 10 && k != "" && LastListed(jwks, k, n)
    ensures Lookup(AfterAll(ops), k, false, None, Some(jwks)).1 == Some(jwks[n].key)
  {
    EveryRunTracks(ops);
    EveryRunAnswers(ops, k, false, None, Some(jwks));
    ListedIsPublished(HistoryOf(ops), jwks, k, n);
  }
}
