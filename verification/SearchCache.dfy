/** The search-result cache (pkg/skills/search_cache.go): expiry, least-recently-used eviction and lookup by
    similarity. */
module SearchCache {
  import opened Options
  import opened Trigrams
  import Text

  const SIMILARITY_THRESHOLD: real := 0.7
  const DEFAULT_ENTRIES := 50
  const DEFAULT_TTL := 300_000

  function NormalizeQuery(q: Bytes): Bytes {
    Text.ToLower(Text.TrimSpace(q))
  }

  datatype Entry<R> = Entry(query: Bytes, trigrams: seq<nat>, results: seq<R>, createdAt: int)

  type Entries<R> = map<Bytes, Entry<R>>

  predicate Live<R>(e: Entry<R>, now: int, ttl: int) {
    now - e.createdAt < ttl
  }

  ghost function Similarity(q: Bytes, k: Bytes): real {
    Jaccard(TrigramSet(q), TrigramSet(k))
  }

  /** Key `k` answers the lookup of `q`: the live exact match, or else a live key of maximal similarity, 0.7 at
      least. */
  ghost predicate Answers<R>(entries: Entries<R>, q: Bytes, k: Bytes, now: int, ttl: int) {
    if q in entries && Live(entries[q], now, ttl) then k == q
    else
      && k in entries && Live(entries[k], now, ttl) && SIMILARITY_THRESHOLD <= Similarity(q, k)
      && forall j <- entries :: Live(entries[j], now, ttl) ==> Similarity(q, j) <= Similarity(q, k)
  }

  /** No live key reaches the threshold. */
  ghost predicate NoAnswer<R>(entries: Entries<R>, q: Bytes, now: int, ttl: int) {
    && (q in entries ==> !Live(entries[q], now, ttl))
    && forall j <- entries :: Live(entries[j], now, ttl) ==> Similarity(q, j) < SIMILARITY_THRESHOLD
  }

  /** The keys after the first occurrence of `key` has been taken out. */
  function TakenOut(order: seq<Bytes>, key: Bytes): seq<Bytes> {
    if order == [] then [] else if order[0] == key then order[1..] else [order[0]] + TakenOut(order[1..], key)
  }

  lemma {:induction false} TakenOutAt(order: seq<Bytes>, key: Bytes, i: nat)
    requires i <= |order| && key !in order[..i] && (i < |order| ==> order[i] == key)
    ensures TakenOut(order, key) == if i < |order| then order[..i] + order[i + 1..] else order
  {
    if 0 < i {
      assert order[0] == order[..i][0];
      assert order[1..][..i - 1] == order[..i][1..];
      TakenOutAt(order[1..], key, i - 1);
    }
  }

  function MovedToEnd(order: seq<Bytes>, key: Bytes): seq<Bytes> {
    TakenOut(order, key) + [key]
  }

  /** The keys of `order` with a live entry. */
  function LiveKeys<R>(entries: Entries<R>, order: seq<Bytes>, now: int, ttl: int): seq<Bytes> {
    if order == [] then []
    else
      var k := order[|order| - 1];
      var before := LiveKeys(entries, order[..|order| - 1], now, ttl);
      if k in entries && Live(entries[k], now, ttl) then before + [k] else before
  }

  function LiveEntries<R>(entries: Entries<R>, now: int, ttl: int): Entries<R> {
    map k | k in entries && Live(entries[k], now, ttl) :: entries[k]
  }

  // ---------------------------------------------------------------- the cache as a value

  datatype Cache<R> = Cache(entries: Entries<R>, order: seq<Bytes>)

  ghost predicate NoDuplicates(order: seq<Bytes>) {
    forall i, j :: 0 <= i < j < |order| ==> order[i] != order[j]
  }

  ghost predicate EntryOk<R>(k: Bytes, e: Entry<R>) {
    e.query == k && Ascending(e.trigrams) && Elements(e.trigrams) == TrigramSet(k)
  }

  /** The order list holds every key once, and every entry is filed under its own query with its own trigrams. */
  ghost predicate Inv<R>(c: Cache<R>) {
    && NoDuplicates(c.order)
    && (forall k :: k in c.order <==> k in c.entries)
    && (forall k <- c.entries :: EntryOk(k, c.entries[k]))
  }

  function Expired<R>(c: Cache<R>, now: int, ttl: int): Cache<R> {
    Cache(LiveEntries(c.entries, now, ttl), LiveKeys(c.entries, c.order, now, ttl))
  }

  function Used<R>(c: Cache<R>, k: Bytes): Cache<R> {
    c.(order := MovedToEnd(c.order, k))
  }

  /** The eviction loop. */
  function Shrunk<R>(c: Cache<R>, max: nat): Cache<R>
    decreases |c.order|
  {
    if max <= |c.entries| && c.order != [] then Shrunk(Cache(c.entries - {c.order[0]}, c.order[1..]), max) else c
  }

  function Stored<R>(c: Cache<R>, e: Entry<R>, now: int, ttl: int, max: nat): Cache<R> {
    var x := Expired(c, now, ttl);
    if e.query in x.entries then Used(x.(entries := x.entries[e.query := e]), e.query)
    else
      var y := Shrunk(x, max);
      Cache(y.entries[e.query := e], y.order + [e.query])
  }

  // ---------------------------------------------------------------- the cache in place

  class SearchCache<R> {
    var entries: Entries<R>
    var order: seq<Bytes>
    const maxEntries: nat
    const ttl: int

    constructor (maxEntries: int, ttl: int)
      ensures this.maxEntries == (if maxEntries <= 0 then 50 else maxEntries) && 0 < this.maxEntries
      ensures this.ttl == (if ttl <= 0 then 300_000 else ttl) && 0 < this.ttl
      ensures Valid() && Value() == Cache(map[], [])
    {
      this.maxEntries := if maxEntries <= 0 then DEFAULT_ENTRIES else maxEntries;
      this.ttl := if ttl <= 0 then DEFAULT_TTL else ttl;
      entries, order := map[], [];
    }

    function Value(): Cache<R>
      reads this
    {
      Cache(entries, order)
    }

    ghost predicate Valid()
      reads this
    {
      Inv(Value()) && |entries| <= maxEntries && 0 < maxEntries
    }

    method MoveToEnd(key: Bytes)
      modifies this`order
      ensures order == MovedToEnd(old(order), key)
    {
      var i := 0;
      while i < |order|
        invariant 0 <= i <= |order|
        invariant order == old(order)
        invariant key !in order[..i]
      {
        if order[i] == key {
          TakenOutAt(order, key, i);
          order := order[..i] + order[i + 1..];
          break;
        }
        i := i + 1;
      }
      if i == |old(order)| {
        TakenOutAt(order, key, i);
      }
      order := order + [key];
    }

    /** Looks `query` up among live entries; on a hit the entry becomes the most recently used. */
    method Get(query: Bytes, now: int) returns (results: Option<seq<R>>, hit: Option<Bytes>)
      requires Valid()
      modifies this`order
      ensures Valid() && entries == old(entries)
      ensures hit.Some? <==> results.Some?
      ensures match hit
              case None => order == old(order) &&
                          (NormalizeQuery(query) == "" || NoAnswer(entries, NormalizeQuery(query), now, ttl))
              case Some(k) =>
                NormalizeQuery(query) != "" && k in entries && results.value == entries[k].results
                && Answers(entries, NormalizeQuery(query), k, now, ttl) && order == MovedToEnd(old(order), k)
    {
      var normalized := NormalizeQuery(query);
      if normalized == "" {
        return None, None;
      }
      if normalized in entries && Live(entries[normalized], now, ttl) {
        UsedInv(Value(), normalized);
        MoveToEnd(normalized);
        return Some(entries[normalized].results), Some(normalized);
      }
      var best, bestSim := BestMatch(normalized, now);
      if bestSim >= SIMILARITY_THRESHOLD && best.Some? {
        UsedInv(Value(), best.value);
        MoveToEnd(entries[best.value].query);
        return Some(entries[best.value].results), best;
      }
      return None, None;
    }

    /** The scan over all entries, in whatever order the map yields them. */
    method BestMatch(query: Bytes, now: int) returns (best: Option<Bytes>, bestSim: real)
      requires Valid()
      ensures best.None? ==> bestSim == 0.0
      ensures best.Some? ==>
                best.value in entries && Live(entries[best.value], now, ttl) && bestSim == Similarity(query, best.value)
      ensures forall k <- entries :: Live(entries[k], now, ttl) ==> Similarity(query, k) <= bestSim
    {
      hide Jaccard, TrigramSet, Ascending, NoDuplicates;
      var queryTrigrams := BuildTrigrams(query);
      best, bestSim := None, 0.0;
      var rest := entries.Keys;
      while rest != {}
        invariant rest <= entries.Keys
        invariant best.None? ==> bestSim == 0.0
        invariant best.Some? ==>
          best.value in entries && Live(entries[best.value], now, ttl) && bestSim == Similarity(query, best.value)
        invariant forall k <- entries :: k !in rest && Live(entries[k], now, ttl) ==> Similarity(query, k) <= bestSim
        decreases rest
      {
        var k :| k in rest;
        rest := rest - {k};
        var entry := entries[k];
        if !Live(entry, now, ttl) {
          continue;
        }
        assert EntryOk(k, entry);
        var sim := JaccardSimilarity(queryTrigrams, entry.trigrams);
        if sim > bestSim {
          bestSim := sim;
          best := Some(k);
        }
      }
    }

    method EvictExpired(now: int)
      requires Valid()
      modifies this
      ensures Value() == Expired(old(Value()), now, ttl)
    {
      var newOrder: seq<Bytes> := [];
      var i := 0;
      while i < |order|
        invariant 0 <= i <= |order|
        invariant order == old(order)
        invariant Cache(entries, newOrder) == Purged(old(entries), order[..i], now, ttl)
      {
        var key := order[i];
        assert order[..i + 1][..i] == order[..i];
        if key !in entries || now - entries[key].createdAt >= ttl {
          entries := entries - {key};
        } else {
          newOrder := newOrder + [key];
        }
        i := i + 1;
      }
      assert order[..i] == order;
      order := newOrder;
      PurgedIsExpired(old(Value()), now, ttl);
    }

    /** Stores `results`: expired entries go first, and at capacity the least recently used one. */
    method Put(query: Bytes, results: seq<R>, now: int)
      requires Valid()
      modifies this
      ensures Valid()
      ensures NormalizeQuery(query) == "" ==> Value() == old(Value())
      ensures NormalizeQuery(query) != "" ==>
                exists e :: EntryOk(NormalizeQuery(query), e) && e.results == results && e.createdAt == now
                         && Value() == Stored(old(Value()), e, now, ttl, maxEntries)
    {
      hide TrigramSet, Ascending, NoDuplicates, Expired, Shrunk, MovedToEnd, Elements;
      var normalized := NormalizeQuery(query);
      if normalized == "" {
        return;
      }
      ghost var before := Value();
      EvictExpired(now);
      ExpiredInv(before, now, ttl);
      ghost var x := Value();
      var trigrams := BuildTrigrams(normalized);
      var e := Entry(normalized, trigrams, results, now);
      assert EntryOk(normalized, e);
      StoredInv(before, e, now, ttl, maxEntries);
      if normalized in entries {
        entries := entries[normalized := e];
        MoveToEnd(normalized);
        return;
      }
      EvictOldest();
      entries := entries[normalized := e];
      order := order + [normalized];
    }

    /** The eviction loop of `Put`. */
    method EvictOldest()
      modifies this
      ensures Value() == Shrunk(old(Value()), maxEntries)
    {
      while |entries| >= maxEntries && |order| > 0
        invariant Shrunk(Value(), maxEntries) == Shrunk(old(Value()), maxEntries)
        decreases |order|
      {
        var oldest := order[0];
        order := order[1..];
        entries := entries - {oldest};
      }
    }
  }

  // ---------------------------------------------------------------- what every operation keeps

  /** What the expiry loop has done after the keys `order`. */
  function Purged<R>(entries: Entries<R>, order: seq<Bytes>, now: int, ttl: int): Cache<R> {
    if order == [] then Cache(entries, [])
    else
      var c, key := Purged(entries, order[..|order| - 1], now, ttl), order[|order| - 1];
      if key !in c.entries || now - c.entries[key].createdAt >= ttl then c.(entries := c.entries - {key})
      else c.(order := c.order + [key])
  }

  lemma {:induction false} PurgedSoFar<R>(entries: Entries<R>, order: seq<Bytes>, now: int, ttl: int)
    requires NoDuplicates(order)
    ensures var c := Purged(entries, order, now, ttl);
            && (forall k :: k in c.entries <==> k in entries && (k in order ==> Live(entries[k], now, ttl)))
            && (forall k <- c.entries :: c.entries[k] == entries[k])
            && c.order == LiveKeys(entries, order, now, ttl)
  {
    if order != [] {
      var front, key := order[..|order| - 1], order[|order| - 1];
      PurgedSoFar(entries, front, now, ttl);
      assert key !in front;
      assert order == front + [key];
    }
  }

  lemma PurgedIsExpired<R>(c: Cache<R>, now: int, ttl: int)
    requires Inv(c)
    ensures Purged(c.entries, c.order, now, ttl) == Expired(c, now, ttl)
  {
    PurgedSoFar(c.entries, c.order, now, ttl);
  }

  lemma {:induction false} LiveKeysAre<R>(entries: Entries<R>, order: seq<Bytes>, now: int, ttl: int)
    requires NoDuplicates(order)
    ensures var r := LiveKeys(entries, order, now, ttl);
            NoDuplicates(r) && forall k :: k in r <==> k in order && k in entries && Live(entries[k], now, ttl)
  {
    if order != [] {
      var front, key := order[..|order| - 1], order[|order| - 1];
      LiveKeysAre(entries, front, now, ttl);
      assert key !in front;
      assert order == front + [key];
    }
  }

  lemma SmallerMap<R>(a: Entries<R>, b: Entries<R>)
    requires a.Keys <= b.Keys
    ensures |a| <= |b|
  {
    assert |a| == |a.Keys| && |b| == |b.Keys|;
    var d := b.Keys - a.Keys;
    assert b.Keys == a.Keys + d;
  }

  lemma ExpiredInv<R>(c: Cache<R>, now: int, ttl: int)
    requires Inv(c)
    ensures Inv(Expired(c, now, ttl)) && |Expired(c, now, ttl).entries| <= |c.entries|
  {
    LiveKeysAre(c.entries, c.order, now, ttl);
    SmallerMap(LiveEntries(c.entries, now, ttl), c.entries);
  }

  lemma {:induction false} TakenOutAre(order: seq<Bytes>, key: Bytes)
    requires NoDuplicates(order)
    ensures NoDuplicates(TakenOut(order, key)) && forall k :: k in TakenOut(order, key) <==> k in order && k != key
  {
    if order != [] {
      assert order == [order[0]] + order[1..];
      if order[0] == key {
        assert key !in order[1..];
      } else {
        TakenOutAre(order[1..], key);
        assert order[0] !in order[1..];
      }
    }
  }

  lemma UsedInv<R>(c: Cache<R>, k: Bytes)
    requires Inv(c) && k in c.entries
    ensures Inv(Used(c, k))
  {
    TakenOutAre(c.order, k);
  }

  lemma {:induction false} OrderSize(order: seq<Bytes>, keys: set<Bytes>)
    requires NoDuplicates(order) && forall k :: k in order <==> k in keys
    ensures |order| == |keys|
  {
    if order != [] {
      var k, rest := order[0], order[1..];
      assert order == [k] + rest;
      assert k !in rest;
      OrderSize(rest, keys - {k});
    }
  }

  lemma InvOrderSize<R>(c: Cache<R>)
    requires Inv(c)
    ensures |c.order| == |c.entries|
  {
    OrderSize(c.order, c.entries.Keys);
  }

  lemma WithoutOldestInv<R>(c: Cache<R>)
    requires Inv(c) && c.order != []
    ensures Inv(Cache(c.entries - {c.order[0]}, c.order[1..]))
  {
    assert c.order == [c.order[0]] + c.order[1..];
  }

  lemma {:induction false} ShrunkInv<R>(c: Cache<R>, max: nat)
    requires Inv(c) && 0 < max
    ensures Inv(Shrunk(c, max)) && |Shrunk(c, max).entries| < max
    ensures Shrunk(c, max).entries.Keys <= c.entries.Keys
    decreases |c.order|
  {
    hide Inv;
    InvOrderSize(c);
    if max <= |c.entries| {
      var k := c.order[0];
      WithoutOldestInv(c);
      ShrunkInv(Cache(c.entries - {k}, c.order[1..]), max);
    }
  }

  /** Storing keeps the invariant and the capacity. */
  lemma StoredInv<R>(c: Cache<R>, e: Entry<R>, now: int, ttl: int, max: nat)
    requires Inv(c) && 0 < max && |c.entries| <= max && EntryOk(e.query, e)
    ensures Inv(Stored(c, e, now, ttl, max)) && |Stored(c, e, now, ttl, max).entries| <= max
  {
    hide TrigramSet, Ascending, Elements, Shrunk, LiveKeys, LiveEntries, TakenOut;
    ExpiredInv(c, now, ttl);
    var x := Expired(c, now, ttl);
    if e.query in x.entries {
      var y := x.(entries := x.entries[e.query := e]);
      UsedInv(y, e.query);
      SmallerMap(y.entries, x.entries);
    } else {
      ShrunkInv(x, max);
      AppendedInv(Shrunk(x, max), e);
    }
  }

  lemma AppendedInv<R>(c: Cache<R>, e: Entry<R>)
    requires Inv(c) && EntryOk(e.query, e) && e.query !in c.entries
    ensures Inv(Cache(c.entries[e.query := e], c.order + [e.query]))
    ensures |c.entries[e.query := e]| == |c.entries| + 1
  {
    assert c.entries[e.query := e].Keys == c.entries.Keys + {e.query};
  }

  // ---------------------------------------------------------------- the cache as a timestamped LRU map

  /** The abstract cache: every key carries the time it was last used. */
  datatype Lru<R> = Lru(entries: Entries<R>, lastUse: map<Bytes, nat>, tick: nat)

  ghost predicate LruOk<R>(l: Lru<R>) {
    l.lastUse.Keys == l.entries.Keys && forall k <- l.lastUse :: l.lastUse[k] < l.tick
  }

  function Touched<R>(l: Lru<R>, k: Bytes): Lru<R> {
    Lru(l.entries, l.lastUse[k := l.tick], l.tick + 1)
  }

  function Filed<R>(l: Lru<R>, e: Entry<R>): Lru<R> {
    Touched(l.(entries := l.entries[e.query := e]), e.query)
  }

  function Kept<R>(l: Lru<R>, keys: set<Bytes>): Lru<R> {
    l.(entries := map k | k in l.entries && k in keys :: l.entries[k],
       lastUse := map k | k in l.lastUse && k in keys :: l.lastUse[k])
  }

  /** `k` is the key unused for longest. */
  ghost predicate LeastRecent<R>(l: Lru<R>, k: Bytes) {
    k in l.lastUse && forall j <- l.lastUse :: j != k ==> l.lastUse[k] < l.lastUse[j]
  }

  datatype Op<R> = Hit(key: Bytes) | Store(entry: Entry<R>, now: int)

  /** The abstract operation: a hit is a use; storing drops expired entries, and at capacity makes room by
      dropping the one least recently used key. */
  ghost predicate LruStep<R>(l: Lru<R>, op: Op<R>, ttl: int, max: nat, l': Lru<R>) {
    match op
    case Hit(k) => l' == if k in l.entries then Touched(l, k) else l
    case Store(e, now) =>
      var x := Kept(l, LiveEntries(l.entries, now, ttl).Keys);
      if e.query in x.entries || |x.entries| < max then l' == Filed(x, e)
      else exists v :: LeastRecent(x, v) && l' == Filed(Kept(x, x.entries.Keys - {v}), e)
  }

  function CacheStep<R>(c: Cache<R>, op: Op<R>, ttl: int, max: nat): Cache<R> {
    match op
    case Hit(k) => if k in c.entries then Used(c, k) else c
    case Store(e, now) => Stored(c, e, now, ttl, max)
  }

  /** The order list is the keys by last use. */
  ghost predicate Represents<R>(c: Cache<R>, l: Lru<R>) {
    && Inv(c) && LruOk(l) && c.entries == l.entries
    && ByUse(c.order, l.lastUse)
  }

  ghost predicate ByUse(order: seq<Bytes>, lastUse: map<Bytes, nat>) {
    && (forall k <- order :: k in lastUse)
    && forall i, j :: 0 <= i < j < |order| ==> lastUse[order[i]] < lastUse[order[j]]
  }

  lemma {:induction false} TakenOutByUse(order: seq<Bytes>, key: Bytes, lastUse: map<Bytes, nat>)
    requires NoDuplicates(order) && ByUse(order, lastUse)
    ensures ByUse(TakenOut(order, key), lastUse)
  {
    if order != [] && order[0] != key {
      var first, rest := order[0], order[1..];
      assert order == [first] + rest;
      assert NoDuplicates(rest) && ByUse(rest, lastUse) && UsedBefore(first, rest, lastUse);
      hide NoDuplicates, ByUse;
      TakenOutByUse(rest, key, lastUse);
      TakenOutAre(rest, key);
      PrependByUse(first, TakenOut(rest, key), rest, lastUse);
    } else if order != [] {
      assert ByUse(order[1..], lastUse);
    }
  }

  ghost predicate UsedBefore(first: Bytes, rest: seq<Bytes>, lastUse: map<Bytes, nat>) {
    first in lastUse && forall k <- rest :: k in lastUse && lastUse[first] < lastUse[k]
  }

  lemma PrependByUse(first: Bytes, r: seq<Bytes>, rest: seq<Bytes>, lastUse: map<Bytes, nat>)
    requires ByUse(r, lastUse) && UsedBefore(first, rest, lastUse) && forall k <- r :: k in rest
    ensures ByUse([first] + r, lastUse)
  {
    forall j | 0 <= j < |r| ensures lastUse[first] < lastUse[r[j]] {
      assert r[j] in rest;
    }
  }

  lemma UseRefines<R>(c: Cache<R>, l: Lru<R>, k: Bytes)
    requires Represents(c, l) && k in c.entries
    ensures Represents(Used(c, k), Touched(l, k))
  {
    hide EntryOk;
    UsedInv(c, k);
    TakenOutAre(c.order, k);
    TakenOutByUse(c.order, k, l.lastUse);
    AppendByUse(TakenOut(c.order, k), l, k);
  }

  /** A key used now goes behind keys used earlier. */
  lemma AppendByUse<R>(order: seq<Bytes>, l: Lru<R>, k: Bytes)
    requires ByUse(order, l.lastUse) && k !in order && LruOk(l)
    ensures ByUse(order + [k], Touched(l, k).lastUse)
  {
  }

  lemma {:induction false} LiveKeysByUse<R>(c: Cache<R>, order: seq<Bytes>, now: int, ttl: int,
                                            lastUse: map<Bytes, nat>)
    requires NoDuplicates(order) && ByUse(order, lastUse)
    ensures ByUse(LiveKeys(c.entries, order, now, ttl), lastUse)
  {
    if order != [] {
      var front, key := order[..|order| - 1], order[|order| - 1];
      LiveKeysAre(c.entries, front, now, ttl);
      LiveKeysByUse(c, front, now, ttl, lastUse);
      var r := LiveKeys(c.entries, front, now, ttl);
      forall j | 0 <= j < |r| ensures lastUse[r[j]] < lastUse[key] {
        assert r[j] in front;
        var i :| 0 <= i < |front| && front[i] == r[j];
      }
    }
  }

  lemma ExpiryRefines<R>(c: Cache<R>, l: Lru<R>, now: int, ttl: int)
    requires Represents(c, l)
    ensures |Expired(c, now, ttl).entries| <= |c.entries|
    ensures Represents(Expired(c, now, ttl), Kept(l, LiveEntries(l.entries, now, ttl).Keys))
  {
    hide EntryOk, LiveKeys;
    ExpiredInv(c, now, ttl);
    LiveKeysByUse(c, c.order, now, ttl, l.lastUse);
    KeptLive(l, now, ttl);
    KeptByUse(l, LiveEntries(l.entries, now, ttl).Keys, Expired(c, now, ttl).order);
  }

  lemma KeptLive<R>(l: Lru<R>, now: int, ttl: int)
    requires LruOk(l)
    ensures var x := Kept(l, LiveEntries(l.entries, now, ttl).Keys);
            LruOk(x) && x.entries == LiveEntries(l.entries, now, ttl)
  {
  }

  lemma KeptByUse<R>(l: Lru<R>, keys: set<Bytes>, order: seq<Bytes>)
    requires ByUse(order, l.lastUse) && forall k <- order :: k in keys
    ensures ByUse(order, Kept(l, keys).lastUse)
  {
  }

  /** The head of the order list is the least recently used key, and dropping it is dropping that key. */
  lemma EvictionRefines<R>(c: Cache<R>, l: Lru<R>)
    requires Represents(c, l) && c.order != []
    ensures LeastRecent(l, c.order[0])
    ensures Represents(Cache(c.entries - {c.order[0]}, c.order[1..]), Kept(l, l.entries.Keys - {c.order[0]}))
  {
    var v := c.order[0];
    WithoutOldestInv(c);
    forall j | j in l.lastUse && j != v ensures l.lastUse[v] < l.lastUse[j] {
      assert j in c.order;
    }
    assert c.entries - {v} == Kept(l, l.entries.Keys - {v}).entries;
  }

  lemma FilingRefines<R>(c: Cache<R>, l: Lru<R>, e: Entry<R>)
    requires Represents(c, l) && EntryOk(e.query, e) && e.query !in c.entries
    ensures Represents(Cache(c.entries[e.query := e], c.order + [e.query]), Filed(l, e))
  {
    AppendedInv(c, e);
    AppendByUse(c.order, l, e.query);
  }

  /** At capacity the eviction loop drops exactly the head of the order list. */
  lemma ShrinkOnce<R>(c: Cache<R>, max: nat)
    requires Inv(c) && 0 < max && |c.entries| <= max
    ensures Shrunk(c, max) == if |c.entries| < max then c else Cache(c.entries - {c.order[0]}, c.order[1..])
    ensures |c.entries| == max ==> c.order != []
  {
    InvOrderSize(c);
    if |c.entries| == max {
      var d := Cache(c.entries - {c.order[0]}, c.order[1..]);
      assert |d.entries| < max by {
        WithoutOldestInv(c);
        InvOrderSize(d);
      }
      assert Shrunk(d, max) == d;
    }
  }

  lemma StoreRefines<R>(c: Cache<R>, l: Lru<R>, e: Entry<R>, now: int, ttl: int, max: nat) returns (l': Lru<R>)
    requires Represents(c, l) && 0 < max && |c.entries| <= max && EntryOk(e.query, e)
    ensures Represents(Stored(c, e, now, ttl, max), l') && LruStep(l, Store(e, now), ttl, max, l')
  {
    hide EntryOk, Expired, Shrunk, Represents, LiveEntries, MovedToEnd;
    ExpiryRefines(c, l, now, ttl);
    var x, y := Expired(c, now, ttl), Kept(l, LiveEntries(l.entries, now, ttl).Keys);
    RepresentsEntries(x, y);
    if e.query in x.entries {
      l' := Filed(y, e);
      RefiledRefines(x, y, e);
    } else {
      ShrinkOnce(x, max);
      if |x.entries| < max {
        l' := Filed(y, e);
        FilingRefines(x, y, e);
      } else {
        var v := x.order[0];
        EvictionRefines(x, y);
        var z := Kept(y, y.entries.Keys - {v});
        l' := Filed(z, e);
        FilingRefines(Cache(x.entries - {v}, x.order[1..]), z, e);
      }
    }
  }

  lemma RepresentsEntries<R>(c: Cache<R>, l: Lru<R>)
    requires Represents(c, l)
    ensures c.entries == l.entries && Inv(c)
  {
  }

  lemma RefiledRefines<R>(c: Cache<R>, l: Lru<R>, e: Entry<R>)
    requires Represents(c, l) && EntryOk(e.query, e) && e.query in c.entries
    ensures Represents(Used(c.(entries := c.entries[e.query := e]), e.query), Filed(l, e))
  {
    var c', l' := c.(entries := c.entries[e.query := e]), l.(entries := l.entries[e.query := e]);
    assert c'.entries.Keys == c.entries.Keys;
    assert Represents(c', l');
    UseRefines(c', l', e.query);
  }

  // ---------------------------------------------------------------- whole histories

  ghost predicate ProperOp<R>(op: Op<R>) {
    op.Store? ==> EntryOk(op.entry.query, op.entry)
  }

  function CacheSteps<R>(ops: seq<Op<R>>, ttl: int, max: nat): Cache<R> {
    if ops == [] then Cache(map[], [])
    else CacheStep(CacheSteps(ops[..|ops| - 1], ttl, max), ops[|ops| - 1], ttl, max)
  }

  /** A run of the abstract cache through the operations, from empty. */
  ghost predicate LruRun<R>(ls: seq<Lru<R>>, ops: seq<Op<R>>, ttl: int, max: nat) {
    && |ls| == |ops| + 1 && ls[0] == Lru(map[], map[], 0)
    && forall i :: 0 <= i < |ops| ==> LruStep(ls[i], ops[i], ttl, max, ls[i + 1])
  }

  /** After any sequence of hits and stores the cache represents what the timestamped map does in the same
      operations: its order list is duplicate-free, holds exactly the keys, and is sorted by last use; it
      never exceeds its capacity. */
  lemma {:induction false} HistoryRefines<R>(ops: seq<Op<R>>, ttl: int, max: nat) returns (ls: seq<Lru<R>>)
    requires 0 < max && forall i :: 0 <= i < |ops| ==> ProperOp(ops[i])
    ensures LruRun(ls, ops, ttl, max) && Represents(CacheSteps(ops, ttl, max), ls[|ops|])
    ensures |CacheSteps(ops, ttl, max).entries| <= max
  {
    hide Represents, LruStep, Stored, Used, EntryOk;
    if ops == [] {
      ls := [Lru(map[], map[], 0)];
      EmptyRepresents<R>();
    } else {
      var before, op := ops[..|ops| - 1], ops[|ops| - 1];
      var ms := HistoryRefines(before, ttl, max);
      var c := CacheSteps(before, ttl, max);
      var l := StepRefines(c, ms[|before|], op, ttl, max);
      ls := ms + [l];
    }
  }

  lemma EmptyRepresents<R>()
    ensures Represents<R>(Cache(map[], []), Lru(map[], map[], 0))
  {
  }

  lemma StepRefines<R>(c: Cache<R>, m: Lru<R>, op: Op<R>, ttl: int, max: nat) returns (l: Lru<R>)
    requires Represents(c, m) && 0 < max && |c.entries| <= max && ProperOp(op)
    ensures LruStep(m, op, ttl, max, l) && Represents(CacheStep(c, op, ttl, max), l)
    ensures |CacheStep(c, op, ttl, max).entries| <= max
  {
    hide Represents, Stored, EntryOk;
    RepresentsEntries(c, m);
    match op
    case Hit(k) =>
      if k in c.entries {
        UseRefines(c, m, k);
        l := Touched(m, k);
      } else {
        l := m;
      }
    case Store(e, now) =>
      StoredInv(c, e, now, ttl, max);
      l := StoreRefines(c, m, e, now, ttl, max);
  }

  /** The cache answers with the results of a query that has no trigram in common exactly when neither query has
      any: both are shorter than 3 bytes, and the similarity of empty sets is 1. */
  lemma ShortQueriesAlike(q: Bytes, k: Bytes)
    ensures SIMILARITY_THRESHOLD <= Similarity(q, k) && TrigramSet(q) !! TrigramSet(k) <==> |q| < 3 && |k| < 3
  {
    var a, b := TrigramSet(q), TrigramSet(k);
    NoTrigrams(q);
    NoTrigrams(k);
    if a !! b && (a != {} || b != {}) {
      assert a * b == {};
      UnionSize(a, b);
    }
  }

  lemma NoTrigrams(q: Bytes)
    ensures TrigramSet(q) == {} <==> |q| < 3
  {
    if 3 <= |q| {
      assert Code(q, 0) in TrigramSet(q);
    }
  }

  // ---------------------------------------------------------------- what a caller sees

  /** Two queries have one entry exactly when they are equal but for whitespace around them and the case of letters. */
  lemma AlikeShareEntry(q: Bytes, k: Bytes)
    ensures NormalizeQuery(q) == NormalizeQuery(k) <==> Text.Alike(q, k)
  {
    Text.NormalFormsAlike(q, k);
  }

  /** Two queries are similar enough exactly when seven tenths of the trigrams of either are trigrams of both. */
  lemma SevenTenths(q: Bytes, k: Bytes)
    ensures SIMILARITY_THRESHOLD <= Similarity(q, k) <==>
              7 * |TrigramSet(q) + TrigramSet(k)| <= 10 * |TrigramSet(q) * TrigramSet(k)|
  {
    var a, b := TrigramSet(q), TrigramSet(k);
    if a == {} && b == {} {
      assert a + b == {} && a * b == {};
    } else {
      UnionSize(a, b);
      ShareOfTenths(|a * b|, |a + b|);
    }
  }

  /** What a hit and a miss mean, in numbers of common trigrams and of all trigrams of two queries. A hit is live and is
      the query itself if that is stored and live; else the two have seven tenths in common, and no live key has a
      greater share in common with the query. After a miss no live key has seven tenths. */
  lemma AnswersMean<R>(entries: Entries<R>, q: Bytes, k: Bytes, j: Bytes, now: int, ttl: int)
    requires j in entries && now < entries[j].createdAt + ttl
    ensures NoAnswer(entries, q, now, ttl) ==>
              j != q && 10 * |TrigramSet(q) * TrigramSet(j)| < 7 * |TrigramSet(q) + TrigramSet(j)|
    ensures Answers(entries, q, k, now, ttl) && j == q ==> k == q
    ensures Answers(entries, q, k, now, ttl) && k != q ==>
              && k in entries && now < entries[k].createdAt + ttl
              && 7 * |TrigramSet(q) + TrigramSet(k)| <= 10 * |TrigramSet(q) * TrigramSet(k)|
              && |TrigramSet(q) * TrigramSet(j)| * |TrigramSet(q) + TrigramSet(k)| <=
                   |TrigramSet(q) * TrigramSet(k)| * |TrigramSet(q) + TrigramSet(j)|
  {
    SevenTenths(q, j);
    SevenTenths(q, k);
    hide Similarity;
    if Answers(entries, q, k, now, ttl) && k != q && Live(entries[j], now, ttl) {
      SimilarityOrders(q, j, k);
    }
  }

  lemma SimilarityOrders(q: Bytes, j: Bytes, k: Bytes)
    requires Similarity(q, j) <= Similarity(q, k)
    ensures |TrigramSet(q) * TrigramSet(j)| * |TrigramSet(q) + TrigramSet(k)| <=
              |TrigramSet(q) * TrigramSet(k)| * |TrigramSet(q) + TrigramSet(j)|
  {
    var a, b, c := TrigramSet(q), TrigramSet(j), TrigramSet(k);
    UnionSize(a, b);
    UnionSize(a, c);
    if (a != {} || b != {}) && (a != {} || c != {}) {
      SharesOrder(|a * b|, |a + b|, |a * c|, |a + c|);
    }
  }

  lemma SharesOrder(m: nat, n: nat, x: nat, y: nat)
    requires 0 < n && 0 < y && Share(m, n) <= Share(x, y)
    ensures m * y <= x * n
  {
    var s, t := Share(m, n), Share(x, y);
    assert s * n as real == m as real && t * y as real == x as real;
    TimesGrows(s, (n * y) as real, t);
  }

  lemma ShareOfTenths(m: nat, n: nat)
    requires 0 < n
    ensures 0.7 <= Share(m, n) <==> 7 * n <= 10 * m
  {
    var x := Share(m, n);
    assert x * n as real == m as real;
    TimesGrows(0.7, n as real, x);
    TimesGrows(x, n as real, 0.7);
  }

  /** What was stored is what is found: less than the lifetime later, any query alike is answered with the results
      stored, and with no others; from the lifetime on the entry answers no more. */
  lemma StoredIsFound<R>(c: Cache<R>, q: Bytes, e: Entry<R>, ttl: int, max: nat, k: Bytes, key: Bytes, t: int)
    requires Inv(c) && 0 < max && EntryOk(NormalizeQuery(q), e) && Text.Alike(q, k)
    ensures var entries := Stored(c, e, e.createdAt, ttl, max).entries; var n := NormalizeQuery(k);
            && n in entries && entries[n].results == e.results
            && (t < e.createdAt + ttl ==>
                  (Answers(entries, n, key, t, ttl) <==> key == n) && !NoAnswer(entries, n, t, ttl))
            && (e.createdAt + ttl <= t ==> !Answers(entries, key, n, t, ttl))
  {
    AlikeShareEntry(q, k);
    hide NormalizeQuery, Similarity, Text.Alike, Shrunk, Expired, TakenOut;
  }
}
