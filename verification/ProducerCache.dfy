/**
 * The bounded cache of output buffers. When it outgrows the queue size, buffers that were
 * already handed to the surface are dropped, oldest hand-over first. The order comes from a
 * list in which one buffer can occur several times.
 */
module ProducerCache {
  import opened Basics
  import opened Buffers

  const BUFFER_QUEUE_SIZE := 5

  type Cache = map<nat, Info>

  /** Every key is the sequence number of the buffer stored under it. */
  ghost predicate Keyed(cache: Cache) {
    forall k | k in cache :: cache[k].seqNum == Some(k)
  }

  /** `order` visits every key of `cache` once: one iteration over the hash map. */
  ghost predicate IsOrder(order: seq<nat>, cache: Cache) {
    && (forall k :: k in order <==> k in cache)
    && (forall i, j | 0 <= i < j < |order| :: order[i] != order[j])
  }

  // ---------- What the loops compute ----------

  /** One pass of the insertion loop: `x` goes in front of every entry flushed later. */
  function InsertBeforeLater(list: seq<Info>, x: Info): seq<Info> {
    if list == [] then []
    else
      var last := list[|list| - 1];
      InsertBeforeLater(list[..|list| - 1], x) + (if x.flushedTime < last.flushedTime then [x, last] else [last])
  }

  /** The deletion list after visiting the keys of `order`. */
  function Candidates(cache: Cache, order: seq<nat>): seq<Info> {
    if order == [] then []
    else
      var list := Candidates(cache, order[..|order| - 1]);
      var k := order[|order| - 1];
      if k in cache && cache[k].isFlushed then InsertBeforeLater(list, cache[k]) + [cache[k]] else list
  }

  /** Erases along the list until the cache is small enough. */
  function Trim(cache: Cache, list: seq<Info>): Cache {
    if list == [] then cache
    else
      var rest := if list[0].seqNum.Some? then cache - {list[0].seqNum.value} else cache;
      if |rest| <= BUFFER_QUEUE_SIZE then rest else Trim(rest, list[1..])
  }

  function Evict(cache: Cache, order: seq<nat>): Cache {
    if |cache| <= BUFFER_QUEUE_SIZE then cache else Trim(cache, Candidates(cache, order))
  }

  function Add(cache: Cache, info: Info, order: seq<nat>): Cache {
    if info.seqNum.None? then cache
    else
      var k := info.seqNum.value;
      if k in cache then cache[k := cache[k].(isFlushed := false)] else Evict(cache[k := info], order)
  }

  function MarkFlushed(cache: Cache, info: Info, time: int): Cache {
    if info.seqNum.Some? && info.seqNum.value in cache
    then cache[info.seqNum.value := cache[info.seqNum.value].(isFlushed := true, flushedTime := time)]
    else cache
  }

  // ---------- Why the list is good enough ----------

  /** Whoever was flushed strictly earlier than an entry already occurs in front of it. This
      is what "the first occurrences are sorted by flush time" comes to. */
  ghost predicate EarlierFirst(list: seq<Info>, all: seq<Info>) {
    forall j, z | 0 <= j < |list| && z in all && z.flushedTime < list[j].flushedTime :: z in list[..j]
  }

  lemma {:induction false} InsertKeepsEarlierFirst(list: seq<Info>, x: Info, i: nat)
    requires i <= |list|
    requires EarlierFirst(list, list)
    ensures EarlierFirst(InsertBeforeLater(list[..i], x), list + [x])
    ensures forall y | y in list[..i] :: y in InsertBeforeLater(list[..i], x)
    ensures forall y | y in InsertBeforeLater(list[..i], x) :: y in list[..i] || y == x
  {
    if i > 0 {
      InsertKeepsEarlierFirst(list, x, i - 1);
      var last := list[i - 1];
      assert list[..i][..i - 1] == list[..i - 1];
      var before := InsertBeforeLater(list[..i - 1], x);
      var after := InsertBeforeLater(list[..i], x);
      assert after == before + (if x.flushedTime < last.flushedTime then [x, last] else [last]);
      forall j, z | 0 <= j < |after| && z in list + [x] && z.flushedTime < after[j].flushedTime
        ensures z in after[..j]
      {
        if j < |before| {
          assert after[..j] == before[..j];
        } else {
          assert after[j].flushedTime <= last.flushedTime;
          assert before == after[..|before|] <= after[..j];
          if z in list {
            assert z in list[..i - 1];
          } else {
            assert after[j] == last && after[j - 1] == x;
          }
        }
      }
    }
  }

  lemma {:induction false} CandidatesEarlierFirst(cache: Cache, order: seq<nat>)
    ensures EarlierFirst(Candidates(cache, order), Candidates(cache, order))
    ensures forall y :: y in Candidates(cache, order) <==>
              exists k :: k in order && k in cache && cache[k].isFlushed && cache[k] == y
  {
    if order != [] {
      var init := order[..|order| - 1];
      var k := order[|order| - 1];
      CandidatesEarlierFirst(cache, init);
      assert order == init + [k];
      var list := Candidates(cache, init);
      if k in cache && cache[k].isFlushed {
        var x := cache[k];
        assert list[..|list|] == list;
        InsertKeepsEarlierFirst(list, x, |list|);
        var inner := InsertBeforeLater(list, x);
        forall j, z | 0 <= j < |inner + [x]| && z in inner + [x] && z.flushedTime < (inner + [x])[j].flushedTime
          ensures z in (inner + [x])[..j]
        {
          assert z in list + [x];
          if j < |inner| {
            assert (inner + [x])[..j] == inner[..j];
          } else {
            assert (inner + [x])[..j] == inner;
          }
        }
        forall y
          ensures y in inner + [x] <==> exists i :: i in order && i in cache && cache[i].isFlushed && cache[i] == y
        {
          if y in inner + [x] && y != x {
            assert y in list;
            var i :| i in init && i in cache && cache[i].isFlushed && cache[i] == y;
            assert i in order;
          }
          if i :| i in order && i in cache && cache[i].isFlushed && cache[i] == y {
            assert i in init || i == k;
          }
        }
      } else {
        forall y
          ensures y in list <==> exists i :: i in order && i in cache && cache[i].isFlushed && cache[i] == y
        {
          if i :| i in order && i in cache && cache[i].isFlushed && cache[i] == y {
            assert i in init;
          }
          if y in list {
            var i :| i in init && i in cache && cache[i].isFlushed && cache[i] == y;
            assert i in order;
          }
        }
      }
    }
  }

  lemma EraseOne(cache: Cache, k: nat)
    ensures |cache - {k}| >= |cache| - 1
    ensures k !in cache ==> cache - {k} == cache
  {
    var rest := cache - {k};
    assert rest.Keys == cache.Keys - {k};
    assert |rest.Keys| >= |cache.Keys| - 1;
  }

  lemma EraseMore(cache: Cache, k: nat, ks: set<nat>)
    ensures (cache - {k}) - ks == cache - ({k} + ks)
  {
  }

  lemma IdSetCons(list: seq<Info>, n: nat)
    requires n < |list| && list[0].seqNum.Some?
    ensures IdSet(list[..n + 1]) == {list[0].seqNum.value} + IdSet(list[1..][..n])
  {
    assert list[..n + 1] == [list[0]] + list[1..][..n];
  }

  /** Trimming erases the numbers of a prefix of the list, and stops as soon as it may. */
  lemma {:induction false} TrimErasesPrefix(cache: Cache, list: seq<Info>) returns (m: nat)
    requires |cache| > BUFFER_QUEUE_SIZE
    requires forall y | y in list :: y.seqNum.Some?
    ensures m <= |list|
    ensures Trim(cache, list) == cache - IdSet(list[..m])
    ensures BUFFER_QUEUE_SIZE <= |Trim(cache, list)|
    ensures m == |list| || |Trim(cache, list)| == BUFFER_QUEUE_SIZE
  {
    if list == [] {
      m := 0;
      assert IdSet(list[..0]) == {};
    } else {
      var k := list[0].seqNum.value;
      var rest := cache - {k};
      EraseOne(cache, k);
      if |rest| <= BUFFER_QUEUE_SIZE {
        m := 1;
        IdSetCons(list, 0);
        assert IdSet(list[1..][..0]) == {};
      } else {
        var n := TrimErasesPrefix(rest, list[1..]);
        m := n + 1;
        IdSetCons(list, n);
        EraseMore(cache, k, IdSet(list[1..][..n]));
      }
    }
  }

  function FlushedKeys(cache: Cache): set<nat> {
    set k | k in cache && cache[k].isFlushed
  }

  /** `gone` is a set of earliest-flushed entries: none of the flushed ones outside it is older. */
  ghost predicate IsOldest(gone: set<nat>, cache: Cache) {
    && gone <= FlushedKeys(cache)
    && forall g, k | g in gone && k in FlushedKeys(cache) - gone :: cache[g].flushedTime <= cache[k].flushedTime
  }

  /** How many buffers the cache holds above the queue size. */
  function Surplus(cache: Cache): nat {
    if |cache| > BUFFER_QUEUE_SIZE then |cache| - BUFFER_QUEUE_SIZE else 0
  }

  /** Oldest-first eviction, for every iteration order of the hash map: the cache loses exactly
      min(flushed, surplus) buffers, all of them flushed, and no flushed buffer that stays was
      flushed before one that goes. */
  lemma EvictsOldestFlushed(cache: Cache, order: seq<nat>)
    requires Keyed(cache) && IsOrder(order, cache)
    ensures exists gone ::
              && IsOldest(gone, cache)
              && |gone| == Min(|FlushedKeys(cache)|, Surplus(cache))
              && Evict(cache, order) == cache - gone
  {
    if |cache| > BUFFER_QUEUE_SIZE {
      FullCacheEvicts(cache, order);
    } else {
      assert IsOldest({}, cache) && cache - {} == cache;
    }
  }

  lemma FullCacheEvicts(cache: Cache, order: seq<nat>)
    requires Keyed(cache) && IsOrder(order, cache)
    requires |cache| > BUFFER_QUEUE_SIZE
    ensures exists gone ::
              && IsOldest(gone, cache)
              && |gone| == Min(|FlushedKeys(cache)|, Surplus(cache))
              && Evict(cache, order) == cache - gone
  {
    var list := Candidates(cache, order);
    CandidatesAreFlushed(cache, order);
    var m := TrimErasesPrefix(cache, list);
    PrefixIsOldest(cache, list, m);
    GoneCount(cache, list, m);
    hide Trim, EarlierFirst, ListsFlushed, Candidates, IsOrder, Keyed;
    assert IsOldest(IdSet(list[..m]), cache);
  }

  /** A prefix that is the whole list, or leaves five entries, has the right number of buffers. */
  lemma GoneCount(cache: Cache, list: seq<Info>, m: nat)
    requires m <= |list| && IdSet(list) == FlushedKeys(cache) && IdSet(list[..m]) <= FlushedKeys(cache)
    requires BUFFER_QUEUE_SIZE <= |cache - IdSet(list[..m])|
    requires m == |list| || |cache - IdSet(list[..m])| == BUFFER_QUEUE_SIZE
    ensures |IdSet(list[..m])| == Min(|FlushedKeys(cache)|, |cache| - BUFFER_QUEUE_SIZE)
  {
    var gone := IdSet(list[..m]);
    assert gone <= cache.Keys;
    EraseAll(cache, gone);
    SubsetSize(gone, FlushedKeys(cache));
    if m == |list| {
      assert list[..m] == list;
    }
  }

  lemma EraseAll(cache: Cache, gone: set<nat>)
    requires gone <= cache.Keys
    ensures |cache - gone| == |cache| - |gone|
  {
    assert (cache - gone).Keys == cache.Keys - gone;
    assert |cache.Keys - gone| == |cache.Keys| - |gone|;
  }

  /** The list holds copies of flushed cache entries, every one of them at least once. */
  ghost predicate ListsFlushed(list: seq<Info>, cache: Cache) {
    && (forall y | y in list :: y.seqNum.Some? && y.seqNum.value in FlushedKeys(cache) && cache[y.seqNum.value] == y)
    && (forall k | k in FlushedKeys(cache) :: cache[k] in list)
  }

  lemma CandidatesAreFlushed(cache: Cache, order: seq<nat>)
    requires Keyed(cache) && IsOrder(order, cache)
    ensures EarlierFirst(Candidates(cache, order), Candidates(cache, order))
    ensures ListsFlushed(Candidates(cache, order), cache)
    ensures IdSet(Candidates(cache, order)) == FlushedKeys(cache)
  {
    CandidatesEarlierFirst(cache, order);
    var list := Candidates(cache, order);
    forall k | k in FlushedKeys(cache)
      ensures k in IdSet(list)
    {
      assert cache[k] in list;
    }
  }

  lemma PrefixIsOldest(cache: Cache, list: seq<Info>, m: nat)
    requires Keyed(cache) && m <= |list| && EarlierFirst(list, list) && ListsFlushed(list, cache)
    ensures IsOldest(IdSet(list[..m]), cache)
  {
    var gone := IdSet(list[..m]);
    forall g | g in gone
      ensures g in FlushedKeys(cache)
    {
      var info :| info in list[..m] && info.seqNum == Some(g);
      assert info in list;
    }
    forall g, k | g in gone && k in FlushedKeys(cache) - gone
      ensures cache[g].flushedTime <= cache[k].flushedTime
    {
      OlderGoesFirst(cache, list, m, g, k);
    }
  }

  lemma OlderGoesFirst(cache: Cache, list: seq<Info>, m: nat, g: nat, k: nat)
    requires Keyed(cache) && m <= |list| && EarlierFirst(list, list) && ListsFlushed(list, cache)
    requires g in IdSet(list[..m]) && k in FlushedKeys(cache) && k !in IdSet(list[..m])
    ensures g in cache && cache[g].flushedTime <= cache[k].flushedTime
  {
    var info :| info in list[..m] && info.seqNum == Some(g);
    var j :| 0 <= j < m && list[j] == info;
    assert list[j] in list;
    assert cache[k] !in list[..m];
    assert list[..m][..j] == list[..j];
    assert cache[k] !in list[..j];
  }

  lemma EvictShrinks(cache: Cache, order: seq<nat>)
    requires Keyed(cache)
    ensures Keyed(Evict(cache, order))
    ensures forall k | k in Evict(cache, order) :: k in cache && Evict(cache, order)[k] == cache[k]
  {
    if |cache| > BUFFER_QUEUE_SIZE {
      TrimShrinks(cache, Candidates(cache, order));
    }
  }

  lemma {:induction false} TrimShrinks(cache: Cache, list: seq<Info>)
    ensures forall k | k in Trim(cache, list) :: k in cache && Trim(cache, list)[k] == cache[k]
  {
    if list != [] {
      var rest := if list[0].seqNum.Some? then cache - {list[0].seqNum.value} else cache;
      if |rest| > BUFFER_QUEUE_SIZE {
        TrimShrinks(rest, list[1..]);
      }
    }
  }

  lemma AddKeepsKeyed(cache: Cache, info: Info, order: seq<nat>)
    requires Keyed(cache)
    ensures Keyed(Add(cache, info, order))
  {
    if info.seqNum.Some? && info.seqNum.value !in cache {
      EvictShrinks(cache[info.seqNum.value := info], order);
    }
  }

  /** Buffers without a mark are never evicted. */
  lemma EvictKeepsUnmarked(cache: Cache, order: seq<nat>, k: nat)
    requires Keyed(cache) && k in cache && !cache[k].isFlushed
    ensures k in Evict(cache, order)
  {
    if |cache| > BUFFER_QUEUE_SIZE {
      var list := Candidates(cache, order);
      CandidatesEarlierFirst(cache, order);
      var m := TrimErasesPrefix(cache, list);
      forall info | info in list[..m]
        ensures info.seqNum != Some(k)
      {
        assert info in list;
      }
    }
  }
}
