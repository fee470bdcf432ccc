/** The Redis cache of Telegram files (telebot_constructor/telegram_files_downloader.py):
    fetching a file in base64 through the cache, and evicting cached files once there
    are too many. The two key-value stores are the maps `cached` and `lastAccessed`;
    the clock, the download and the outcome of each store call are parameters. */
module FilesDownloader {
  import opened Base

  /** An id with its last access time. */
  type Access = (string, int)

  predicate SortedByTime(s: seq<Access>)
  {
    forall i, j :: 0 <= i < j < |s| ==> s[i].1 <= s[j].1
  }

  /** An entry no later than the head of a sorted list can go in front of it. */
  lemma SortedCons(a: Access, t: seq<Access>)
    requires SortedByTime(t)
    requires t != [] ==> a.1 <= t[0].1
    ensures SortedByTime([a] + t)
  {
    forall i, j | 0 <= i < j < |[a] + t| ensures ([a] + t)[i].1 <= ([a] + t)[j].1 {
      if i == 0 {
        assert ([a] + t)[j] == t[j - 1];
        if j > 1 {
          assert t[0].1 <= t[j - 1].1;
        }
      } else {
        assert ([a] + t)[i] == t[i - 1] && ([a] + t)[j] == t[j - 1];
      }
    }
  }

  /** Inserts an entry into a list ordered by time, in front of the entries with the same
      or a later time, so that sorting by insertion from the back keeps equal times in
      their original order, as Python's stable sort does. */
  function InsertByTime(x: Access, s: seq<Access>): (r: seq<Access>)
    requires SortedByTime(s)
    ensures SortedByTime(r)
    ensures multiset(r) == multiset(s) + multiset{x}
    ensures |r| == |s| + 1
    ensures r[0] == x || (s != [] && r[0] == s[0])
  {
    if s == [] then [x]
    else if x.1 <= s[0].1 then
      SortedCons(x, s);
      [x] + s
    else
      var t := InsertByTime(x, s[1..]);
      InsertBehind(x, s, t);
      [s[0]] + t
  }

  /** An entry later than the head of a sorted list goes behind it: the head followed by
      the entry inserted into the rest is sorted and holds the same entries. */
  lemma InsertBehind(x: Access, s: seq<Access>, t: seq<Access>)
    requires SortedByTime(s) && s != [] && s[0].1 < x.1
    requires SortedByTime(t) && multiset(t) == multiset(s[1..]) + multiset{x}
    requires t != [] && (t[0] == x || (s[1..] != [] && t[0] == s[1..][0]))
    ensures SortedByTime([s[0]] + t)
    ensures multiset([s[0]] + t) == multiset(s) + multiset{x}
  {
    assert s == [s[0]] + s[1..];
    SortedCons(s[0], t);
  }

  /** `sorted(..., key=time)`: the accesses ordered by time, oldest first. */
  function SortByTime(xs: seq<Access>): (r: seq<Access>)
    ensures SortedByTime(r)
    ensures multiset(r) == multiset(xs)
    ensures |r| == |xs|
  {
    if xs == [] then []
    else
      assert xs == [xs[0]] + xs[1..];
      InsertByTime(xs[0], SortByTime(xs[1..]))
  }

  /** How dropping one evicted file goes: both drops succeed, the first raises (nothing
      is dropped), or the second raises (only the access record is dropped). */
  datatype DropOutcome = Dropped | FirstDropFails | SecondDropFails

  /** The eviction set as written: line 95 computes a union and discards it, so only the
      cached ids without an access record are evicted. */
  function EvictionSetAsWritten(cachedIds: set<string>, lastAccessed: map<string, int>): (r: set<string>)
    ensures forall id :: id in r <==> id in cachedIds && id !in lastAccessed
  {
    set id | id in cachedIds && id !in lastAccessed
  }

  /** As written, a full cache whose files all have an access record evicts nothing,
      however far over the limit it is. */
  lemma AsWrittenEvictsNothing(cachedIds: set<string>, lastAccessed: map<string, int>, maxCached: int)
    requires |cachedIds| > maxCached
    requires forall id :: id in cachedIds ==> id in lastAccessed
    ensures |cachedIds| - maxCached > 0
    ensures EvictionSetAsWritten(cachedIds, lastAccessed) == {}
  {
  }

  class FilesCache {
    /** File id to the file's base64 text. */
    var cached: map<string, string>
    /** File id to its last access time. */
    var lastAccessed: map<string, int>
    const maxCached: int

    constructor (maxCached: int)
      ensures this.maxCached == maxCached && cached == map[] && lastAccessed == map[]
    {
      this.maxCached := maxCached;
      cached := map[];
      lastAccessed := map[];
    }

    /** `get_base64_file`: records the access time, then answers from the cache, or
        downloads the file, caches its base64 text and returns it. `download` is the
        downloaded content, if the download succeeded, and `saveRaises` tells whether
        caching the text raises; either failure is caught, and the answer is None. */
    method GetBase64File(fileId: string, now: int, download: Option<seq<bv8>>, b64encode: seq<bv8> -> string,
                         saveRaises: bool)
      returns (r: Option<string>)
      modifies this
      ensures lastAccessed == old(lastAccessed)[fileId := now]
      ensures fileId in old(cached) ==> r == Some(old(cached)[fileId]) && cached == old(cached)
      ensures fileId !in old(cached) && (download.None? || saveRaises) ==> r.None? && cached == old(cached)
      ensures fileId !in old(cached) && download.Some? && !saveRaises ==>
        r == Some(b64encode(download.value)) && cached == old(cached)[fileId := b64encode(download.value)]
    {
      var cachedB64 := if fileId in cached then Some(cached[fileId]) else None;
      lastAccessed := lastAccessed[fileId := now];
      if cachedB64.Some? {
        return cachedB64;
      }
      if download.None? {
        return None;
      }
      var fileB64 := b64encode(download.value);
      if saveRaises {
        return None;
      }
      cached := cached[fileId := fileB64];
      r := Some(fileB64);
    }

    /** The loop over the cached ids in `_evict_extra_cached_files`: the ids without an
        access record, and each other id with its access time. */
    method PartitionByRecord() returns (noRecord: set<string>, timed: seq<Access>)
      ensures forall id :: id in noRecord <==> id in cached && id !in lastAccessed
      ensures forall i :: 0 <= i < |timed| ==>
        timed[i].0 in cached && timed[i].0 in lastAccessed && timed[i].1 == lastAccessed[timed[i].0]
      ensures forall id :: id in cached && id in lastAccessed ==> (id, lastAccessed[id]) in timed
      ensures |timed| == |cached.Keys * lastAccessed.Keys|
    {
      timed := [];
      noRecord := {};
      var remaining := cached.Keys;
      ghost var recorded: set<string> := {};
      while remaining != {}
        invariant remaining <= cached.Keys
        invariant forall id :: id in noRecord <==> id in cached && id !in remaining && id !in lastAccessed
        invariant forall id :: id in recorded <==> id in cached && id !in remaining && id in lastAccessed
        invariant forall i :: 0 <= i < |timed| ==>
          timed[i].0 in cached && timed[i].0 in lastAccessed && timed[i].1 == lastAccessed[timed[i].0]
        invariant forall id :: id in recorded ==> (id, lastAccessed[id]) in timed
        invariant |timed| == |recorded|
        decreases |remaining|
      {
        var id :| id in remaining;
        if id in lastAccessed {
          assert id !in recorded;
          timed := timed + [(id, lastAccessed[id])];
          recorded := recorded + {id};
        } else {
          noRecord := noRecord + {id};
        }
        remaining := remaining - {id};
      }
      assert recorded == cached.Keys * lastAccessed.Keys;
    }

    /** The selection part of `_evict_extra_cached_files` (run only once the cache holds
        at least `maxCached` files), as evidently intended: every cached file without an
        access record, and the `total - maxCached` least recently accessed of the others
        (`lruIds`), none of which was accessed later than a file that stays. */
    method SelectEvictions() returns (evictIds: set<string>, lruIds: seq<string>)
      requires |cached.Keys| >= maxCached
      ensures forall id :: id in evictIds <==> (id in cached && id !in lastAccessed) || id in lruIds
      ensures forall i :: 0 <= i < |lruIds| ==> lruIds[i] in cached && lruIds[i] in lastAccessed
      ensures var candidates := |cached.Keys * lastAccessed.Keys|;
        |lruIds| == if |cached.Keys| - maxCached < candidates then |cached.Keys| - maxCached else candidates
      ensures forall i, id :: 0 <= i < |lruIds| && id in cached && id in lastAccessed && id !in lruIds ==>
        lastAccessed[lruIds[i]] <= lastAccessed[id]
    {
      var noRecord, timed := PartitionByRecord();
      var accessOrder := SortByTime(timed);
      var evictCount := |cached.Keys| - maxCached;
      var k := if evictCount < |accessOrder| then evictCount else |accessOrder|;
      lruIds := seq(k, i requires 0 <= i < k => accessOrder[i].0);
      evictIds := noRecord + (set id | id in lruIds);
      ChosenAreOldest(timed, accessOrder, k, lruIds, lastAccessed, cached.Keys);
    }

    /** The drop loop of `_evict_extra_cached_files`: for each id in the set, drops its
        access record and then its cached file; an exception skips the rest of that id.
        `evictedCount` counts the ids for which both drops succeeded. */
    method DropEvicted(evictIds: set<string>, outcome: string -> DropOutcome) returns (evictedCount: nat)
      modifies this
      ensures forall id :: id in cached <==> id in old(cached) && !(id in evictIds && outcome(id) == Dropped)
      ensures forall id :: id in cached ==> cached[id] == old(cached)[id]
      ensures forall id :: id in lastAccessed <==> id in old(lastAccessed) && !(id in evictIds && outcome(id) != FirstDropFails)
      ensures forall id :: id in lastAccessed ==> lastAccessed[id] == old(lastAccessed)[id]
      ensures evictedCount == |set id | id in evictIds && outcome(id) == Dropped|
      ensures evictedCount <= |evictIds|
    {
      evictedCount := 0;
      var remaining := evictIds;
      ghost var dropped: set<string> := {};
      while remaining != {}
        invariant remaining <= evictIds
        invariant forall id :: id in cached <==> id in old(cached) && !(id in evictIds - remaining && outcome(id) == Dropped)
        invariant forall id :: id in cached ==> cached[id] == old(cached)[id]
        invariant forall id :: id in lastAccessed <==>
          id in old(lastAccessed) && !(id in evictIds - remaining && outcome(id) != FirstDropFails)
        invariant forall id :: id in lastAccessed ==> lastAccessed[id] == old(lastAccessed)[id]
        invariant forall id :: id in dropped <==> id in evictIds - remaining && outcome(id) == Dropped
        invariant evictedCount == |dropped|
        decreases |remaining|
      {
        var fileId :| fileId in remaining;
        match outcome(fileId) {
          case FirstDropFails =>
          case SecondDropFails =>
            lastAccessed := lastAccessed - {fileId};
          case Dropped =>
            lastAccessed := lastAccessed - {fileId};
            cached := cached - {fileId};
            evictedCount := evictedCount + 1;
            dropped := dropped + {fileId};
        }
        remaining := remaining - {fileId};
      }
      assert dropped == set id | id in evictIds && outcome(id) == Dropped;
      assert dropped <= evictIds;
      SubsetCardinality(dropped, evictIds);
    }

    /** `_evict_extra_cached_files`: nothing happens while fewer than `maxCached` files
        are cached; otherwise the files without an access record and the
        `|cached| - maxCached` least recently accessed ones (`lruIds`) are selected, as
        line 95 evidently intends, and dropped. */
    method EvictExtraCachedFiles(outcome: string -> DropOutcome)
      returns (evictIds: set<string>, lruIds: seq<string>, evictedCount: nat)
      modifies this
      ensures |old(cached).Keys| < maxCached ==>
        cached == old(cached) && lastAccessed == old(lastAccessed) && evictIds == {} && lruIds == []
      ensures |old(cached).Keys| >= maxCached ==>
        forall id :: id in evictIds <==> (id in old(cached) && id !in old(lastAccessed)) || id in lruIds
      ensures forall i :: 0 <= i < |lruIds| ==> lruIds[i] in old(cached) && lruIds[i] in old(lastAccessed)
      ensures |old(cached).Keys| >= maxCached ==>
        var candidates := |old(cached).Keys * old(lastAccessed).Keys|;
        |lruIds| == if |old(cached).Keys| - maxCached < candidates then |old(cached).Keys| - maxCached else candidates
      ensures forall i, id :: 0 <= i < |lruIds| && id in old(cached) && id in old(lastAccessed) && id !in lruIds ==>
        old(lastAccessed)[lruIds[i]] <= old(lastAccessed)[id]
      ensures forall id :: id in old(cached) && id !in old(lastAccessed) && |old(cached).Keys| >= maxCached ==> id in evictIds
      ensures forall id :: id in evictIds ==> id in old(cached)
      ensures forall id :: id in cached <==> id in old(cached) && !(id in evictIds && outcome(id) == Dropped)
      ensures forall id :: id in cached ==> cached[id] == old(cached)[id]
      ensures forall id :: id in lastAccessed <==>
        id in old(lastAccessed) && !(id in evictIds && outcome(id) != FirstDropFails)
      ensures forall id :: id in lastAccessed ==> lastAccessed[id] == old(lastAccessed)[id]
      ensures evictedCount == |set id | id in evictIds && outcome(id) == Dropped|
      ensures evictedCount <= |evictIds|
    {
      if |cached.Keys| < maxCached {
        return {}, [], 0;
      }
      evictIds, lruIds := SelectEvictions();
      evictedCount := DropEvicted(evictIds, outcome);
    }
  }

  /** A subset is no larger than the set. */
  lemma {:induction false} SubsetCardinality<T>(a: set<T>, b: set<T>)
    requires a <= b
    ensures |a| <= |b|
  {
    if a != {} {
      var x :| x in a;
      SubsetCardinality(a - {x}, b - {x});
    }
  }

  /** The first `k` entries of the access order are no later than any entry left out. */
  lemma ChosenAreOldest(timed: seq<Access>, accessOrder: seq<Access>, k: nat, lruIds: seq<string>,
                        lastAccessed: map<string, int>, keys: set<string>)
    requires forall i :: 0 <= i < |timed| ==> timed[i].0 in keys && timed[i].0 in lastAccessed && timed[i].1 == lastAccessed[timed[i].0]
    requires forall id :: id in keys && id in lastAccessed ==> (id, lastAccessed[id]) in timed
    requires SortedByTime(accessOrder) && multiset(accessOrder) == multiset(timed)
    requires k <= |accessOrder| && |lruIds| == k && forall i :: 0 <= i < k ==> lruIds[i] == accessOrder[i].0
    ensures forall i :: 0 <= i < |lruIds| ==> lruIds[i] in keys && lruIds[i] in lastAccessed
    ensures forall i, id :: 0 <= i < |lruIds| && id in keys && id in lastAccessed && id !in lruIds ==>
      lastAccessed[lruIds[i]] <= lastAccessed[id]
  {
    forall i | 0 <= i < |accessOrder|
      ensures accessOrder[i].0 in keys && accessOrder[i].0 in lastAccessed && accessOrder[i].1 == lastAccessed[accessOrder[i].0]
    {
      assert accessOrder[i] in multiset(timed);
      assert accessOrder[i] in timed;
    }
    forall i, id | 0 <= i < |lruIds| && id in keys && id in lastAccessed && id !in lruIds
      ensures lastAccessed[lruIds[i]] <= lastAccessed[id]
    {
      var e := (id, lastAccessed[id]);
      assert e in multiset(accessOrder);
      var j :| 0 <= j < |accessOrder| && accessOrder[j] == e;
      assert forall i :: 0 <= i < k ==> lruIds[i] != id;
      assert accessOrder[j].0 == id;
    }
  }
}
