/**
 * The two-tier TTL cache of `cache.py`: an in-memory dictionary of entries with an
 * expiry instant, in front of a persistent disk tier. The memory tier is modelled
 * concretely; the disk tier is a map of entries that honours its own expiry, and
 * whether each disk access succeeds is a parameter of the call.
 */
module Caching {
  import opened Common
  import opened Text

  /** `default_ttl`, `card_data_ttl` and `search_results_ttl`, in seconds. */
  const DefaultTtl: nat := 3600
  const CardDataTtl: nat := 86400
  const SearchResultsTtl: nat := 1800

  /** A cached value and the instant after which it is stale. */
  datatype Entry<V> = Entry(data: V, expiresAt: real)

  /** Both tiers at one moment. */
  datatype Tiers<V> = Tiers(memory: map<string, Entry<V>>, disk: map<string, Entry<V>>)

  /** What the disk tier hands back for `key` at `now`: nothing once the entry has expired. */
  function DiskRead<V>(disk: map<string, Entry<V>>, key: string, now: real): Option<V> {
    if key in disk && disk[key].expiresAt > now then Some(disk[key].data) else None
  }

  /** `ttl if ttl is not None else default_ttl` */
  function TtlOrDefault(ttl: Option<nat>): nat {
    ttl.GetOr(DefaultTtl)
  }

  /**
   * `get`: a live memory entry wins; a stale one is dropped. Then a disk hit is returned
   * and promoted into memory with the default TTL. A failed disk read counts as a miss.
   */
  function Lookup<V>(t: Tiers<V>, key: string, now: real, diskOk: bool): (r: (Option<V>, Tiers<V>))
    ensures r.0.Some? <==> (key in t.memory && t.memory[key].expiresAt > now) || (diskOk && DiskRead(t.disk, key, now).Some?)
    ensures r.0.Some? ==> key in r.1.memory && r.1.memory[key].data == r.0.value && r.1.memory[key].expiresAt > now
    ensures r.0.None? ==> key !in r.1.memory
    ensures r.1.disk == t.disk
    ensures forall k :: k != key ==> (k in r.1.memory <==> k in t.memory)
    ensures forall k :: k != key && k in r.1.memory ==> r.1.memory[k] == t.memory[k]
  {
    if key in t.memory && t.memory[key].expiresAt > now then (Some(t.memory[key].data), t)
    else
      var memory := t.memory - {key};
      var hit := if diskOk then DiskRead(t.disk, key, now) else None;
      match hit
      case Some(v) => (Some(v), Tiers(memory[key := Entry(v, now + DefaultTtl as real)], t.disk))
      case None => (None, Tiers(memory, t.disk))
  }

  /** `set`: memory always takes the value; the disk tier only when its write succeeds. */
  function Store<V>(t: Tiers<V>, key: string, value: V, ttl: Option<nat>, now: real, diskOk: bool): (r: Tiers<V>)
    ensures r.memory == t.memory[key := Entry(value, now + TtlOrDefault(ttl) as real)]
    ensures diskOk ==> r.disk == t.disk[key := Entry(value, now + TtlOrDefault(ttl) as real)]
    ensures !diskOk ==> r.disk == t.disk
  {
    var e := Entry(value, now + TtlOrDefault(ttl) as real);
    Tiers(t.memory[key := e], if diskOk then t.disk[key := e] else t.disk)
  }

  /** `delete`: memory always drops the key; the disk tier only when its delete succeeds. */
  function Remove<V>(t: Tiers<V>, key: string, diskOk: bool): (r: Tiers<V>)
    ensures key !in r.memory && (diskOk ==> key !in r.disk)
    ensures forall k :: k != key ==> (k in r.memory <==> k in t.memory) && (k in r.disk <==> k in t.disk)
    ensures forall k :: k in r.memory ==> k in t.memory && r.memory[k] == t.memory[k]
    ensures forall k :: k in r.disk ==> k in t.disk && r.disk[k] == t.disk[k]
    ensures !diskOk ==> r.disk == t.disk
  {
    Tiers(t.memory - {key}, if diskOk then t.disk - {key} else t.disk)
  }

  /** `clear_expired`: the memory entries still live at `now`; the disk tier is untouched. */
  function ClearExpired<V>(t: Tiers<V>, now: real): (r: Tiers<V>)
    ensures forall k :: k in r.memory <==> k in t.memory && t.memory[k].expiresAt > now
    ensures forall k :: k in r.memory ==> r.memory[k] == t.memory[k]
    ensures r.disk == t.disk
  {
    Tiers(map k | k in t.memory && t.memory[k].expiresAt > now :: t.memory[k], t.disk)
  }

  /** After `set(key, value, ttl)` at `setAt`, `get(key)` returns `value` until the TTL has run out, disk or no disk. */
  lemma SetThenGet<V>(t: Tiers<V>, key: string, value: V, ttl: Option<nat>, setAt: real, diskOk: bool,
                      now: real, readOk: bool)
    requires now < setAt + TtlOrDefault(ttl) as real
    ensures Lookup(Store(t, key, value, ttl, setAt, diskOk), key, now, readOk).0 == Some(value)
    ensures Lookup(Store(t, key, value, ttl, setAt, diskOk), key, now, readOk).1 == Store(t, key, value, ttl, setAt, diskOk)
  {
  }

  /** A `None` TTL is the default of one hour. */
  lemma SetWithoutTtl<V>(t: Tiers<V>, key: string, value: V, now: real, diskOk: bool)
    ensures Store(t, key, value, None, now, diskOk).memory[key].expiresAt == now + 3600.0
  {
  }

  /**
   * `get` never hands back a memory entry that has expired: it answers from the disk tier
   * instead, and a stale entry does not stay behind in memory.
   */
  lemma NoStaleMemoryHit<V>(t: Tiers<V>, key: string, now: real, diskOk: bool)
    requires key in t.memory && t.memory[key].expiresAt <= now
    ensures Lookup(t, key, now, diskOk).0 == if diskOk then DiskRead(t.disk, key, now) else None
    ensures var m := Lookup(t, key, now, diskOk).1.memory;
      key in m ==> m[key].expiresAt > now
  {
  }

  /** A memory miss with a disk hit returns the disk value and puts it in memory for the default TTL. */
  lemma Promotion<V>(t: Tiers<V>, key: string, now: real)
    requires !(key in t.memory && t.memory[key].expiresAt > now)
    requires DiskRead(t.disk, key, now).Some?
    ensures Lookup(t, key, now, true).0 == DiskRead(t.disk, key, now)
    ensures Lookup(t, key, now, true).1.memory[key] == Entry(DiskRead(t.disk, key, now).value, now + DefaultTtl as real)
    ensures Lookup(t, key, now, true).1.disk == t.disk
  {
  }

  /** After a successful `delete(key)` the key is in no tier and `get(key)` finds nothing. */
  lemma DeleteThenGet<V>(t: Tiers<V>, key: string, now: real, readOk: bool)
    ensures var r := Remove(t, key, true);
      key !in r.memory && key !in r.disk && Lookup(r, key, now, readOk).0 == None
  {
  }

  /** A delete whose disk step fails leaves the disk copy, and the next `get` brings the value back. */
  lemma DeleteWithDiskFailure<V>(t: Tiers<V>, key: string, now: real)
    ensures Lookup(Remove(t, key, false), key, now, true).0 == DiskRead(t.disk, key, now)
  {
  }

  /** Clearing the stale entries changes the answer of no `get` made at the same instant. */
  lemma ClearExpiredKeepsAnswers<V>(t: Tiers<V>, key: string, now: real, diskOk: bool)
    ensures Lookup(ClearExpired(t, now), key, now, diskOk).0 == Lookup(t, key, now, diskOk).0
  {
  }

  /** A subset is no larger than its superset. */
  lemma {:induction false} SubsetSize<T>(a: set<T>, b: set<T>)
    requires a <= b
    ensures |a| <= |b|
    decreases |b|
  {
    if b != {} {
      var x :| x in b;
      SubsetSize(a - {x}, b - {x});
    }
  }

  /**
   * How the operations move the two sizes `get_stats` reports: `set` adds one memory entry
   * unless the key was there (and one disk entry under the same rule when the write works),
   * `delete` takes one away when the key was there, `clear_expired` never adds one, and `get`
   * changes the memory size by at most one either way and leaves the disk size alone.
   */
  lemma CacheSizes<V>(t: Tiers<V>, key: string, value: V, ttl: Option<nat>, now: real, diskOk: bool)
    ensures |Store(t, key, value, ttl, now, diskOk).memory| == |t.memory| + (if key in t.memory then 0 else 1)
    ensures |Store(t, key, value, ttl, now, diskOk).disk| ==
      |t.disk| + (if diskOk && key !in t.disk then 1 else 0)
    ensures |Remove(t, key, diskOk).memory| == |t.memory| - (if key in t.memory then 1 else 0)
    ensures |Remove(t, key, diskOk).disk| == |t.disk| - (if diskOk && key in t.disk then 1 else 0)
    ensures |ClearExpired(t, now).memory| <= |t.memory| && |ClearExpired(t, now).disk| == |t.disk|
    ensures |t.memory| - 1 <= |Lookup(t, key, now, diskOk).1.memory| <= |t.memory| + 1
    ensures |Lookup(t, key, now, diskOk).1.disk| == |t.disk|
  {
    var removed := Remove(t, key, diskOk);
    assert removed.memory.Keys == t.memory.Keys - {key};
    assert diskOk ==> removed.disk.Keys == t.disk.Keys - {key};
    var cleared := ClearExpired(t, now);
    SubsetSize(cleared.memory.Keys, t.memory.Keys);
    var looked := Lookup(t, key, now, diskOk).1;
    var rest := t.memory - {key};
    assert rest.Keys == t.memory.Keys - {key};
    SubsetSize(looked.memory.Keys, rest.Keys + {key});
    SubsetSize(rest.Keys, looked.memory.Keys + {key});
  }

  /** Python's ordering of `(name, value)` tuples. */
  predicate PairLess(p: (string, string), q: (string, string)) {
    Less(p.0, q.0) || (p.0 == q.0 && Less(p.1, q.1))
  }

  lemma PairLessTotal(p: (string, string), q: (string, string))
    requires p != q
    ensures PairLess(p, q) || PairLess(q, p)
  {
    if p.0 != q.0 {
      LessTotal(p.0, q.0);
    } else {
      LessTotal(p.1, q.1);
    }
  }

  lemma PairLessAsymmetric(p: (string, string), q: (string, string))
    requires PairLess(p, q)
    ensures !PairLess(q, p)
  {
    if Less(p.0, q.0) {
      LessAsymmetric(p.0, q.0);
      if q.0 == p.0 {
        LessIrreflexive(p.0);
      }
    } else {
      LessIrreflexive(p.0);
      LessAsymmetric(p.1, q.1);
    }
  }

  lemma PairLessTransitive(p: (string, string), q: (string, string), r: (string, string))
    requires PairLess(p, q) && PairLess(q, r)
    ensures PairLess(p, r)
  {
    if Less(p.0, q.0) && Less(q.0, r.0) {
      LessTransitive(p.0, q.0, r.0);
    } else if Less(p.1, q.1) && p.0 == q.0 && q.0 == r.0 {
      LessTransitive(p.1, q.1, r.1);
    }
  }

  predicate SortedPairs(s: seq<(string, string)>) {
    forall i, j :: 0 <= i < j < |s| ==> !PairLess(s[j], s[i])
  }

  /** Insert `p` before the first element that is not smaller. */
  function Insert(p: (string, string), s: seq<(string, string)>): (r: seq<(string, string)>)
    ensures multiset(r) == multiset(s) + multiset{p}
  {
    if |s| == 0 then [p]
    else if !PairLess(s[0], p) then [p] + s
    else
      assert s == [s[0]] + s[1..];
      [s[0]] + Insert(p, s[1..])
  }

  /** `sorted(kwargs.items())` */
  function SortPairs(ps: seq<(string, string)>): (r: seq<(string, string)>)
    ensures multiset(r) == multiset(ps)
  {
    if |ps| == 0 then []
    else
      assert ps == [ps[0]] + ps[1..];
      Insert(ps[0], SortPairs(ps[1..]))
  }

  lemma {:induction false} InsertSorted(p: (string, string), s: seq<(string, string)>)
    requires SortedPairs(s)
    ensures SortedPairs(Insert(p, s))
  {
    if |s| > 0 {
      if !PairLess(s[0], p) {
        var r := [p] + s;
        forall i, j | 0 <= i < j < |r|
          ensures !PairLess(r[j], r[i])
        {
          if i == 0 {
            var q := s[j - 1];
            if q != s[0] {
              PairLessTotal(s[0], q);
              if PairLess(q, p) {
                PairLessTransitive(s[0], q, p);
              }
            }
          }
        }
      } else {
        InsertSorted(p, s[1..]);
        var rest := Insert(p, s[1..]);
        var r := [s[0]] + rest;
        forall i, j | 0 <= i < j < |r|
          ensures !PairLess(r[j], r[i])
        {
          if i == 0 {
            assert r[j] in multiset(s[1..]) + multiset{p} by {
              assert r[j] in rest;
            }
            if r[j] == p {
              PairLessAsymmetric(s[0], p);
            } else {
              assert r[j] in s[1..];
            }
          }
        }
      }
    }
  }

  lemma {:induction false} SortPairsSorted(ps: seq<(string, string)>)
    ensures SortedPairs(SortPairs(ps))
  {
    if |ps| > 0 {
      SortPairsSorted(ps[1..]);
      InsertSorted(ps[0], SortPairs(ps[1..]));
    }
  }

  /** A sorted sequence starts with the least of its pairs, so two sorted sequences of the same pairs start alike. */
  lemma SortedHeads(a: seq<(string, string)>, b: seq<(string, string)>)
    requires SortedPairs(a) && SortedPairs(b)
    requires |a| > 0 && multiset(a) == multiset(b)
    ensures |b| > 0 && a[0] == b[0]
  {
    assert a[0] in multiset(b);
    assert b[0] in multiset(a);
    var i :| 0 <= i < |a| && a[i] == b[0];
    var j :| 0 <= j < |b| && b[j] == a[0];
    if a[0] != b[0] {
      PairLessTotal(a[0], b[0]);
      assert false;
    }
  }

  /** Two sorted sequences of the same pairs are the same sequence. */
  lemma {:induction false} SortedUnique(a: seq<(string, string)>, b: seq<(string, string)>)
    requires SortedPairs(a) && SortedPairs(b)
    requires multiset(a) == multiset(b)
    ensures a == b
  {
    if |a| == 0 {
      assert |multiset(b)| == 0;
    } else {
      SortedHeads(a, b);
      assert a == [a[0]] + a[1..] && b == [b[0]] + b[1..];
      assert multiset(a[1..]) == multiset(a) - multiset{a[0]} by {
        assert multiset(a) == multiset{a[0]} + multiset(a[1..]);
      }
      assert multiset(b[1..]) == multiset(b) - multiset{b[0]} by {
        assert multiset(b) == multiset{b[0]} + multiset(b[1..]);
      }
      SortedUnique(a[1..], b[1..]);
    }
  }

  /**
   * `_generate_cache_key`: the prefix, a colon and the hex digest of the sorted parameters.
   * `digest` stands for the MD5 of their JSON text.
   */
  function GenerateCacheKey(prefix: string, params: seq<(string, string)>,
                            digest: seq<(string, string)> -> string): (key: string)
    ensures |key| > |prefix| && key[..|prefix| + 1] == prefix + ":"
    ensures key[|prefix| + 1..] == digest(SortPairs(params))
  {
    prefix + ":" + digest(SortPairs(params))
  }

  /** The key depends only on the prefix and the parameters given, not on their order. */
  lemma KeyIgnoresOrder(prefix: string, p1: seq<(string, string)>, p2: seq<(string, string)>,
                        digest: seq<(string, string)> -> string)
    requires multiset(p1) == multiset(p2)
    ensures GenerateCacheKey(prefix, p1, digest) == GenerateCacheKey(prefix, p2, digest)
  {
    SortPairsSorted(p1);
    SortPairsSorted(p2);
    SortedUnique(SortPairs(p1), SortPairs(p2));
  }

  /** The key of a card by id: `card:{card_id}`. */
  function CardKey(cardId: int): (key: string)
    ensures |key| > 5 && key[..5] == "card:"
  {
    IntToStringShape(cardId);
    "card:" + IntToString(cardId)
  }

  function SearchKey(params: seq<(string, string)>, digest: seq<(string, string)> -> string): string {
    GenerateCacheKey("card_search", params, digest)
  }

  /** Different cards have different keys, and no card key is a search key. */
  lemma CardKeysDistinct(id1: int, id2: int, params: seq<(string, string)>, digest: seq<(string, string)> -> string)
    ensures id1 != id2 ==> CardKey(id1) != CardKey(id2)
    ensures CardKey(id1) != SearchKey(params, digest)
  {
    if id1 != id2 && CardKey(id1) == CardKey(id2) {
      assert IntToString(id1) == CardKey(id1)[5..] == CardKey(id2)[5..] == IntToString(id2);
      ParseIntOfIntToString(id1);
      ParseIntOfIntToString(id2);
    }
    assert CardKey(id1)[4] == ':' && SearchKey(params, digest)[4] == '_';
  }

  /** Sizes reported by `get_stats`; no Redis client is ever connected in this model. */
  datatype CacheStats = CacheStats(memoryCacheSize: nat, diskCacheSize: nat, redisAvailable: bool)

  /** `CacheService`, with the disk tier it opened. */
  class CacheService<V> {
    var memory: map<string, Entry<V>>
    var disk: map<string, Entry<V>>

    function State(): Tiers<V>
      reads this
    {
      Tiers(memory, disk)
    }

    /** A fresh service: empty memory over whatever the disk tier already holds. */
    constructor(disk: map<string, Entry<V>>)
      ensures State() == Tiers(map[], disk)
    {
      memory := map[];
      this.disk := disk;
    }

    /** `get(key)` at `now`; `diskOk` says whether the disk read succeeds. */
    method Get(key: string, now: real, diskOk: bool) returns (r: Option<V>)
      modifies this
      ensures (r, State()) == Lookup(old(State()), key, now, diskOk)
    {
      if key in memory {
        var entry := memory[key];
        if entry.expiresAt > now {
          return Some(entry.data);
        } else {
          memory := memory - {key};
        }
      }
      assert memory == old(memory) - {key};
      if diskOk && key in disk && disk[key].expiresAt > now {
        var data := disk[key].data;
        memory := memory[key := Entry(data, now + DefaultTtl as real)];
        return Some(data);
      }
      r := None;
    }

    /** `set(key, value, ttl)` at `now`; `diskOk` says whether the disk write succeeds. */
    method Set(key: string, value: V, ttl: Option<nat>, now: real, diskOk: bool)
      modifies this
      ensures State() == Store(old(State()), key, value, ttl, now, diskOk)
    {
      var seconds := if ttl.None? then DefaultTtl else ttl.value;
      memory := memory[key := Entry(value, now + seconds as real)];
      if diskOk {
        disk := disk[key := Entry(value, now + seconds as real)];
      }
    }

    /** `delete(key)`; `diskOk` says whether the disk delete succeeds. */
    method Delete(key: string, diskOk: bool)
      modifies this
      ensures State() == Remove(old(State()), key, diskOk)
    {
      if key in memory {
        memory := memory - {key};
      }
      if diskOk {
        disk := disk - {key};
      }
    }

    /** `clear_expired` at `now`: collect the stale keys, then delete them one by one. */
    method ClearExpiredEntries(now: real)
      modifies this
      ensures State() == ClearExpired(old(State()), now)
    {
      var expired := set k | k in memory && memory[k].expiresAt <= now;
      ghost var stale := expired;
      ghost var start := memory;
      while expired != {}
        invariant expired <= stale
        invariant memory == start - (stale - expired)
        invariant stale == set k | k in start && start[k].expiresAt <= now
        invariant disk == old(disk) && start == old(memory)
        decreases expired
      {
        var k :| k in expired;
        memory := memory - {k};
        expired := expired - {k};
      }
      assert memory == map k | k in start && start[k].expiresAt > now :: start[k];
    }

    /** `get_stats` */
    function Stats(): (s: CacheStats)
      reads this
      ensures s.memoryCacheSize == |memory| && s.diskCacheSize == |disk| && !s.redisAvailable
    {
      CacheStats(|memory|, |disk|, false)
    }

    /** `get_card_search_results` */
    method GetCardSearchResults(params: seq<(string, string)>, digest: seq<(string, string)> -> string,
                                now: real, diskOk: bool) returns (r: Option<V>)
      modifies this
      ensures (r, State()) == Lookup(old(State()), SearchKey(params, digest), now, diskOk)
    {
      r := Get(GenerateCacheKey("card_search", params, digest), now, diskOk);
    }

    /** `cache_card_search_results`: stored for 30 minutes. */
    method CacheCardSearchResults(params: seq<(string, string)>, digest: seq<(string, string)> -> string,
                                  results: V, now: real, diskOk: bool)
      modifies this
      ensures State() == Store(old(State()), SearchKey(params, digest), results, Some(SearchResultsTtl), now, diskOk)
    {
      Set(GenerateCacheKey("card_search", params, digest), results, Some(SearchResultsTtl), now, diskOk);
    }

    /** `get_card_by_id` */
    method GetCardById(cardId: int, now: real, diskOk: bool) returns (r: Option<V>)
      modifies this
      ensures (r, State()) == Lookup(old(State()), CardKey(cardId), now, diskOk)
    {
      r := Get("card:" + IntToString(cardId), now, diskOk);
    }

    /** `cache_card_by_id`: stored for 24 hours. */
    method CacheCardById(cardId: int, cardData: V, now: real, diskOk: bool)
      modifies this
      ensures State() == Store(old(State()), CardKey(cardId), cardData, Some(CardDataTtl), now, diskOk)
    {
      Set("card:" + IntToString(cardId), cardData, Some(CardDataTtl), now, diskOk);
    }
  }
}
