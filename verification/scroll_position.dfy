/**
 * The scroll position cache (src/app/features/planets/services/scroll-position.service.ts):
 * a route-keyed map of scroll offsets with a ten-minute time to live and a
 * bound of twenty entries.
 *
 * The JavaScript `Map` is a sequence of entries in insertion order with
 * distinct routes; `Date.now()` is the `now` parameter of each operation.
 */
module ScrollPosition {
  import opened Options

  const MaxCacheSize := 20
  /** Ten minutes, in milliseconds. */
  const Ttl := 10 * 60 * 1000

  /** One cached route with its offset and the time it was saved. */
  datatype Cached = Cached(route: string, position: int, timestamp: int)

  /** The service: the cache, the enabled signal and whether it runs in a browser. */
  datatype ScrollCache = ScrollCache(entries: seq<Cached>, enabled: bool, isBrowser: bool)

  /** A map never holds a key twice. */
  predicate DistinctRoutes(es: seq<Cached>) {
    forall i, j :: 0 <= i < j < |es| ==> es[i].route != es[j].route
  }

  /** An entry is still valid at `now` unless it is older than the time to live. */
  predicate Fresh(e: Cached, now: int) {
    now - e.timestamp <= Ttl
  }

  // ---------------------------------------------------------------------
  // The map operations

  /** Position of the entry for a route. */
  function IndexOfRoute(es: seq<Cached>, route: string): (r: Option<nat>)
    ensures r.Some? ==> r.value < |es| && es[r.value].route == route
    ensures r.Some? ==> forall j :: 0 <= j < r.value ==> es[j].route != route
    ensures r.None? <==> forall j :: 0 <= j < |es| ==> es[j].route != route
    decreases |es|
  {
    if |es| == 0 then None
    else if es[0].route == route then Some(0)
    else
      match IndexOfRoute(es[1..], route)
      case None => None
      case Some(k) => Some(k + 1)
  }

  /** `scrollPositions.get(route)`. */
  function Lookup(es: seq<Cached>, route: string): (r: Option<Cached>)
    ensures r.Some? ==> r.value in es && r.value.route == route
    ensures r.None? <==> forall j :: 0 <= j < |es| ==> es[j].route != route
  {
    match IndexOfRoute(es, route)
    case None => None
    case Some(i) => Some(es[i])
  }

  /** With distinct routes, the entry found for a route is the one entry that has it. */
  lemma LookupUnique(es: seq<Cached>, i: nat)
    requires DistinctRoutes(es) && i < |es|
    ensures Lookup(es, es[i].route) == Some(es[i])
  {
    var k := IndexOfRoute(es, es[i].route);
    assert k.Some?;
  }

  /** With distinct routes, an entry is found exactly when it is in the cache. */
  lemma LookupIsMembership(es: seq<Cached>, e: Cached)
    requires DistinctRoutes(es)
    ensures Lookup(es, e.route) == Some(e) <==> e in es
  {
    if e in es {
      var i :| 0 <= i < |es| && es[i] == e;
      LookupUnique(es, i);
    }
  }

  /** Putting an entry in front of a duplicate-free sequence whose routes all differ from it. */
  lemma ConsDistinct(c: Cached, rest: seq<Cached>)
    requires DistinctRoutes(rest)
    requires forall e :: e in rest ==> e.route != c.route
    ensures DistinctRoutes([c] + rest)
  {
    var r := [c] + rest;
    forall i, j | 0 <= i < j < |r| ensures r[i].route != r[j].route {
      assert r[j] == rest[j - 1];
      if i > 0 { assert r[i] == rest[i - 1]; }
    }
  }

  /** The first entry's route occurs nowhere else. */
  lemma HeadRouteUnique(es: seq<Cached>)
    requires |es| > 0 && DistinctRoutes(es)
    ensures DistinctRoutes(es[1..])
    ensures forall e :: e in es[1..] ==> e.route != es[0].route
  {
    forall e | e in es[1..] ensures e.route != es[0].route {
      var j :| 0 <= j < |es[1..]| && es[1..][j] == e;
      assert es[j + 1] == e;
    }
  }

  /**
   * `scrollPositions.set(c.route, c)`: a route already present keeps its
   * place and takes the new value; a new route is appended.
   */
  function Put(es: seq<Cached>, c: Cached): (r: seq<Cached>)
    requires DistinctRoutes(es)
    ensures DistinctRoutes(r)
    ensures Lookup(r, c.route) == Some(c)
    ensures Lookup(es, c.route).None? ==> r == es + [c]
    ensures Lookup(es, c.route).Some? ==>
      |r| == |es| && forall i :: 0 <= i < |es| ==> r[i].route == es[i].route && (es[i].route != c.route ==> r[i] == es[i])
    ensures forall e :: e in r ==> e == c || e in es
    ensures forall e :: e in es && e.route != c.route ==> e in r
  {
    match IndexOfRoute(es, c.route)
    case None =>
      var r := es + [c];
      assert r[|es|] == c;
      LookupUnique(r, |es|);
      r
    case Some(i) =>
      var r := es[i := c];
      assert forall j :: 0 <= j < |es| && j != i ==> r[j] == es[j];
      LookupUnique(r, i);
      r
  }

  /** `scrollPositions.delete(route)`. */
  function Remove(es: seq<Cached>, route: string): (r: seq<Cached>)
    requires DistinctRoutes(es)
    ensures DistinctRoutes(r)
    ensures Lookup(r, route).None?
    ensures forall e :: e in r <==> e in es && e.route != route
    ensures Lookup(es, route).None? ==> r == es
    ensures Lookup(es, route).Some? ==> |r| == |es| - 1
    decreases |es|
  {
    if |es| == 0 then []
    else
      HeadRouteUnique(es);
      var rest := Remove(es[1..], route);
      if es[0].route == route then rest
      else
        ConsDistinct(es[0], rest);
        [es[0]] + rest
  }

  // ---------------------------------------------------------------------
  // clearOldPositions

  /** The first loop of `clearOldPositions`: every entry older than the time to live goes, the rest keep their order. */
  function DropExpired(es: seq<Cached>, now: int): (r: seq<Cached>)
    requires DistinctRoutes(es)
    ensures DistinctRoutes(r)
    ensures |r| <= |es|
    ensures forall e :: e in r <==> e in es && Fresh(e, now)
    decreases |es|
  {
    if |es| == 0 then []
    else
      HeadRouteUnique(es);
      var rest := DropExpired(es[1..], now);
      if Fresh(es[0], now) then
        ConsDistinct(es[0], rest);
        [es[0]] + rest
      else rest
  }

  /** Strictly increasing positions. */
  predicate Increasing(s: seq<nat>) {
    forall i, j :: 0 <= i < j < |s| ==> s[i] < s[j]
  }

  /**
   * Entry `i` comes before entry `j` once the entries are sorted by
   * timestamp with a stable sort: an earlier timestamp, or the same one and
   * an earlier position.
   */
  predicate SortsBefore(es: seq<Cached>, i: nat, j: nat)
    requires i < |es| && j < |es|
  {
    es[i].timestamp < es[j].timestamp || (es[i].timestamp == es[j].timestamp && i < j)
  }

  /** Among the positions `live`, the place of the first one with the smallest timestamp. */
  function FirstOldest(es: seq<Cached>, live: seq<nat>): (p: nat)
    requires |live| > 0 && forall q :: 0 <= q < |live| ==> live[q] < |es|
    ensures p < |live|
    ensures forall q :: 0 <= q < |live| ==> es[live[p]].timestamp <= es[live[q]].timestamp
    ensures forall q :: 0 <= q < p ==> es[live[p]].timestamp < es[live[q]].timestamp
    decreases |live|
  {
    if |live| == 1 then 0
    else
      var p := FirstOldest(es, live[1..]);
      if es[live[0]].timestamp <= es[live[p + 1]].timestamp then 0 else p + 1
  }

  /** `live` without its element at place `p`. */
  function Without(live: seq<nat>, p: nat): (rest: seq<nat>)
    requires p < |live|
    ensures |rest| == |live| - 1
    ensures forall q :: 0 <= q < |rest| ==> rest[q] == if q < p then live[q] else live[q + 1]
  {
    live[..p] + live[p + 1..]
  }

  /** Removing one element keeps the rest increasing, and the removed one is the only element lost. */
  lemma WithoutFacts(live: seq<nat>, p: nat)
    requires p < |live| && Increasing(live)
    ensures Increasing(Without(live, p))
    ensures forall j :: j in Without(live, p) ==> j in live && j != live[p]
    ensures forall i :: i in live ==> i == live[p] || i in Without(live, p)
  {
    var rest := Without(live, p);
    forall i | i in live ensures i == live[p] || i in rest {
      var q :| 0 <= q < |live| && live[q] == i;
      if q < p { assert rest[q] == i; } else if q > p { assert rest[q - 1] == i; }
    }
  }

  /** The first oldest of `live` sorts before every other element of `live`. */
  lemma FirstOldestSortsFirst(es: seq<Cached>, live: seq<nat>, p: nat)
    requires Increasing(live) && forall q :: 0 <= q < |live| ==> live[q] < |es|
    requires |live| > 0 && p == FirstOldest(es, live)
    ensures forall j :: j in Without(live, p) ==> SortsBefore(es, live[p], j)
  {
    var rest := Without(live, p);
    forall j | j in rest ensures SortsBefore(es, live[p], j) {
      var q :| 0 <= q < |rest| && rest[q] == j;
      if q < p { assert j == live[q]; } else { assert j == live[q + 1]; }
    }
  }

  /**
   * Sort the positions `live` by timestamp with a stable sort and drop the
   * first `k`: done here by removing, `k` times, the first entry with the
   * smallest timestamp. What is kept stays in order, and every dropped
   * position sorts before every kept one.
   */
  function Evict(es: seq<Cached>, live: seq<nat>, k: nat): (kept: seq<nat>)
    requires Increasing(live) && forall q :: 0 <= q < |live| ==> live[q] < |es|
    requires k <= |live|
    ensures Increasing(kept) && |kept| == |live| - k
    ensures forall j :: j in kept ==> j in live
    ensures forall i, j :: i in live && i !in kept && j in kept ==> SortsBefore(es, i, j)
    decreases k
  {
    if k == 0 then live
    else
      var p := FirstOldest(es, live);
      var rest := Without(live, p);
      WithoutFacts(live, p);
      FirstOldestSortsFirst(es, live, p);
      Evict(es, rest, k - 1)
  }

  /** The positions 0 .. n-1. */
  function Positions(n: nat): (r: seq<nat>)
    ensures |r| == n && Increasing(r)
    ensures forall q :: 0 <= q < n ==> r[q] == q
  {
    seq(n, q => q)
  }

  /** The entries at the given positions, in that order. */
  function Select(es: seq<Cached>, idx: seq<nat>): (r: seq<Cached>)
    requires forall q :: 0 <= q < |idx| ==> idx[q] < |es|
    ensures |r| == |idx| && forall q :: 0 <= q < |idx| ==> r[q] == es[idx[q]]
  {
    seq(|idx|, q requires 0 <= q < |idx| => es[idx[q]])
  }

  /**
   * Keeping the positions `kept` of all positions of a duplicate-free
   * sequence: the entries kept are distinct and in the sequence, and no
   * entry left out is newer than one kept.
   */
  lemma SelectFacts(rest: seq<Cached>, kept: seq<nat>)
    requires DistinctRoutes(rest)
    requires Increasing(kept) && forall q :: 0 <= q < |kept| ==> kept[q] in Positions(|rest|)
    requires forall i, j :: i in Positions(|rest|) && i !in kept && j in kept ==> SortsBefore(rest, i, j)
    ensures DistinctRoutes(Select(rest, kept))
    ensures forall e :: e in Select(rest, kept) ==> e in rest
    ensures forall e, f :: e in rest && e !in Select(rest, kept) && f in Select(rest, kept) ==> e.timestamp <= f.timestamp
  {
    var live := Positions(|rest|);
    var r := Select(rest, kept);
    forall e | e in r ensures e in rest {
      var b :| 0 <= b < |r| && r[b] == e;
      assert live[kept[b]] == kept[b];
    }
    forall e, f | e in rest && e !in r && f in r ensures e.timestamp <= f.timestamp {
      var a :| 0 <= a < |rest| && rest[a] == e;
      var b :| 0 <= b < |r| && r[b] == f;
      assert live[a] == a;
      assert live[kept[b]] == kept[b];
      assert SortsBefore(rest, a, kept[b]);
    }
  }

  /**
   * `clearOldPositions`. Expired entries go first. When twenty or more
   * remain, the oldest go until nineteen are left; no entry left behind is
   * older than one that went, and nothing else is dropped.
   */
  function ClearOldPositions(es: seq<Cached>, now: int): (r: seq<Cached>)
    requires DistinctRoutes(es)
    ensures DistinctRoutes(r)
    ensures |r| < MaxCacheSize
    ensures forall e :: e in r ==> e in es && Fresh(e, now)
    ensures |DropExpired(es, now)| < MaxCacheSize ==> r == DropExpired(es, now)
    ensures |DropExpired(es, now)| >= MaxCacheSize ==> |r| == MaxCacheSize - 1
    ensures forall e, f :: e in DropExpired(es, now) && e !in r && f in r ==> e.timestamp <= f.timestamp
  {
    var rest := DropExpired(es, now);
    if |rest| < MaxCacheSize then rest
    else
      var live := Positions(|rest|);
      var kept := Evict(rest, live, |rest| - MaxCacheSize + 1);
      assert forall q :: 0 <= q < |kept| ==> kept[q] in live;
      var r := Select(rest, kept);
      SelectFacts(rest, kept);
      r
  }

  // ---------------------------------------------------------------------
  // The service

  /** The cache's own invariant plus its size bound. */
  predicate Valid(s: ScrollCache) {
    DistinctRoutes(s.entries) && |s.entries| <= MaxCacheSize
  }

  /**
   * `saveScrollPosition(route, position)` at time `now`. Outside a browser or
   * when disabled nothing happens. Otherwise a full cache is cleaned first,
   * even when the route is already cached, and then the route maps to the
   * position and `now`.
   */
  function Save(s: ScrollCache, route: string, position: int, now: int): (t: ScrollCache)
    requires DistinctRoutes(s.entries)
    ensures t.enabled == s.enabled && t.isBrowser == s.isBrowser
    ensures !s.isBrowser || !s.enabled ==> t == s
    ensures s.isBrowser && s.enabled ==>
      && Valid(t)
      && Lookup(t.entries, route) == Some(Cached(route, position, now))
    ensures s.isBrowser && s.enabled && |s.entries| < MaxCacheSize ==>
      forall other :: other != route ==> Lookup(t.entries, other) == Lookup(s.entries, other)
    ensures s.isBrowser && s.enabled && |s.entries| >= MaxCacheSize ==>
      forall e :: e in t.entries && e.route != route ==> e in s.entries && Fresh(e, now)
  {
    if !s.isBrowser || !s.enabled then s
    else
      var cleaned := if |s.entries| >= MaxCacheSize then ClearOldPositions(s.entries, now) else s.entries;
      var entries := Put(cleaned, Cached(route, position, now));
      var t := s.(entries := entries);
      assert |s.entries| < MaxCacheSize ==> forall other :: other != route ==> Lookup(t.entries, other) == Lookup(s.entries, other) by {
        if |s.entries| < MaxCacheSize {
          forall other | other != route ensures Lookup(t.entries, other) == Lookup(s.entries, other) {
            var l := Lookup(s.entries, other);
            if l.Some? {
              LookupIsMembership(s.entries, l.value);
              LookupIsMembership(t.entries, l.value);
            }
          }
        }
      }
      t
  }

  /**
   * `restoreScrollPosition(route)` at time `now`: the new cache and the
   * offset handed to the scroll restorer, if any. An entry older than the
   * time to live is deleted and nothing is restored; one exactly as old as
   * the time to live is still restored.
   */
  function Restore(s: ScrollCache, route: string, now: int): (r: (ScrollCache, Option<int>))
    requires DistinctRoutes(s.entries)
    ensures !s.isBrowser || !s.enabled ==> r == (s, None)
    ensures Lookup(s.entries, route).None? ==> r == (s, None)
    ensures s.isBrowser && s.enabled && Lookup(s.entries, route).Some? ==>
      var c := Lookup(s.entries, route).value;
      && (Fresh(c, now) ==> r == (s, Some(c.position)))
      && (!Fresh(c, now) ==>
          && r.1 == None
          && r.0.enabled == s.enabled && r.0.isBrowser == s.isBrowser
          && DistinctRoutes(r.0.entries) && |r.0.entries| == |s.entries| - 1
          && (forall e :: e in r.0.entries <==> e in s.entries && e != c))
  {
    if !s.isBrowser || !s.enabled then (s, None)
    else
      match Lookup(s.entries, route)
      case None => (s, None)
      case Some(c) =>
        if now - c.timestamp > Ttl then (s.(entries := Remove(s.entries, route)), None)
        else (s, Some(c.position))
  }

  /** `clearAllPositions`. */
  function ClearAll(s: ScrollCache): (t: ScrollCache)
    ensures forall route :: Lookup(t.entries, route).None?
    ensures t.enabled == s.enabled && t.isBrowser == s.isBrowser
  {
    s.(entries := [])
  }

  /** `setEnabled`: only the flag changes. */
  function SetEnabled(s: ScrollCache, enabled: bool): (t: ScrollCache)
    ensures t.enabled == enabled
    ensures t.entries == s.entries && t.isBrowser == s.isBrowser
  {
    s.(enabled := enabled)
  }

  /** What can happen to the cache, each at its own time. */
  datatype CacheEvent =
    | Saved(route: string, position: int, now: int)
    | Restored(route: string, now: int)
    | ClearedAll
    | EnabledSet(enabled: bool)

  /** One operation; each keeps the cache valid. */
  function Step(s: ScrollCache, e: CacheEvent): (t: ScrollCache)
    requires Valid(s)
    ensures Valid(t)
  {
    match e
    case Saved(route, position, now) => Save(s, route, position, now)
    case Restored(route, now) => Restore(s, route, now).0
    case ClearedAll => ClearAll(s)
    case EnabledSet(b) => SetEnabled(s, b)
  }

  /** No sequence of operations takes the cache past twenty entries or gives a route two entries. */
  function Run(s: ScrollCache, events: seq<CacheEvent>): (t: ScrollCache)
    requires Valid(s)
    ensures Valid(t)
    decreases |events|
  {
    if |events| == 0 then s else Run(Step(s, events[0]), events[1..])
  }

  /** A duplicate-free sequence whose entries all occur in another duplicate-free sequence is no longer. */
  lemma SubsetOfDistinctIsShorter(a: seq<Cached>, b: seq<Cached>)
    requires DistinctRoutes(a) && DistinctRoutes(b)
    requires forall e :: e in a ==> e in b
    ensures |a| <= |b|
  {
    var sa := set i | 0 <= i < |a| :: a[i];
    var sb := set i | 0 <= i < |b| :: b[i];
    forall x | x in sa ensures x in sb {
      var i :| 0 <= i < |a| && a[i] == x;
      assert a[i] in b;
      var j :| 0 <= j < |b| && b[j] == x;
    }
    DistinctCard(a);
    DistinctCard(b);
    assert |sa| <= |sb| by { SubsetCard(sa, sb); }
  }

  lemma DistinctCard(a: seq<Cached>)
    requires DistinctRoutes(a)
    ensures |set i | 0 <= i < |a| :: a[i]| == |a|
  {
    if |a| > 0 {
      var init := a[..|a| - 1];
      DistinctCard(init);
      var si := set i | 0 <= i < |init| :: init[i];
      var sa := set i | 0 <= i < |a| :: a[i];
      assert sa == si + {a[|a| - 1]};
      assert a[|a| - 1] !in si;
    }
  }

  lemma SubsetCard<T>(x: set<T>, y: set<T>)
    requires x <= y
    ensures |x| <= |y|
  {
    assert y == x + (y - x);
  }

  /**
   * Re-saving a route that is already cached, with twenty fresh entries and
   * an older entry than the route's own, evicts some other route.
   */
  lemma ResaveAtCapacityEvictsAnotherRoute(s: ScrollCache, route: string, position: int, now: int, older: nat)
    requires s.isBrowser && s.enabled && DistinctRoutes(s.entries)
    requires |s.entries| == MaxCacheSize
    requires forall e :: e in s.entries ==> Fresh(e, now)
    requires Lookup(s.entries, route).Some?
    requires older < |s.entries| && s.entries[older].timestamp < Lookup(s.entries, route).value.timestamp
    ensures exists i ::
      0 <= i < |s.entries| && s.entries[i].route != route && Lookup(Save(s, route, position, now).entries, s.entries[i].route).None?
  {
    var es := s.entries;
    var rest := DropExpired(es, now);
    assert forall e :: e in rest <==> e in es;
    SubsetOfDistinctIsShorter(es, rest);
    var cleaned := ClearOldPositions(es, now);
    assert |cleaned| == MaxCacheSize - 1;
    // Some entry of `rest` went; it cannot be the route's own entry.
    var c := Lookup(es, route).value;
    var gone: Cached :| gone in rest && gone !in cleaned by {
      if forall e :: e in rest ==> e in cleaned {
        SubsetOfDistinctIsShorter(rest, cleaned);
        assert false;
      }
    }
    assert gone.route != route by {
      if gone.route == route {
        LookupIsMembership(es, gone);
        assert gone == c;
        var o := es[older];
        assert o !in cleaned;
        assert o in rest;
        // Only one entry went, so `older` stayed.
        OnlyOneGone(rest, cleaned, gone, o);
        assert false;
      }
    }
    var i :| 0 <= i < |es| && es[i] == gone;
    var t := Save(s, route, position, now).entries;
    if Lookup(t, gone.route).Some? {
      var e := Lookup(t, gone.route).value;
      assert e in es && e.route == gone.route;
      LookupIsMembership(es, e);
      LookupIsMembership(es, gone);
      assert false;
    }
  }

  /** When one entry fewer survives and every survivor was there before, only one entry went. */
  lemma OnlyOneGone(rest: seq<Cached>, cleaned: seq<Cached>, a: Cached, b: Cached)
    requires DistinctRoutes(rest) && DistinctRoutes(cleaned)
    requires |cleaned| == |rest| - 1
    requires forall e :: e in cleaned ==> e in rest
    requires a in rest && b in rest && a != b
    ensures a in cleaned || b in cleaned
  {
    if a !in cleaned && b !in cleaned {
      var sr := set i | 0 <= i < |rest| :: rest[i];
      var sc := set i | 0 <= i < |cleaned| :: cleaned[i];
      DistinctCard(rest);
      DistinctCard(cleaned);
      forall x | x in sc ensures x in sr - {a, b} {
        var i :| 0 <= i < |cleaned| && cleaned[i] == x;
        assert cleaned[i] in rest;
        var j :| 0 <= j < |rest| && rest[j] == x;
      }
      SubsetCard(sc, sr - {a, b});
    }
  }
}
