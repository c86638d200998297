/**
 The certificate cache with generations (app/services/dashboard.py). Every block under the cache
 lock is one step; lookups, fetches and invalidations interleave in any order.
 */
module CertificateCache {
  import opened Wrappers
  import S = Sorting
  import Counting

  type Info = int

  datatype Entry = Entry(at: int, info: Info)

  type Cache = map<string, Entry>
  type Generations = map<string, nat>

  const MAX_ENTRIES: nat := 1000
  const TTL_SECONDS := 600
  const SECOND := 1_000_000

  function GenerationOf(g: Generations, d: string): nat {
    if d in g then g[d] else 0
  }

  // ---------------------------------------------------------------- pruning

  /** `kept` is what pruning may leave: no more than the limit, and nothing evicted is newer than anything kept. */
  predicate IsPruned(before: Cache, kept: Cache) {
    && kept.Keys <= before.Keys && (forall d :: d in kept ==> kept[d] == before[d])
    && |kept| == (if |before| <= 1000 then |before| else 1000)
    && (forall d, k :: d in before && d !in kept && k in kept ==> before[d].at <= before[k].at)
  }

  type Item = (string, int)

  /** The items of the cache with their times, each key once. */
  predicate IsItems(items: seq<Item>, cache: Cache) {
    && |items| == |cache|
    && (forall i, j :: 0 <= i < j < |items| ==> items[i].0 != items[j].0)
    && (forall i :: 0 <= i < |items| ==> items[i].0 in cache && items[i].1 == cache[items[i].0].at)
    && (forall d :: d in cache ==> (d, cache[d].at) in items)
  }

  predicate ByTime(a: Item, b: Item) {
    a.1 <= b.1
  }

  method ItemsOf(cache: Cache) returns (items: seq<Item>)
    ensures IsItems(items, cache)
  {
    items := [];
    var left := cache.Keys;
    while left != {}
      invariant left <= cache.Keys && |items| + |left| == |cache|
      invariant forall i, j :: 0 <= i < j < |items| ==> items[i].0 != items[j].0
      invariant forall i :: 0 <= i < |items| ==> items[i].0 in cache.Keys - left && items[i].1 == cache[items[i].0].at
      invariant forall d :: d in cache.Keys - left ==> (d, cache[d].at) in items
      decreases left
    {
      var d :| d in left;
      ghost var before := items;
      items, left := items + [(d, cache[d].at)], left - {d};
      assert forall x :: x in before ==> x in items;
      assert items[|before|] == (d, cache[d].at);
    }
  }

  /** Sorting the items keeps them items of the same cache. */
  lemma SortedItems(items: seq<Item>, sorted: seq<Item>, cache: Cache)
    requires IsItems(items, cache) && multiset(sorted) == multiset(items)
    ensures IsItems(sorted, cache)
  {
    assert |sorted| == |multiset(sorted)| == |items|;
    forall x ensures x in sorted <==> x in items {
      assert x in sorted <==> x in multiset(sorted);
      assert x in items <==> x in multiset(items);
    }
    forall i | 0 <= i < |sorted| ensures sorted[i].0 in cache && sorted[i].1 == cache[sorted[i].0].at {
      assert sorted[i] in items;
    }
    forall i, j | 0 <= i < j < |sorted| ensures sorted[i].0 != sorted[j].0 {
      Counting.DistinctCount(items, sorted[i]);
      if sorted[i] == sorted[j] {
        Counting.TwiceCounts(sorted, i, j);
      }
    }
  }

  lemma ItemsSize(items: seq<Item>, cache: Cache)
    requires IsItems(items, cache)
    ensures |items| == |cache|
  {
  }

  /** The keys of the first `n` items. */
  function Taken(items: seq<Item>, n: nat): set<string>
    requires n <= |items|
  {
    set i | 0 <= i < n :: items[i].0
  }

  lemma TakenStep(items: seq<Item>, n: nat)
    requires n < |items|
    ensures Taken(items, n + 1) == Taken(items, n) + {items[n].0}
  {
  }

  lemma {:induction false} TakenSize(items: seq<Item>, cache: Cache, n: nat)
    requires IsItems(items, cache) && n <= |items|
    ensures |Taken(items, n)| == n && Taken(items, n) <= cache.Keys
  {
    hide *;
    TakenNone(items);
    if n > 0 {
      TakenSize(items, cache, n - 1);
      TakenStep(items, n - 1);
      NotTakenYet(items, cache, n - 1);
    }
  }

  lemma TakenNone(items: seq<Item>)
    ensures Taken(items, 0) == {}
  {
  }

  lemma NotTakenYet(items: seq<Item>, cache: Cache, n: nat)
    requires IsItems(items, cache) && n < |items|
    ensures items[n].0 !in Taken(items, n) && items[n].0 in cache
  {
  }

  /** Taking out the oldest items prunes the cache. */
  lemma OldestTaken(cache: Cache, sorted: seq<Item>, n: nat)
    requires IsItems(sorted, cache) && S.IsSorted(sorted, ByTime)
    requires |cache| > MAX_ENTRIES && n == |cache| - MAX_ENTRIES
    ensures IsPruned(cache, cache - Taken(sorted, n))
  {
    TakenSize(sorted, cache, n);
    var kept, taken := cache - Taken(sorted, n), Taken(sorted, n);
    KeptSize(cache, taken);
    forall d, k | d in cache && d !in kept && k in kept ensures cache[d].at <= cache[k].at {
      var i :| 0 <= i < n && sorted[i].0 == d;
      assert (k, cache[k].at) in sorted;
      var j :| 0 <= j < |sorted| && sorted[j] == (k, cache[k].at);
      assert j >= n;
      assert ByTime(sorted[i], sorted[j]);
    }
  }

  lemma KeptSize(cache: Cache, taken: set<string>)
    requires taken <= cache.Keys
    ensures |cache - taken| == |cache| - |taken|
  {
    assert (cache - taken).Keys == cache.Keys - taken;
    assert cache.Keys == (cache.Keys - taken) + taken;
    assert |(cache - taken).Keys| == |cache.Keys| - |taken|;
  }

  lemma ByTimeIsOrder()
    ensures S.IsOrder(ByTime)
  {
  }

  // ---------------------------------------------------------------- the module's dictionaries

  /** The results by name. Of two results for one name the later counts. */
  function Named(domains: seq<string>, infos: seq<Info>, n: nat): map<string, Info>
    requires n <= |domains| == |infos|
  {
    if n == 0 then map[] else Named(domains, infos, n - 1)[domains[n - 1] := infos[n - 1]]
  }

  lemma {:induction false} NamedKeys(domains: seq<string>, infos: seq<Info>, n: nat)
    requires n <= |domains| == |infos|
    ensures Named(domains, infos, n).Keys == set d | d in domains[..n]
  {
    if n > 0 {
      NamedKeys(domains, infos, n - 1);
      assert domains[..n] == domains[..n - 1] + [domains[n - 1]];
    }
  }

  /** The results that are stored: those of the names whose generation is the one read. */
  function Passing(g: Generations, read: Generations, infos: map<string, Info>, now: int): Cache {
    map d | d in infos && d in read && GenerationOf(g, d) == read[d] :: Entry(now, infos[d])
  }

  /** One more result is stored if the generation of its name is the one read. */
  lemma PassingStep(g: Generations, read: Generations, infos: map<string, Info>, d: string, info: Info, now: int)
    requires d in read
    ensures Passing(g, read, infos[d := info], now) ==
      if GenerationOf(g, d) == read[d] then Passing(g, read, infos, now)[d := Entry(now, info)]
        else Passing(g, read, infos, now)
  {
    hide GenerationOf;
  }

  lemma StoredStep(s: State, call: Call, domains: seq<string>, infos: seq<Info>, n: nat, now: int)
    requires n < |domains| == |infos| && domains[n] in call.read
    ensures Stored(s, call, Named(domains, infos, n + 1), now) ==
      if GenerationOf(s.generations, domains[n]) == call.read[domains[n]]
      then Stored(s, call, Named(domains, infos, n), now)[domains[n] := Entry(now, infos[n])]
      else Stored(s, call, Named(domains, infos, n), now)
  {
    hide GenerationOf, Passing;
    PassingStep(s.generations, call.read, Named(domains, infos, n), domains[n], infos[n], now);
  }

  /**
   The dictionaries of the module. A running fetch is named by the step at which it was started.
   `state` adds what only the lookups know, and each method is one step of it.
   */
  class Dictionaries {
    var cache: Cache
    var generations: Generations
    var fetches: map<string, nat>
    var clock: nat
    ghost var state: State

    ghost predicate Valid()
      reads this
    {
      && cache == state.cache && generations == state.generations && fetches == state.fetches && clock == state.clock
      && Current(state)
    }

    constructor ()
      ensures Valid() && state == State(map[], map[], map[], map[], 0, map[], map[], map[])
    {
      cache, generations, fetches, clock := map[], map[], map[], 0;
      state := State(map[], map[], map[], map[], 0, map[], map[], map[]);
    }

    /** `invalidate_certificate_cache`, for a normalized name. */
    method Invalidate(d: string)
      requires Valid()
      modifies this
      ensures Valid() && Possible(old(state), Step.Invalidate(d)) && state == Take(old(state), Step.Invalidate(d))
    {
      hide Current;
      generations := generations[d := GenerationOf(generations, d) + 1];
      cache := cache - {d};
      clock := clock + 1;
      StepKeepsCurrent(state, Step.Invalidate(d));
      state := Take(state, Step.Invalidate(d));
    }

    /** The first block of a lookup: valid entries are answered, the rest is to be fetched. */
    method Lookup(domains: seq<string>, now: int) returns (found: map<string, Info>, missing: seq<string>)
      ensures forall d :: d in found <==> d in domains && d in cache && now - cache[d].at < 600 * 1_000_000
      ensures forall d :: d in found ==> found[d] == cache[d].info
      ensures forall d :: d in missing <==> d in domains && d !in found
    {
      found, missing := map[], [];
      for i := 0 to |domains|
        invariant forall d :: d in found <==>
            d in domains[..i] && d in cache && now - cache[d].at < TTL_SECONDS * SECOND
        invariant forall d :: d in found ==> found[d] == cache[d].info
        invariant forall d :: d in missing <==> d in domains[..i] && d !in found
      {
        var d := domains[i];
        assert domains[..i + 1] == domains[..i] + [d];
        if d in cache && now - cache[d].at < TTL_SECONDS * SECOND {
          found := found[d := cache[d].info];
        } else {
          missing := missing + [d];
        }
      }
      assert domains[..|domains|] == domains;
    }

    /** The second block of a lookup. */
    method ReadGenerations(ghost call: nat, domains: seq<string>) returns (read: Generations)
      requires Valid() && call !in state.calls
      modifies this
      ensures Valid() && state == Take(old(state), Read(call, set d | d in domains))
      ensures call in state.calls && read == state.calls[call].read
    {
      hide Current, Take, Possible, GenerationOf;
      read := map d | d in domains :: GenerationOf(generations, d);
      clock := clock + 1;
      ghost var names := set d | d in domains;
      ReadIs(state, call, names);
      StepKeepsCurrent(state, Read(call, names));
      state := Take(state, Read(call, names));
    }

    /** The block of `_get_or_start_certificate_fetch` before the wait. */
    method JoinFetch(ghost call: nat, d: string) returns (fetch: nat)
      requires Valid() && Possible(state, Join(call, d))
      modifies this
      ensures Valid() && state == Take(old(state), Join(call, d))
      ensures fetch == state.calls[call].joined[d]
    {
      hide Current;
      clock := clock + 1;
      if d !in fetches {
        fetches := fetches[d := clock];
      }
      fetch := fetches[d];
      StepKeepsCurrent(state, Join(call, d));
      state := Take(state, Join(call, d));
    }

    /** The block after the wait: the fetch is taken out, unless another one has its place. */
    method FinishFetch(d: string, fetch: nat)
      requires Valid()
      modifies this
      ensures Valid() && state ==
        if d in old(fetches) && old(fetches)[d] == fetch then Take(old(state), Finish(d)) else old(state)
    {
      hide Current;
      if d in fetches && fetches[d] == fetch {
        fetches := fetches - {d};
        clock := clock + 1;
        StepKeepsCurrent(state, Finish(d));
        state := Take(state, Finish(d));
      }
    }

    /** The last block of a lookup. */
    method StoreResults(ghost call: nat, domains: seq<string>, infos: seq<Info>, read: Generations, now: int)
      requires Valid() && |infos| == |domains| && call in state.calls && read == state.calls[call].read
      requires read.Keys == state.calls[call].joined.Keys == set d | d in domains
      modifies this
      ensures Valid()
      ensures Possible(old(state), Store(call, Named(domains, infos, |domains|), now, cache))
      ensures state == Take(old(state), Store(call, Named(domains, infos, |domains|), now, cache))
    {
      hide Current, IsPruned, Stored, GenerationOf, Named, Take, Possible;
      MergeResults(state.calls[call], domains, infos, read, now);
      Prune();
      clock := clock + 1;
      AllNamed(domains, infos);
      StorePossible(state, call, Named(domains, infos, |domains|), now, cache);
      ghost var step := Store(call, Named(domains, infos, |domains|), now, cache);
      StepKeepsCurrent(state, step);
      state := Take(state, step);
    }

    /** The loop over the results. */
    method MergeResults(ghost c: Call, domains: seq<string>, infos: seq<Info>, read: Generations, now: int)
      requires cache == state.cache && generations == state.generations && read == c.read
      requires |infos| == |domains| && forall d :: d in domains ==> d in read
      modifies this`cache
      ensures cache == Stored(state, c, Named(domains, infos, |domains|), now)
    {
      hide Stored, GenerationOf, Named;
      StoredNothing(state, c, domains, infos, now);
      for n := 0 to |domains|
        invariant cache == Stored(state, c, Named(domains, infos, n), now)
      {
        StoredStep(state, c, domains, infos, n, now);
        if GenerationOf(generations, domains[n]) == read[domains[n]] {
          cache := cache[domains[n] := Entry(now, infos[n])];
        }
      }
    }

    /** `_prune_cert_cache`. */
    method Prune()
      modifies this`cache
      ensures IsPruned(old(cache), cache)
    {
      hide IsItems, S.Sort, S.IsSorted, S.IsOrder, ByTime;
      if |cache| <= MAX_ENTRIES {
        return;
      }
      var before := cache;
      var overflow := |cache| - MAX_ENTRIES;
      var items := ItemsOf(cache);
      var sorted := S.Sort(items, ByTime);
      S.SortPermutes(items, ByTime);
      ByTimeIsOrder();
      S.SortSorts(items, ByTime);
      SortedItems(items, sorted, before);
      ItemsSize(sorted, before);
      RemoveFirst(sorted, overflow);
      OldestTaken(before, sorted, overflow);
    }

    method RemoveFirst(items: seq<Item>, count: nat)
      requires count <= |items|
      modifies this`cache
      ensures cache == old(cache) - Taken(items, count)
    {
      ghost var before := cache;
      for n := 0 to count
        invariant cache == before - Taken(items, n)
      {
        TakenStep(items, n);
        cache := cache - {items[n].0};
      }
    }
  }

  lemma AllNamed(domains: seq<string>, infos: seq<Info>)
    requires |domains| == |infos|
    ensures Named(domains, infos, |domains|).Keys == set d | d in domains
  {
    NamedKeys(domains, infos, |domains|);
    assert domains[..|domains|] == domains;
  }

  lemma StorePossible(s: State, call: nat, infos: map<string, Info>, now: int, kept: Cache)
    requires call in s.calls && infos.Keys == s.calls[call].read.Keys && infos.Keys == s.calls[call].joined.Keys
    requires IsPruned(Stored(s, s.calls[call], infos, now), kept)
    ensures Possible(s, Store(call, infos, now, kept))
    ensures var t := Take(s, Store(call, infos, now, kept));
            t.cache == kept && t.generations == s.generations && t.fetches == s.fetches && t.clock == s.clock + 1
  {
    hide IsPruned, Stored;
  }

  lemma ReadIs(s: State, call: nat, names: set<string>)
    requires call !in s.calls
    ensures Possible(s, Read(call, names))
    ensures var t := Take(s, Read(call, names));
            && call in t.calls && t.calls[call].read == (map d | d in names :: GenerationOf(s.generations, d))
            && t.cache == s.cache && t.generations == s.generations && t.fetches == s.fetches && t.clock == s.clock + 1
  {
    hide GenerationOf;
  }

  lemma StoredNothing(s: State, call: Call, domains: seq<string>, infos: seq<Info>, now: int)
    requires |domains| == |infos|
    ensures Stored(s, call, Named(domains, infos, 0), now) == s.cache
  {
  }

  // ---------------------------------------------------------------- all interleavings

  /** A lookup between its second block and its last: the generations it read, and when. */
  datatype Call = Call(read: Generations, readAt: nat, joined: map<string, nat>)

  /**
   The dictionaries with the running fetches (by the time each began), the running lookups, a clock
   that counts steps, the last invalidation of each name, and for each cached name when the storing
   lookup had read its generation and when the stored fetch had begun.
   */
  datatype State = State(
    cache: Cache, generations: Generations, fetches: map<string, nat>, calls: map<nat, Call>,
    clock: nat, invalidated: map<string, nat>, readAt: map<string, nat>, fetchedAt: map<string, nat>)

  datatype Step =
    | Invalidate(d: string)
    | Read(call: nat, domains: set<string>)
    | Join(call: nat, d: string)
    | Finish(d: string)
    | Store(call: nat, infos: map<string, Info>, now: int, kept: Cache)

  function LastInvalidation(s: State, d: string): nat {
    if d in s.invalidated then s.invalidated[d] else 0
  }

  function Stored(s: State, call: Call, infos: map<string, Info>, now: int): Cache {
    s.cache + Passing(s.generations, call.read, infos, now)
  }

  predicate Possible(s: State, step: Step) {
    match step
    case Invalidate(_) => true
    case Read(call, _) => call !in s.calls
    case Join(call, d) => call in s.calls && d in s.calls[call].read && d !in s.calls[call].joined
    case Finish(d) => d in s.fetches
    case Store(call, infos, now, kept) =>
      call in s.calls && infos.Keys == s.calls[call].read.Keys && infos.Keys == s.calls[call].joined.Keys
      && IsPruned(Stored(s, s.calls[call], infos, now), kept)
  }

  /** One block under the lock, or the end of a fetch. */
  function Take(s: State, step: Step): State
    requires Possible(s, step)
  {
    var t := s.clock + 1;
    match step
    case Invalidate(d) =>
      s.(cache := s.cache - {d}, generations := s.generations[d := GenerationOf(s.generations, d) + 1], clock := t,
        invalidated := s.invalidated[d := t])
    case Read(call, domains) =>
      s.(calls := s.calls[call := Call(map d | d in domains :: GenerationOf(s.generations, d), t, map[])], clock := t)
    case Join(call, d) =>
      var began := if d in s.fetches then s.fetches[d] else t;
      var c := s.calls[call];
      s.(fetches := s.fetches[d := began], calls := s.calls[call := c.(joined := c.joined[d := began])], clock := t)
    case Finish(d) => s.(fetches := s.fetches - {d}, clock := t)
    case Store(call, infos, now, kept) =>
      var c := s.calls[call];
      var current := set d | d in infos && GenerationOf(s.generations, d) == c.read[d];
      s.(cache := kept, calls := s.calls - {call}, clock := t,
         readAt := s.readAt + (map d | d in current :: c.readAt),
         fetchedAt := s.fetchedAt + (map d | d in current :: c.joined[d]))
  }

  /** A generation that is still current was read after the last invalidation. */
  predicate Honest(s: State, c: Call) {
    c.readAt <= s.clock && forall d :: d in c.read ==>
      c.read[d] <= GenerationOf(s.generations, d)
          && (c.read[d] == GenerationOf(s.generations, d) ==> LastInvalidation(s, d) < c.readAt)
  }

  /** Every cached entry was stored by a lookup that read the generation after the last invalidation. */
  predicate Current(s: State) {
    && |s.cache| <= 1000
    && (forall d :: d in s.invalidated ==> s.invalidated[d] <= s.clock)
    && (forall c :: c in s.calls ==> Honest(s, s.calls[c]))
    && (forall d :: d in s.cache ==> IsCurrent(s, d))
  }

  predicate IsCurrent(s: State, d: string) {
    d in s.readAt && LastInvalidation(s, d) < s.readAt[d]
  }

  lemma StepKeepsCurrent(s: State, step: Step)
    requires Current(s) && Possible(s, step)
    ensures Current(Take(s, step))
  {
    match step
    case Invalidate(d) => InvalidateKeeps(s, d);
    case Read(call, domains) => ReadKeeps(s, call, domains);
    case Join(call, d) => JoinKeeps(s, call, d);
    case Finish(d) => FinishKeeps(s, d);
    case Store(call, infos, now, kept) => StoreKeeps(s, call, infos, now, kept);
  }

  /** Generations and invalidations decide whether a call is honest. */
  lemma HonestLater(s: State, t: State, c: Call)
    requires Honest(s, c) && t.generations == s.generations && t.invalidated == s.invalidated && s.clock <= t.clock
    ensures Honest(t, c)
  {
  }

  lemma HonestInvalidated(s: State, t: State, c: Call, d: string)
    requires Honest(s, c) && t.generations == s.generations[d := GenerationOf(s.generations, d) + 1]
    requires t.invalidated == s.invalidated[d := s.clock + 1] && t.clock == s.clock + 1
    ensures Honest(t, c)
  {
  }

  lemma HonestNow(s: State, domains: set<string>, c: Call)
    requires c.read == map d | d in domains :: GenerationOf(s.generations, d)
    requires c.readAt == s.clock && forall d :: d in s.invalidated ==> s.invalidated[d] < s.clock
    requires s.clock > 0
    ensures Honest(s, c)
  {
  }

  lemma InvalidateKeeps(s: State, d: string)
    requires Current(s)
    ensures Current(Take(s, Invalidate(d)))
  {
    hide MAX_ENTRIES, Honest, IsCurrent, Take, Possible, Current;
    InvalidateIs(s, d);
    var t := Take(s, Invalidate(d));
    Fewer(s.cache, d);
    CurrentParts(s);
    forall c | c in t.calls ensures Honest(t, t.calls[c]) {
      HonestInvalidated(s, t, s.calls[c], d);
    }
    forall e | e in t.cache ensures IsCurrent(t, e) {
      OtherInvalidation(s, t, d, e);
      StaysCurrent(s, t, e);
    }
    CurrentFrom(t);
  }

  lemma InvalidateIs(s: State, d: string)
    ensures Possible(s, Invalidate(d))
    ensures Take(s, Invalidate(d)) ==
      State(s.cache - {d}, s.generations[d := GenerationOf(s.generations, d) + 1], s.fetches, s.calls,
            s.clock + 1, s.invalidated[d := s.clock + 1], s.readAt, s.fetchedAt)
  {
  }

  lemma OtherInvalidation(s: State, t: State, d: string, e: string)
    requires t.invalidated == s.invalidated[d := s.clock + 1] && e != d
    ensures LastInvalidation(t, e) == LastInvalidation(s, e)
  {
  }

  lemma CurrentParts(s: State)
    requires Current(s)
    ensures |s.cache| <= 1000 && forall d :: d in s.invalidated ==> s.invalidated[d] <= s.clock
    ensures forall c :: c in s.calls ==> Honest(s, s.calls[c])
    ensures forall d :: d in s.cache ==> IsCurrent(s, d)
  {
    hide Honest, IsCurrent, MAX_ENTRIES;
  }

  lemma CurrentFrom(s: State)
    requires |s.cache| <= 1000 && forall d :: d in s.invalidated ==> s.invalidated[d] <= s.clock
    requires forall c :: c in s.calls ==> Honest(s, s.calls[c])
    requires forall d :: d in s.cache ==> IsCurrent(s, d)
    ensures Current(s)
  {
    hide Honest, IsCurrent, MAX_ENTRIES;
  }

  lemma StaysCurrent(s: State, t: State, d: string)
    requires IsCurrent(s, d) && LastInvalidation(t, d) == LastInvalidation(s, d)
    requires d in s.readAt ==> d in t.readAt && t.readAt[d] == s.readAt[d]
    ensures IsCurrent(t, d)
  {
  }

  lemma NewlyCurrent(s: State, t: State, c: Call, d: string)
    requires LastInvalidation(s, d) < c.readAt && t.invalidated == s.invalidated && d in t.readAt
        && t.readAt[d] == c.readAt
    ensures IsCurrent(t, d)
  {
  }

  lemma Fewer(cache: Cache, d: string)
    ensures |cache - {d}| <= |cache|
  {
    if d in cache {
      KeptSize(cache, {d});
    } else {
      assert cache - {d} == cache;
    }
  }

  lemma ReadKeeps(s: State, call: nat, domains: set<string>)
    requires Current(s) && Possible(s, Read(call, domains))
    ensures Current(Take(s, Read(call, domains)))
  {
    hide MAX_ENTRIES, Honest;
    var t := Take(s, Read(call, domains));
    HonestNow(t, domains, t.calls[call]);
    forall c | c in t.calls ensures Honest(t, t.calls[c]) {
      if c != call {
        HonestLater(s, t, s.calls[c]);
      }
    }
  }

  lemma JoinKeeps(s: State, call: nat, d: string)
    requires Current(s) && Possible(s, Join(call, d))
    ensures Current(Take(s, Join(call, d)))
  {
    hide MAX_ENTRIES, Honest;
    var t := Take(s, Join(call, d));
    HonestJoined(s, s.calls[call], t.calls[call]);
    forall c | c in t.calls ensures Honest(t, t.calls[c]) {
      HonestLater(s, t, if c == call then t.calls[call] else s.calls[c]);
    }
  }

  lemma HonestJoined(s: State, c: Call, next: Call)
    requires Honest(s, c) && next.read == c.read && next.readAt == c.readAt
    ensures Honest(s, next)
  {
  }

  lemma FinishKeeps(s: State, d: string)
    requires Current(s) && Possible(s, Finish(d))
    ensures Current(Take(s, Finish(d)))
  {
    hide MAX_ENTRIES, Honest;
    var t := Take(s, Finish(d));
    forall c | c in t.calls ensures Honest(t, t.calls[c]) {
      HonestLater(s, t, s.calls[c]);
    }
  }

  /** The names a lookup may store: those whose generation is still the one it read. */
  lemma StoredIsCurrent(s: State, call: Call, infos: map<string, Info>, now: int, kept: Cache, d: string)
    requires Honest(s, call) && infos.Keys == call.read.Keys && kept.Keys <= Stored(s, call, infos, now).Keys
        && d in kept
    ensures d in s.cache || (d in infos && GenerationOf(s.generations, d) == call.read[d])
    ensures d in infos && GenerationOf(s.generations, d) == call.read[d] ==> LastInvalidation(s, d) < call.readAt
  {
  }

  lemma StoreKeeps(s: State, call: nat, infos: map<string, Info>, now: int, kept: Cache)
    requires Current(s) && Possible(s, Store(call, infos, now, kept))
    ensures Current(Take(s, Store(call, infos, now, kept)))
  {
    hide MAX_ENTRIES, Honest, Stored, IsPruned, IsCurrent;
    var t, c := Take(s, Store(call, infos, now, kept)), s.calls[call];
    PrunedSize(Stored(s, c, infos, now), kept);
    forall o | o in t.calls ensures Honest(t, t.calls[o]) {
      HonestLater(s, t, s.calls[o]);
    }
    forall d | d in t.cache ensures IsCurrent(t, d) {
      StoredIsCurrent(s, c, infos, now, kept, d);
      if d in infos && GenerationOf(s.generations, d) == c.read[d] {
        NewlyCurrent(s, t, c, d);
      } else {
        StaysCurrent(s, t, d);
      }
    }
  }

  lemma PrunedSize(before: Cache, kept: Cache)
    requires IsPruned(before, kept)
    ensures |kept| <= 1000 && kept.Keys <= before.Keys
  {
  }

  predicate IsRun(states: seq<State>, steps: seq<Step>) {
    && |states| == |steps| + 1
    && forall k :: 0 <= k < |steps| ==> Possible(states[k], steps[k]) && states[k + 1] == Take(states[k], steps[k])
  }

  /** A fetch of a name runs from the first join after the last one ended, and is known by that join. */
  lemma FetchesAre(s: State, step: Step, d: string)
    requires Possible(s, step)
    ensures var t := Take(s, step);
            && (d in t.fetches <==> (d in s.fetches && step != Finish(d)) || (step.Join? && step.d == d))
            && (d in t.fetches ==> t.fetches[d] == if d in s.fetches then s.fetches[d] else s.clock + 1)
  {
    hide GenerationOf, IsPruned, Stored;
  }

  /** Only an invalidation raises the generation of a name, which begins at zero, and drops its entry. */
  lemma GenerationsAre(s: State, step: Step, d: string)
    requires Possible(s, step)
    ensures var t := Take(s, step);
            && (s.generations == map[] ==> GenerationOf(s.generations, d) == 0)
            && (if step == Step.Invalidate(d) then
                  GenerationOf(t.generations, d) == GenerationOf(s.generations, d) + 1 && d !in t.cache
                else GenerationOf(t.generations, d) == GenerationOf(s.generations, d))
  {
    hide IsPruned, Stored;
  }

  /** Steps other than a store leave the entries of other names alone. */
  lemma EntriesStay(s: State, step: Step, d: string)
    requires Possible(s, step) && !step.Store? && step != Step.Invalidate(d)
    ensures var t := Take(s, step);
            (d in t.cache <==> d in s.cache) && (d in s.cache ==> t.cache[d] == s.cache[d])
  {
    hide GenerationOf, Stored, IsPruned;
  }

  /** A result replaces the entry of its name exactly if the generation read is still that of the name. */
  lemma StoredAre(s: State, call: Call, infos: map<string, Info>, now: int, d: string)
    ensures var stored := Stored(s, call, infos, now);
            var current := if d in s.generations then s.generations[d] else 0;
            if d in infos && d in call.read && call.read[d] == current then
              d in stored && stored[d] == Entry(now, infos[d])
            else (d in stored <==> d in s.cache) && (d in s.cache ==> stored[d] == s.cache[d])
  {
  }

  /** Of several results for a name the last is taken. */
  lemma {:induction false} NamedIs(domains: seq<string>, infos: seq<Info>, n: nat, i: nat)
    requires i < n <= |domains| == |infos| && domains[i] !in domains[i + 1..n]
    ensures domains[i] in Named(domains, infos, n) && Named(domains, infos, n)[domains[i]] == infos[i]
  {
    if i < n - 1 {
      assert domains[i + 1..n] == domains[i + 1..n - 1] + [domains[n - 1]];
      NamedIs(domains, infos, n - 1, i);
    }
  }

  /** Under any interleaving of lookups, fetches and invalidations. */
  lemma {:induction false} RunKeepsCurrent(states: seq<State>, steps: seq<Step>)
    requires IsRun(states, steps) && Current(states[0])
    ensures forall k :: 0 <= k < |states| ==> Current(states[k])
  {
    hide Current, Take, Possible;
    if steps != [] {
      var n := |steps| - 1;
      RunKeepsCurrent(states[..n + 1], steps[..n]);
      assert states[..n + 1][n] == states[n];
      StepKeepsCurrent(states[n], steps[n]);
      forall k | 0 <= k < |states| ensures Current(states[k]) {
        if k <= n {
          assert states[..n + 1][k] == states[k];
        }
      }
    }
  }

  // ---------------------------------------------------------------- how old a stored result is

  /**
   The guard a joining lookup could check: no fetch of the name is running, or one that began after
   its last invalidation.
   */
  predicate JoinsFresh(s: State, d: string) {
    d !in s.fetches || s.fetches[d] > LastInvalidation(s, d)
  }

  predicate IsFresh(s: State, d: string) {
    d in s.fetchedAt && s.fetchedAt[d] > LastInvalidation(s, d)
  }

  predicate IsStore(step: Step, call: nat) {
    step.Store? && step.call == call
  }

  /** The step stores a result for the name: its generation is still the one read. */
  predicate StoresName(s: State, step: Step, d: string)
    requires Possible(s, step)
  {
    step.Store? && d in step.infos && GenerationOf(s.generations, d) == s.calls[step.call].read[d]
  }

  /** The lookup that stores at step `k` joined the fetch of the name at step `j`. */
  predicate JoinedAt(steps: seq<Step>, call: nat, d: string, j: nat, k: nat) {
    && j < k <= |steps| && steps[j] == Join(call, d)
    && forall i :: j < i < k ==> !IsStore(steps[i], call)
  }

  /**
   What a lookup knows from a state on: it is still running, and the name was invalidated exactly if
   its generation rose.
   */
  predicate Remembers(s: State, t: State, call: nat, d: string) {
    && call in s.calls && call in t.calls && t.calls[call].read == s.calls[call].read
    && d in s.calls[call].joined && d in t.calls[call].joined && t.calls[call].joined[d] == s.calls[call].joined[d]
    && GenerationOf(t.generations, d) >= GenerationOf(s.generations, d)
    && (GenerationOf(t.generations, d) == GenerationOf(s.generations, d) ==>
      LastInvalidation(t, d) == LastInvalidation(s, d))
  }

  lemma TakeRemembers(s: State, t: State, step: Step, call: nat, d: string)
    requires Remembers(s, t, call, d) && Possible(t, step) && !IsStore(step, call)
    ensures Remembers(s, Take(t, step), call, d)
  {
    hide IsPruned, Stored;
  }

  lemma {:induction false} RunRemembers(states: seq<State>, steps: seq<Step>, call: nat, d: string, from: nat, k: nat)
    requires IsRun(states, steps) && from <= k <= |steps| && call in states[from].calls
        && d in states[from].calls[call].joined
    requires forall i :: from <= i < k ==> !IsStore(steps[i], call)
    ensures Remembers(states[from], states[k], call, d)
  {
    hide Possible, Take, IsStore, GenerationOf, LastInvalidation;
    if k > from {
      RunRemembers(states, steps, call, d, from, k - 1);
      TakeRemembers(states[from], states[k - 1], steps[k - 1], call, d);
    }
  }

  /** Joining: the name was not invalidated by it, and a fetch counts as fresh exactly under the guard. */
  lemma JoinIs(s: State, call: nat, d: string)
    requires Current(s) && Possible(s, Join(call, d))
    ensures var t := Take(s, Join(call, d));
            && call in t.calls && d in t.calls[call].joined && d in t.calls[call].read
            && t.calls[call].read[d] <= GenerationOf(t.generations, d)
            && LastInvalidation(t, d) == LastInvalidation(s, d)
            && (t.calls[call].joined[d] > LastInvalidation(t, d) <==> JoinsFresh(s, d))
  {
    hide IsPruned, Stored, IsCurrent, MAX_ENTRIES;
    assert Honest(s, s.calls[call]);
  }

  lemma StoreIs(s: State, step: Step, d: string)
    requires Possible(s, step) && StoresName(s, step, d)
    ensures var t := Take(s, step);
            && d in s.calls[step.call].joined && d in t.fetchedAt && t.fetchedAt[d] == s.calls[step.call].joined[d]
            && LastInvalidation(t, d) == LastInvalidation(s, d)
  {
    hide IsPruned, Stored;
  }

  /**
   In every run: a result that is stored for a name comes from a fetch that began after the name's
   last invalidation exactly if the guard held when the lookup joined that fetch.
   */
  lemma StoredIsFresh(states: seq<State>, steps: seq<Step>, d: string, j: nat, k: nat)
    requires IsRun(states, steps) && Current(states[0])
    requires k < |steps| && StoresName(states[k], steps[k], d) && JoinedAt(steps, steps[k].call, d, j, k)
    ensures IsFresh(states[k + 1], d) <==> JoinsFresh(states[j], d)
  {
    hide Current, Possible, Take, LastInvalidation, GenerationOf, JoinsFresh, IsStore;
    var call := steps[k].call;
    RunKeepsCurrent(states, steps);
    JoinIs(states[j], call, d);
    RunRemembers(states, steps, call, d, j + 1, k);
    StoreIs(states[k], steps[k], d);
  }

  /** A name a running lookup has joined was joined at some step of the run. */
  lemma {:induction false} JoinFound(states: seq<State>, steps: seq<Step>, call: nat, d: string, k: nat)
      returns (j: nat)
    requires IsRun(states, steps) && states[0].calls == map[] && k <= |steps|
    requires call in states[k].calls && d in states[k].calls[call].joined
    ensures JoinedAt(steps, call, d, j, k)
  {
    hide Possible, Take;
    if steps[k - 1] == Join(call, d) {
      j := k - 1;
    } else {
      JoinedBefore(states[k - 1], steps[k - 1], call, d);
      j := JoinFound(states, steps, call, d, k - 1);
    }
  }

  lemma JoinedBefore(s: State, step: Step, call: nat, d: string)
    requires Possible(s, step) && step != Join(call, d)
    requires var t := Take(s, step); call in t.calls && d in t.calls[call].joined
    ensures call in s.calls && d in s.calls[call].joined && !IsStore(step, call)
  {
    hide IsPruned, Stored;
  }

  predicate AllFresh(s: State) {
    forall d :: d in s.cache ==> IsFresh(s, d)
  }

  lemma OthersStayFresh(s: State, step: Step, d: string)
    requires Possible(s, step) && d in Take(s, step).cache && !StoresName(s, step, d)
    ensures d in s.cache && (IsFresh(s, d) ==> IsFresh(Take(s, step), d))
  {
    if step.Store? {
      assert step.kept.Keys <= Stored(s, s.calls[step.call], step.infos, step.now).Keys;
    }
  }

  /** If the guard held at every join, the cache never holds a result from before an invalidation of its name. */
  lemma {:induction false} RunStaysFresh(states: seq<State>, steps: seq<Step>)
    requires IsRun(states, steps) && Current(states[0]) && states[0].calls == map[] && AllFresh(states[0])
    requires forall k :: 0 <= k < |steps| && steps[k].Join? ==> JoinsFresh(states[k], steps[k].d)
    ensures AllFresh(states[|steps|])
  {
    hide Current, Possible, Take, IsFresh, JoinsFresh;
    if steps != [] {
      var n := |steps| - 1;
      RunPrefix(states, steps, n);
      RunStaysFresh(states[..n + 1], steps[..n]);
      var last := states[n + 1];
      forall d | d in last.cache ensures IsFresh(last, d) {
        if StoresName(states[n], steps[n], d) {
          StoreIs(states[n], steps[n], d);
          StoringCall(states[n], steps[n]);
          var j := JoinFound(states, steps, steps[n].call, d, n);
          StoredIsFresh(states, steps, d, j, n);
        } else {
          OthersStayFresh(states[n], steps[n], d);
        }
      }
    }
  }

  lemma StoringCall(s: State, step: Step)
    requires Possible(s, step) && step.Store?
    ensures step.call in s.calls
  {
  }

  lemma RunPrefix(states: seq<State>, steps: seq<Step>, n: nat)
    requires IsRun(states, steps) && n <= |steps|
    ensures IsRun(states[..n + 1], steps[..n])
    ensures states[..n + 1][n] == states[n] && states[..n + 1][0] == states[0]
  {
    hide Possible, Take;
  }

  /**
   What the generation check does not say: a lookup that reads the generation after an invalidation
   can join a fetch that began before it, and cache what that fetch brought.
   */
  lemma JoinedFetchCanBeStale(s: State, d: string, call: nat, info: Info, now: int)
    requires Current(s) && d in s.fetches && s.fetches[d] <= s.clock && call !in s.calls && s.cache == map[]
    ensures var s1 := Take(s, Invalidate(d));
            var s2 := Take(s1, Read(call, {d}));
            var s3 := Take(s2, Join(call, d));
            var done := Store(call, map[d := info], now, map[d := Entry(now, info)]);
            && Possible(s3, done)
            && var s4 := Take(s3, done);
               && d in s4.cache && s4.cache[d].info == info
               && s4.fetchedAt[d] < LastInvalidation(s4, d) < s4.readAt[d]
  {
    hide IsPruned, Current, Stored, MAX_ENTRIES, Take;
    JoinedCall(s, d, call);
    var s3 := Take(Take(Take(s, Invalidate(d)), Read(call, {d})), Join(call, d));
    StoredOne(s3, s3.calls[call], d, info, now);
    StoredTimes(s3, d, call, info, now);
  }

  /** A lookup after an invalidation that joins a fetch from before it. */
  lemma JoinedCall(s: State, d: string, call: nat)
    requires d in s.fetches && s.fetches[d] <= s.clock && call !in s.calls && s.cache == map[]
    ensures var s1 := Take(s, Invalidate(d));
            && Possible(s1, Read(call, {d}))
            && var s2 := Take(s1, Read(call, {d}));
               && Possible(s2, Join(call, d))
               && var s3 := Take(s2, Join(call, d));
                  && s3.cache == map[] && call in s3.calls && LastInvalidation(s3, d) == s.clock + 1
                  && s3.calls[call] == Call(map[d := GenerationOf(s3.generations, d)], s.clock + 2,
                    map[d := s.fetches[d]])
  {
    hide IsPruned, Stored;
  }

  lemma StoredTimes(s: State, d: string, call: nat, info: Info, now: int)
    requires call in s.calls && s.calls[call].read == map[d := GenerationOf(s.generations, d)]
        && d in s.calls[call].joined
    requires Possible(s, Store(call, map[d := info], now, map[d := Entry(now, info)]))
    ensures var t := Take(s, Store(call, map[d := info], now, map[d := Entry(now, info)]));
            && d in t.cache && t.cache[d].info == info && d in t.fetchedAt && d in t.readAt
            && t.fetchedAt[d] == s.calls[call].joined[d] && t.readAt[d] == s.calls[call].readAt
            && LastInvalidation(t, d) == LastInvalidation(s, d)
  {
    hide IsPruned, Stored;
  }

  lemma StoredOne(s: State, c: Call, d: string, info: Info, now: int)
    requires s.cache == map[] && c.read == map[d := GenerationOf(s.generations, d)]
    ensures IsPruned(Stored(s, c, map[d := info], now), map[d := Entry(now, info)])
  {
    assert Stored(s, c, map[d := info], now) == map[d := Entry(now, info)];
  }
}
