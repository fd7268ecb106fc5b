/**
 * The cache-aside store: a metadata entry and a content entry per token,
 * each with the TTL it was written with, and a daily popularity sorted set
 * (member -> score) whose own TTL is refreshed on every hit. Metadata is an
 * opaque value of type `M`; its JSON encoding is taken to round-trip.
 */
module TextCache {
  import opened Wrappers

  /** The TTL set on the popularity set by every bump. */
  const PopularityTtl := 86400

  /** A cached value and the TTL it was written with. */
  datatype Entry<T> = Entry(value: T, ttl: int)

  /** `ZINCRBY` by 1: an absent member starts from 0. */
  function Bumped(pop: map<string, nat>, h: string): (r: map<string, nat>)
    ensures h in r && r[h] == (if h in pop then pop[h] else 0) + 1
    ensures r.Keys == pop.Keys + {h}
    ensures forall x :: x in pop && x != h ==> x in r && r[x] == pop[x]
  {
    pop[h := (if h in pop then pop[h] else 0) + 1]
  }

  /** The score of a member, 0 when it is absent (what `ZSCORE` gives, with `None` read as 0). */
  function Score(pop: map<string, nat>, h: string): nat
  {
    if h in pop then pop[h] else 0
  }

  /** `k` successive bumps of the same member. */
  function BumpN(pop: map<string, nat>, h: string, k: nat): map<string, nat>
  {
    if k == 0 then pop else Bumped(BumpN(pop, h, k - 1), h)
  }

  /** Every bump raises the member by exactly one per hit and leaves every other score alone. */
  lemma {:induction false} BumpNScore(pop: map<string, nat>, h: string, k: nat)
    ensures Score(BumpN(pop, h, k), h) == Score(pop, h) + k
    ensures forall x :: x != h ==> Score(BumpN(pop, h, k), x) == Score(pop, x)
    ensures k > 0 ==> h in BumpN(pop, h, k)
  {
    if k > 0 {
      BumpNScore(pop, h, k - 1);
    }
  }

  /** Popularity is monotone: no score ever goes down. */
  lemma {:induction false} BumpNMonotone(pop: map<string, nat>, h: string, k: nat)
    ensures forall x :: x in pop ==> x in BumpN(pop, h, k) && BumpN(pop, h, k)[x] >= pop[x]
  {
    if k > 0 {
      BumpNMonotone(pop, h, k - 1);
    }
  }

  /**
   * `is_popular`'s truth value: `score and score >= threshold`, so an absent
   * or zero score is never popular, whatever the threshold.
   */
  predicate PopularIn(pop: map<string, nat>, h: string, threshold: int)
  {
    h in pop && pop[h] != 0 && pop[h] >= threshold
  }

  /** A member read `threshold` times (and at least once) is popular. */
  lemma PopularAfterHits(pop: map<string, nat>, h: string, threshold: int, k: nat)
    requires k > 0 && k >= threshold
    ensures PopularIn(BumpN(pop, h, k), h, threshold)
  {
    BumpNScore(pop, h, k);
  }

  /** A member that was never read is not popular, even for a non-positive threshold. */
  lemma NeverReadNotPopular(pop: map<string, nat>, h: string, threshold: int)
    requires h !in pop
    ensures !PopularIn(pop, h, threshold)
  {
  }

  /** `ttl or default_ttl`: a missing or zero TTL becomes the default. */
  function EffectiveTtl(ttl: Option<int>, defaultTtl: int): (r: int)
    ensures ttl.Some? && ttl.value != 0 ==> r == ttl.value
    ensures ttl.None? || ttl.value == 0 ==> r == defaultTtl
  {
    if ttl.None? || ttl.value == 0 then defaultTtl else ttl.value
  }

  /**
   * How many members `ZREVRANGE key 0 (limit - 1)` returns from a set of
   * `n`: a negative stop index counts from the end, so a limit of 0 gives
   * them all.
   */
  function RangeCount(limit: int, n: nat): (c: nat)
    ensures c <= n
    ensures limit > 0 ==> c == if limit < n then limit else n
    ensures limit == 0 ==> c == n
    ensures limit < 0 ==> c == if n + limit > 0 then n + limit else 0
  {
    var stop := if limit - 1 < 0 then n + (limit - 1) else limit - 1;
    if stop < 0 || n == 0 then 0 else if stop + 1 < n then stop + 1 else n
  }

  /** Every non-empty finite set of members has one of highest score. */
  lemma {:induction false} HighestExists(pop: map<string, nat>, s: set<string>)
    requires s != {} && s <= pop.Keys
    ensures exists m :: m in s && forall x :: x in s ==> pop[x] <= pop[m]
    decreases |s|
  {
    var y :| y in s;
    var others := s - {y};
    if others == {} {
      forall x | x in s
        ensures pop[x] <= pop[y]
      {
        assert x == y || x in others;
      }
      assert y in s;
    } else {
      HighestExists(pop, others);
      var m :| m in others && forall x :: x in others ==> pop[x] <= pop[m];
      var best := if pop[y] > pop[m] then y else m;
      forall x | x in s
        ensures pop[x] <= pop[best]
      {
        if x != y {
          assert x in others;
        }
      }
      assert best in s;
    }
  }

  /** The paired view of a token: both entries present, or nothing. */
  function PairIn<M>(meta: map<string, Entry<M>>, content: map<string, Entry<string>>, h: string): (r: Option<(M, string)>)
    ensures r.Some? <==> h in meta && h in content
    ensures r.Some? ==> r.value == (meta[h].value, content[h].value)
  {
    if h in meta && h in content then Some((meta[h].value, content[h].value)) else None
  }

  /** Writing both entries of `h` makes the paired view return exactly them, and leaves every other token's view alone. */
  lemma PairAfterWrite<M>(meta: map<string, Entry<M>>, content: map<string, Entry<string>>,
                          h: string, m: M, c: string, t: int, other: string)
    ensures PairIn(meta[h := Entry(m, t)], content[h := Entry(c, t)], h) == Some((m, c))
    ensures other != h ==> PairIn(meta[h := Entry(m, t)], content[h := Entry(c, t)], other) == PairIn(meta, content, other)
  {
  }

  class CacheStore<M> {
    var meta: map<string, Entry<M>>
    var content: map<string, Entry<string>>
    var popularity: map<string, nat>
    var popularityTtl: Option<int>
    const defaultTtl: int

    constructor (defaultTtl: int)
      ensures this.defaultTtl == defaultTtl
      ensures meta == map[] && content == map[] && popularity == map[] && popularityTtl == None
    {
      this.defaultTtl := defaultTtl;
      meta := map[];
      content := map[];
      popularity := map[];
      popularityTtl := None;
    }

    function Lookup(h: string): Option<(M, string)>
      reads this
    {
      PairIn(meta, content, h)
    }

    /** The bump both scripts and `_increment_popularity` perform. */
    method Bump(h: string)
      modifies this`popularity, this`popularityTtl
      ensures popularity == Bumped(old(popularity), h) && popularityTtl == Some(PopularityTtl)
    {
      var score := if h in popularity then popularity[h] else 0;
      popularity := popularity[h := score + 1];
      popularityTtl := Some(PopularityTtl);
    }

    /** `get_complete_text`: the atomic paired read; only a hit on both keys bumps the score. */
    method GetCompleteText(h: string) returns (r: Option<(M, string)>)
      modifies this`popularity, this`popularityTtl
      ensures r.Some? <==> h in meta && h in content
      ensures r.Some? ==> r.value == (meta[h].value, content[h].value)
      ensures r.Some? ==> popularity == Bumped(old(popularity), h) && popularityTtl == Some(PopularityTtl)
      ensures r.None? ==> popularity == old(popularity) && popularityTtl == old(popularityTtl)
    {
      if h in meta && h in content {
        var m := meta[h].value;
        var c := content[h].value;
        Bump(h);
        return Some((m, c));
      }
      r := None;
    }

    /** `get_text_metadata`: a hit bumps the score. */
    method GetTextMetadata(h: string) returns (r: Option<M>)
      modifies this`popularity, this`popularityTtl
      ensures r.Some? <==> h in meta
      ensures r.Some? ==> r.value == meta[h].value
      ensures h in meta ==> popularity == Bumped(old(popularity), h) && popularityTtl == Some(PopularityTtl)
      ensures h !in meta ==> popularity == old(popularity) && popularityTtl == old(popularityTtl)
    {
      if h in meta {
        var m := meta[h].value;
        Bump(h);
        return Some(m);
      }
      r := None;
    }

    /**
     * `get_text_content`: the script counts any stored value as a hit (the
     * empty string is truthy to it) and bumps, but the caller turns an empty
     * value into `None`.
     */
    method GetTextContent(h: string) returns (r: Option<string>)
      modifies this`popularity, this`popularityTtl
      ensures r.Some? <==> h in content && content[h].value != ""
      ensures r.Some? ==> r.value == content[h].value
      ensures h in content ==> popularity == Bumped(old(popularity), h) && popularityTtl == Some(PopularityTtl)
      ensures h !in content ==> popularity == old(popularity) && popularityTtl == old(popularityTtl)
    {
      if h in content {
        var c := content[h].value;
        Bump(h);
        return if c == "" then None else Some(c);
      }
      r := None;
    }

    /** `cache_text_metadata`: `SETEX` with the effective TTL; a non-positive TTL is refused and writes nothing. */
    method CacheTextMetadata(h: string, m: M, ttl: Option<int>) returns (ok: bool)
      modifies this`meta
      ensures ok == (EffectiveTtl(ttl, defaultTtl) > 0)
      ensures meta == if ok then old(meta)[h := Entry(m, EffectiveTtl(ttl, defaultTtl))] else old(meta)
    {
      var t := EffectiveTtl(ttl, defaultTtl);
      if t <= 0 {
        return false;
      }
      meta := meta[h := Entry(m, t)];
      ok := true;
    }

    /** `cache_text_content`: as `cache_text_metadata`, for the content key. */
    method CacheTextContent(h: string, c: string, ttl: Option<int>) returns (ok: bool)
      modifies this`content
      ensures ok == (EffectiveTtl(ttl, defaultTtl) > 0)
      ensures content == if ok then old(content)[h := Entry(c, EffectiveTtl(ttl, defaultTtl))] else old(content)
    {
      var t := EffectiveTtl(ttl, defaultTtl);
      if t <= 0 {
        return false;
      }
      content := content[h := Entry(c, t)];
      ok := true;
    }

    /**
     * `cache_complete_text`: one transaction writing both keys with the same
     * effective TTL; when the store refuses the TTL neither key is written.
     */
    method CacheCompleteText(h: string, m: M, c: string, ttl: Option<int>) returns (ok: bool)
      modifies this`meta, this`content
      ensures ok == (EffectiveTtl(ttl, defaultTtl) > 0)
      ensures ok ==> meta == old(meta)[h := Entry(m, EffectiveTtl(ttl, defaultTtl))]
      ensures ok ==> content == old(content)[h := Entry(c, EffectiveTtl(ttl, defaultTtl))]
      ensures !ok ==> meta == old(meta) && content == old(content)
    {
      var t := EffectiveTtl(ttl, defaultTtl);
      if t <= 0 {
        return false;
      }
      meta := meta[h := Entry(m, t)];
      content := content[h := Entry(c, t)];
      ok := true;
    }

    /** `_increment_popularity`: the bump in a pipeline; a failing store changes nothing and reports nothing. */
    method IncrementPopularity(h: string, fails: bool)
      modifies this`popularity, this`popularityTtl
      ensures popularity == if fails then old(popularity) else Bumped(old(popularity), h)
      ensures popularityTtl == if fails then old(popularityTtl) else Some(PopularityTtl)
    {
      if !fails {
        Bump(h);
      }
    }

    /** `is_popular`: an unreachable store counts as not popular. */
    function IsPopular(h: string, threshold: int, reachable: bool): (r: bool)
      reads this
      ensures r <==> reachable && Score(popularity, h) != 0 && Score(popularity, h) >= threshold
    {
      reachable && PopularIn(popularity, h, threshold)
    }

    /**
     * `get_popular_texts`: the members by non-increasing score, as many as
     * `RangeCount` gives; among equal scores the order is left open.
     */
    method GetPopularTexts(limit: int) returns (r: seq<string>)
      ensures |r| == RangeCount(limit, |popularity.Keys|)
      ensures forall i :: 0 <= i < |r| ==> r[i] in popularity
      ensures forall i, j :: 0 <= i < j < |r| ==> r[i] != r[j]
      ensures forall i, j :: 0 <= i < j < |r| ==> popularity[r[i]] >= popularity[r[j]]
      ensures forall i, x :: 0 <= i < |r| && x in popularity && x !in r ==> popularity[x] <= popularity[r[i]]
    {
      var count := RangeCount(limit, |popularity.Keys|);
      var rest := popularity.Keys;
      r := [];
      while |r| < count
        invariant |r| <= count
        invariant rest <= popularity.Keys
        invariant |rest| == |popularity.Keys| - |r|
        invariant forall i :: 0 <= i < |r| ==> r[i] in popularity && r[i] !in rest
        invariant forall x :: x in popularity && x !in rest ==> x in r
        invariant forall i, j :: 0 <= i < j < |r| ==> r[i] != r[j]
        invariant forall i, j :: 0 <= i < j < |r| ==> popularity[r[i]] >= popularity[r[j]]
        invariant forall i, x :: 0 <= i < |r| && x in rest ==> popularity[x] <= popularity[r[i]]
        decreases count - |r|
      {
        HighestExists(popularity, rest);
        var m :| m in rest && forall x :: x in rest ==> popularity[x] <= popularity[m];
        r := r + [m];
        rest := rest - {m};
      }
    }
  }
}
