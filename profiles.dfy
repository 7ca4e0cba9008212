/**
 * The profile-image cache. `ProfileCache` (src/commands/feed/profileCache.ts)
 * stores, per user id, the resolved image url or null, and turns a failed
 * lookup into null. The older global record of src/main.ts stores the lookup
 * promise itself, rejected ones included.
 *
 * A stored promise is always truthy, so "cached" means "the key is present".
 * The user lookup is an HTTP request; its outcome is passed in as `lookup`:
 * the user's `img.href`, if any, or a failure.
 */
module Profiles {
  import opened Wrappers

  /** The outcome of `GET /api/0.6/user/<id>.json`: the image href if the profile has one, or an error. */
  type UserLookup = Result<Option<string>, string>

  /** The image url a lookup resolves to: a non-empty href, otherwise null (`href || null`). */
  function ImageUrlOf(lookup: UserLookup): (r: Option<string>)
    ensures r.Some? <==> lookup.Success? && lookup.value.Some? && lookup.value.value != ""
    ensures r.Some? ==> r.value == lookup.value.value
  {
    match lookup
    case Failure(_) => None
    case Success(href) => if href.Some? && href.value != "" then href else None
  }

  /**
   * `ProfileCache.get` on the cache contents: a hit returns the stored entry
   * and keeps the cache; a miss resolves `lookup` (a failure becomes null) and
   * stores the result.
   */
  function CacheGet(cache: map<nat, Option<string>>, userId: nat, lookup: UserLookup): (r: (Option<string>, map<nat, Option<string>>))
    ensures userId in r.1 && r.1[userId] == r.0
    ensures forall v :: v in cache ==> v in r.1 && r.1[v] == cache[v]
    ensures forall v :: v in r.1 ==> v in cache || v == userId
    ensures userId in cache ==> r.0 == cache[userId]
    ensures userId !in cache ==> r.0 == ImageUrlOf(lookup)
  {
    if userId in cache then (cache[userId], cache)
    else
      var url := ImageUrlOf(lookup);
      (url, cache[userId := url])
  }

  /** A second `get` of the same user returns the same url and leaves the cache as it is, whatever a new lookup would say. */
  lemma CacheGetIdempotent(cache: map<nat, Option<string>>, userId: nat, first: UserLookup, second: UserLookup)
    ensures CacheGet(CacheGet(cache, userId, first).1, userId, second) == CacheGet(cache, userId, first)
  {
  }

  /** A failed lookup is cached as null and is never retried. */
  lemma {:induction false} FailedLookupCachedAsNull(cache: map<nat, Option<string>>, userId: nat, e: string, later: UserLookup)
    requires userId !in cache
    ensures CacheGet(cache, userId, Failure(e)).0 == None
    ensures CacheGet(CacheGet(cache, userId, Failure(e)).1, userId, later).0 == None
  {
    CacheGetIdempotent(cache, userId, Failure(e), later);
  }

  /**
   * `class ProfileCache`: the `cache` map and, as ghost state, the users
   * looked up so far in request order.
   */
  class ProfileCache {
    var cache: map<nat, Option<string>>
    ghost var lookups: seq<nat>

    /** Each user is looked up at most once, and exactly the looked-up users are cached. */
    ghost predicate Valid()
      reads this
    {
      (forall i, j :: 0 <= i < j < |lookups| ==> lookups[i] != lookups[j])
      && (forall u :: u in cache <==> u in lookups)
    }

    constructor()
      ensures Valid()
      ensures cache == map[] && lookups == []
    {
      cache := map[];
      lookups := [];
    }

    /** `get(userId)`: a lookup is made, and recorded, only on a miss. */
    method Get(userId: nat, lookup: UserLookup) returns (url: Option<string>)
      requires Valid()
      modifies this
      ensures Valid()
      ensures (url, cache) == CacheGet(old(cache), userId, lookup)
      ensures lookups == if userId in old(cache) then old(lookups) else old(lookups) + [userId]
    {
      if userId in cache {
        url := cache[userId];
      } else {
        url := ImageUrlOf(lookup);
        cache := cache[userId := url];
        lookups := lookups + [userId];
      }
    }
  }

  /**
   * The global record of src/main.ts: the stored promise is the lookup itself,
   * so a rejected lookup stays rejected.
   */
  function LegacyCacheGet(cache: map<nat, UserLookup>, userId: nat, lookup: UserLookup): (r: (UserLookup, map<nat, UserLookup>))
    ensures userId in r.1 && r.1[userId] == r.0
    ensures forall v :: v in cache ==> v in r.1 && r.1[v] == cache[v]
    ensures forall v :: v in r.1 ==> v in cache || v == userId
    ensures userId in cache ==> r.0 == cache[userId]
    ensures userId !in cache ==> r.0 == LegacyEntry(lookup)
  {
    if userId in cache then (cache[userId], cache)
    else
      var entry := LegacyEntry(lookup);
      (entry, cache[userId := entry])
  }

  /** The promise stored by src/main.ts: the lookup's image url (`href || null`), or its rejection. */
  function LegacyEntry(lookup: UserLookup): (r: UserLookup)
    ensures r.Success? <==> lookup.Success?
    ensures r.Success? ==> r.value == ImageUrlOf(lookup)
  {
    match lookup
    case Failure(e) => Failure(e)
    case Success(_) => Success(ImageUrlOf(lookup))
  }

  /**
   * As written, one failed lookup is cached as a rejection: every later `get`
   * of that user fails too, whatever the user service would now answer.
   */
  lemma {:induction false} LegacyFailureSticks(cache: map<nat, UserLookup>, userId: nat, e: string, later: seq<UserLookup>)
    requires userId !in cache
    ensures forall k :: 0 <= k < |later| ==>
      LegacyCacheGet(LegacyCacheGet(cache, userId, Failure(e)).1, userId, later[k]).0 == Failure(e)
  {
    var after := LegacyCacheGet(cache, userId, Failure(e)).1;
    assert after[userId] == Failure(e);
  }
}
