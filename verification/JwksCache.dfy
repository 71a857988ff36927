/** lcp.core.security: the cached signing keys, refreshed by one coroutine at a time. */
module JwksCache {
  import opened Database

  /** A key of the identity provider; `kid` is None when missing or not a string. */
  datatype Jwk = Jwk(kid: Option<string>, material: string)

  datatype Cache = Cache(keysByKid: map<string, Jwk>, fetchedAt: real, rawKeys: seq<Jwk>)

  // ---- _build_cache ----

  function Indexed(keys: seq<Jwk>): map<string, Jwk> {
    if keys == [] then map[]
    else
      var key, front := keys[|keys| - 1], Indexed(keys[..|keys| - 1]);
      if key.kid.Some? then front[key.kid.value := key] else front
  }

  /** `key` is the last of `keys` with this kid. */
  ghost predicate IsLast(keys: seq<Jwk>, kid: string, key: Jwk) {
    exists i | 0 <= i < |keys| ::
      keys[i] == key && key.kid == Some(kid) && forall j | i < j < |keys| :: keys[j].kid != Some(kid)
  }

  /** A kid is found exactly when some key carries it, and it finds the last such key. */
  lemma {:induction false} IndexedFindsLast(keys: seq<Jwk>, kid: string)
    ensures kid in Indexed(keys) <==> exists i | 0 <= i < |keys| :: keys[i].kid == Some(kid)
    ensures kid in Indexed(keys) ==> IsLast(keys, kid, Indexed(keys)[kid])
  {
    if keys != [] {
      var n := |keys| - 1;
      IndexedFindsLast(keys[..n], kid);
      if keys[n].kid == Some(kid) {
        assert Indexed(keys)[kid] == keys[n];
      } else if kid in Indexed(keys[..n]) {
        var i :| 0 <= i < n && keys[..n][i] == Indexed(keys)[kid]
                 && forall j | i < j < n :: keys[..n][j].kid != Some(kid);
        assert keys[i] == Indexed(keys)[kid];
        forall j | i < j < |keys| ensures keys[j].kid != Some(kid) {
          if j < n {
            assert keys[..n][j] == keys[j];
          }
        }
      } else {
        forall i | 0 <= i < |keys| ensures keys[i].kid != Some(kid) {
          if i < n {
            assert keys[..n][i] == keys[i];
          }
        }
      }
    }
  }

  function Built(keys: seq<Jwk>, now: real): Cache {
    Cache(Indexed(keys), now, keys)
  }

  method BuildCache(keys: seq<Jwk>, now: real) returns (cache: Cache)
    ensures cache == Built(keys, now)
  {
    var keysByKid: map<string, Jwk> := map[];
    for i := 0 to |keys|
      invariant keysByKid == Indexed(keys[..i])
    {
      assert keys[..i + 1][..i] == keys[..i];
      if keys[i].kid.Some? {
        keysByKid := keysByKid[keys[i].kid.value := keys[i]];
      }
    }
    assert keys[..|keys|] == keys;
    cache := Cache(keysByKid, now, keys);
  }

  // ---- The coroutines ----

  /** Where a call of _get_jwks stands.  It is suspended only while it waits for the lock and while its
      fetch is under way; a fetching call holds the lock and has read the cache before the fetch. */
  datatype Phase =
    | Waiting(force: bool)
    | Fetching(force: bool, snapshot: Option<Cache>)
    | Returned(cache: Cache, checkedAt: real, fetchFailed: bool)
    | Raised
    | Aborted

  datatype State = State(cache: Option<Cache>, clock: real, holder: Option<nat>, calls: map<nat, Phase>)

  predicate Younger(cache: Option<Cache>, now: real, age: real) {
    cache.Some? && now - cache.value.fetchedAt < age
  }

  /** What runs between two suspensions of call `c`; `now` is the monotonic clock.  Succeed and Fail are the
      two ends of the fetch; Abort is any exception the call does not catch, cancellation included. */
  datatype Event =
    | Enter(c: nat, force: bool, now: real)
    | Acquire(c: nat, now: real)
    | Succeed(c: nat, keys: seq<Jwk>, now: real)
    | Fail(c: nat, now: real)
    | Abort(c: nat, now: real)

  predicate Enabled(s: State, e: Event) {
    && s.clock <= e.now
    && match e
       case Enter(c, _, _) => c !in s.calls
       case Acquire(c, _) => s.holder.None? && c in s.calls && s.calls[c].Waiting?
       case Succeed(c, _, _) => c in s.calls && s.calls[c].Fetching?
       case Fail(c, _) => c in s.calls && s.calls[c].Fetching?
       case Abort(c, _) => c in s.calls && (s.calls[c].Waiting? || s.calls[c].Fetching?)
  }

  function Next(ttl: real, s: State, e: Event): State
    requires Enabled(s, e)
  {
    var t := s.(clock := e.now);
    match e
    case Enter(c, force, now) =>
      if !force && Younger(s.cache, now, ttl) then t.(calls := s.calls[c := Returned(s.cache.value, now, false)])
      else t.(calls := s.calls[c := Waiting(force)])
    case Acquire(c, now) =>
      var force := s.calls[c].force;
      if !force && Younger(s.cache, now, ttl) then t.(calls := s.calls[c := Returned(s.cache.value, now, false)])
      else t.(holder := Some(c), calls := s.calls[c := Fetching(force, s.cache)])
    case Succeed(c, keys, now) =>
      var built := Built(keys, now);
      t.(cache := Some(built), holder := None, calls := s.calls[c := Returned(built, now, false)])
    case Fail(c, now) =>
      var snapshot := s.calls[c].snapshot;
      if Younger(snapshot, now, 2.0 * ttl)
      then t.(holder := None, calls := s.calls[c := Returned(snapshot.value, now, true)])
      else t.(holder := None, calls := s.calls[c := Raised])
    case Abort(c, _) =>
      t.(holder := if s.calls[c].Fetching? then None else s.holder, calls := s.calls[c := Aborted])
  }

  // ---- Runs ----

  /** Any interleaving of any number of calls, from an empty cache. */
  predicate Valid(ttl: real, es: seq<Event>)
    decreases |es|, 0
  {
    es == [] || (Valid(ttl, es[..|es| - 1]) && Enabled(Exec(ttl, es[..|es| - 1]), es[|es| - 1]))
  }

  function Exec(ttl: real, es: seq<Event>): State
    requires Valid(ttl, es)
    decreases |es|, 1
  {
    if es == [] then State(None, 0.0, None, map[])
    else Next(ttl, Exec(ttl, es[..|es| - 1]), es[|es| - 1])
  }

  lemma {:induction false} Prefix(ttl: real, es: seq<Event>, k: nat)
    requires Valid(ttl, es) && k <= |es|
    ensures Valid(ttl, es[..k])
    ensures k < |es| ==> Enabled(Exec(ttl, es[..k]), es[k])
    ensures k < |es| ==> Valid(ttl, es[..k + 1]) && Exec(ttl, es[..k + 1]) == Next(ttl, Exec(ttl, es[..k]), es[k])
  {
    if k == |es| {
      assert es[..k] == es;
    } else {
      var front := es[..|es| - 1];
      if k == |front| {
        assert es[..k] == front && es[..k + 1] == es;
      } else {
        Prefix(ttl, front, k);
        assert front[..k] == es[..k] && front[..k + 1] == es[..k + 1] && front[k] == es[k];
      }
    }
  }

  // ---- The lock ----

  /** One call fetches at a time: it is the lock's holder, and what it read is still the cache. */
  ghost predicate Locked(s: State) {
    && (s.holder.Some? ==> s.holder.value in s.calls && s.calls[s.holder.value].Fetching?)
    && (forall c | c in s.calls && s.calls[c].Fetching? :: s.holder == Some(c) && s.calls[c].snapshot == s.cache)
  }

  /** The cache is never from the future, an unforced fetch has found it expired, and every call that
      returned got keys no older than promised. */
  ghost predicate Timely(ttl: real, s: State) {
    && 0.0 <= s.clock && (s.cache.Some? ==> s.cache.value.fetchedAt <= s.clock)
    && (forall c | c in s.calls && s.calls[c].Fetching? && !s.calls[c].force :: !Younger(s.cache, s.clock, ttl))
    && (forall c | c in s.calls && s.calls[c].Returned? :: Recent(ttl, s.calls[c]))
  }

  predicate Recent(ttl: real, p: Phase)
    requires p.Returned?
  {
    && p.cache.fetchedAt <= p.checkedAt
    && p.checkedAt - p.cache.fetchedAt < if p.fetchFailed then 2.0 * ttl else ttl
  }

  lemma {:induction false} ReachableSound(ttl: real, es: seq<Event>)
    requires Valid(ttl, es) && ttl > 0.0
    ensures Locked(Exec(ttl, es)) && Timely(ttl, Exec(ttl, es))
  {
    if es != [] {
      ReachableSound(ttl, es[..|es| - 1]);
    }
  }

  /** Every call that returned had its keys fetched less than twice the TTL before the check it made, and
      less than the TTL unless its own fetch had just failed. */
  lemma ReturnedKeysAreRecent(ttl: real, es: seq<Event>, c: nat)
    requires Valid(ttl, es) && ttl > 0.0 && c in Exec(ttl, es).calls && Exec(ttl, es).calls[c].Returned?
    ensures var p := Exec(ttl, es).calls[c];
            && 0.0 <= p.checkedAt - p.cache.fetchedAt < 2.0 * ttl
            && (!p.fetchFailed ==> p.checkedAt - p.cache.fetchedAt < ttl)
  {
    ReachableSound(ttl, es);
    assert Recent(ttl, Exec(ttl, es).calls[c]);
  }

  /** After a failed fetch the call answers exactly when the module's cache, as it is at that moment, is
      younger than twice the TTL, and answers with it. */
  lemma FailedFetchAnswersIff(ttl: real, es: seq<Event>, e: Event)
    requires Valid(ttl, es) && ttl > 0.0 && Enabled(Exec(ttl, es), e) && e.Fail?
    ensures var s := Exec(ttl, es);
            Next(ttl, s, e).calls[e.c]
            == if Younger(s.cache, e.now, 2.0 * ttl) then Returned(s.cache.value, e.now, true) else Raised
  {
    ReachableSound(ttl, es);
  }

  // ---- What the cache holds ----

  /** The keys of the last fetch that succeeded. */
  function LastSuccess(es: seq<Event>): Option<Cache> {
    if es == [] then None
    else
      var e := es[|es| - 1];
      if e.Succeed? then Some(Built(e.keys, e.now)) else LastSuccess(es[..|es| - 1])
  }

  /** The cache is what the last successful fetch delivered, whatever failed, raised or was cancelled since. */
  lemma {:induction false} CacheIsLastSuccess(ttl: real, es: seq<Event>)
    requires Valid(ttl, es)
    ensures Exec(ttl, es).cache == LastSuccess(es)
  {
    if es != [] {
      CacheIsLastSuccess(ttl, es[..|es| - 1]);
    }
  }

  /** Looking a kid up in the cache finds the last key that carries it among those the last success delivered, as
      fetched at that moment, and nothing else. */
  lemma CacheFindsFetchedKeys(ttl: real, es: seq<Event>, i: nat, kid: string)
    requires Valid(ttl, es) && i < |es| && es[i].Succeed? && forall j | i < j < |es| :: !es[j].Succeed?
    ensures Exec(ttl, es).cache.Some? && Exec(ttl, es).cache.value.fetchedAt == es[i].now
    ensures var found := Exec(ttl, es).cache.value.keysByKid;
            && (kid in found <==> exists k | 0 <= k < |es[i].keys| :: es[i].keys[k].kid == Some(kid))
            && (kid in found ==> IsLast(es[i].keys, kid, found[kid]))
  {
    CacheIsLastSuccess(ttl, es);
    LastSuccessAt(es, i);
    IndexedFindsLast(es[i].keys, kid);
  }

  lemma {:induction false} LastSuccessAt(es: seq<Event>, i: nat)
    requires i < |es| && es[i].Succeed? && forall j | i < j < |es| :: !es[j].Succeed?
    ensures LastSuccess(es) == Some(Built(es[i].keys, es[i].now))
  {
    if i < |es| - 1 {
      LastSuccessAt(es[..|es| - 1], i);
    }
  }

  /** Once filled the cache stays filled, with keys fetched no earlier. */
  lemma {:induction false} FetchedAtNeverDecreases(ttl: real, es: seq<Event>, k: nat)
    requires Valid(ttl, es) && ttl > 0.0 && k <= |es| && Valid(ttl, es[..k]) && Exec(ttl, es[..k]).cache.Some?
    ensures Exec(ttl, es).cache.Some?
    ensures Exec(ttl, es[..k]).cache.value.fetchedAt <= Exec(ttl, es).cache.value.fetchedAt
  {
    if k == |es| {
      assert es[..k] == es;
    } else {
      var front := es[..|es| - 1];
      assert front[..k] == es[..k];
      FetchedAtNeverDecreases(ttl, front, k);
      ReachableSound(ttl, front);
    }
  }

  // ---- When a call fetches ----

  /** The last successful fetch of the run is less than this long ago. */
  predicate FetchedWithin(es: seq<Event>, now: real, age: real) {
    LastSuccess(es).Some? && now - LastSuccess(es).value.fetchedAt < age
  }

  /** A call that does not force a refresh is answered at once, with the keys of the last success, exactly when
      that is less than one TTL ago; any other call goes on to wait for the lock. */
  lemma EntryAnswersIff(ttl: real, es: seq<Event>, e: Event)
    requires Valid(ttl, es) && Enabled(Exec(ttl, es), e) && e.Enter?
    ensures Next(ttl, Exec(ttl, es), e).calls[e.c]
            == if !e.force && FetchedWithin(es, e.now, ttl) then Returned(LastSuccess(es).value, e.now, false)
               else Waiting(e.force)
  {
    CacheIsLastSuccess(ttl, es);
  }

  /** The flag a call was made with. */
  function ForceOf(es: seq<Event>, c: nat): Option<bool> {
    if es == [] then None
    else
      var e := es[|es| - 1];
      if e.Enter? && e.c == c then Some(e.force) else ForceOf(es[..|es| - 1], c)
  }

  lemma {:induction false} FlagIsKept(ttl: real, es: seq<Event>, c: nat)
    requires Valid(ttl, es)
    ensures c in Exec(ttl, es).calls <==> ForceOf(es, c).Some?
    ensures c in Exec(ttl, es).calls && (Exec(ttl, es).calls[c].Waiting? || Exec(ttl, es).calls[c].Fetching?) ==>
              ForceOf(es, c) == Some(Exec(ttl, es).calls[c].force)
  {
    if es != [] {
      FlagIsKept(ttl, es[..|es| - 1], c);
    }
  }

  /** With the lock in hand a call fetches when it was made with the flag, or when no success is less than one
      TTL ago; otherwise somebody has refreshed the keys meanwhile, and it returns those. */
  lemma LockedCallFetchesIff(ttl: real, es: seq<Event>, e: Event)
    requires Valid(ttl, es) && Enabled(Exec(ttl, es), e) && e.Acquire?
    ensures ForceOf(es, e.c).Some?
    ensures var after := Next(ttl, Exec(ttl, es), e);
            if ForceOf(es, e.c).value || !FetchedWithin(es, e.now, ttl) then
              after.holder == Some(e.c)
              && after.calls[e.c] == Fetching(ForceOf(es, e.c).value, LastSuccess(es))
            else after.holder.None? && after.calls[e.c] == Returned(LastSuccess(es).value, e.now, false)
  {
    CacheIsLastSuccess(ttl, es);
    FlagIsKept(ttl, es, e.c);
  }

  /** The end of the call's own fetch, if it came to one. */
  function OwnFetch(es: seq<Event>, c: nat): Option<Event> {
    if es == [] then None
    else
      var e := es[|es| - 1];
      if (e.Succeed? || e.Fail?) && e.c == c then Some(e) else OwnFetch(es[..|es| - 1], c)
  }

  /** A call that forces a refresh never answers from the cache alone: it answers with what its own fetch
      delivered, or, once its own fetch has failed, with keys that are marked so. */
  lemma {:induction false} ForcedCallFetches(ttl: real, es: seq<Event>, c: nat)
    requires Valid(ttl, es) && ForceOf(es, c) == Some(true)
    ensures c in Exec(ttl, es).calls
    ensures OwnFetch(es, c).None? ==> !Exec(ttl, es).calls[c].Returned?
    ensures Exec(ttl, es).calls[c].Returned? ==>
              var own, p := OwnFetch(es, c).value, Exec(ttl, es).calls[c];
              p.checkedAt == own.now && p.fetchFailed == own.Fail?
              && (own.Succeed? ==> p.cache.fetchedAt == own.now && p.cache.rawKeys == own.keys)
  {
    var front, e := es[..|es| - 1], es[|es| - 1];
    FlagIsKept(ttl, front, c);
    if e.Enter? && e.c == c {
      NoFetchBefore(ttl, front, c);
    } else {
      ForcedCallFetches(ttl, front, c);
    }
  }

  lemma {:induction false} NoFetchBefore(ttl: real, es: seq<Event>, c: nat)
    requires Valid(ttl, es) && ForceOf(es, c).None?
    ensures OwnFetch(es, c).None?
  {
    if es != [] {
      FlagIsKept(ttl, es[..|es| - 1], c);
      NoFetchBefore(ttl, es[..|es| - 1], c);
    }
  }

  // ---- Single flight ----

  /** After a success at i, the cache at any later point is from then or later. */
  lemma CacheSince(ttl: real, es: seq<Event>, i: nat, j: nat)
    requires Valid(ttl, es) && ttl > 0.0 && i < j < |es| && es[i].Succeed?
    ensures Valid(ttl, es[..j]) && Enabled(Exec(ttl, es[..j]), es[j])
    ensures Exec(ttl, es[..j]).cache.Some? && es[i].now <= Exec(ttl, es[..j]).cache.value.fetchedAt
  {
    Prefix(ttl, es, i);
    Prefix(ttl, es, j);
    assert es[..j][..i + 1] == es[..i + 1];
    FetchedAtNeverDecreases(ttl, es[..j], i + 1);
  }

  /** An unforced fetch succeeds at least one TTL after every earlier success. */
  lemma SuccessesAreSpaced(ttl: real, es: seq<Event>, i: nat, j: nat)
    requires Valid(ttl, es) && ttl > 0.0 && i < j < |es| && es[i].Succeed? && es[j].Succeed?
    requires Valid(ttl, es[..j]) && Enabled(Exec(ttl, es[..j]), es[j]) && !Exec(ttl, es[..j]).calls[es[j].c].force
    ensures es[j].now - es[i].now >= ttl
  {
    CacheSince(ttl, es, i, j);
    ReachableSound(ttl, es[..j]);
  }

  /** No stampede: an unforced call that gets the lock within one TTL of a success fetches nothing and
      returns the module's cache, at least as new as that success. */
  lemma NoStampede(ttl: real, es: seq<Event>, i: nat, j: nat)
    requires Valid(ttl, es) && ttl > 0.0 && i < j < |es| && es[i].Succeed? && es[j].Acquire?
    requires Valid(ttl, es[..j]) && Enabled(Exec(ttl, es[..j]), es[j]) && !Exec(ttl, es[..j]).calls[es[j].c].force
    requires es[j].now - es[i].now < ttl
    ensures var s := Exec(ttl, es[..j]);
            && s.cache.Some? && es[i].now <= s.cache.value.fetchedAt
            && Next(ttl, s, es[j]).calls[es[j].c] == Returned(s.cache.value, es[j].now, false)
            && Next(ttl, s, es[j]).holder.None?
  {
    CacheSince(ttl, es, i, j);
  }

  /** How many unforced fetches a run completed. */
  function UnforcedSuccesses(ttl: real, es: seq<Event>): nat
    requires Valid(ttl, es)
  {
    if es == [] then 0
    else
      var front, e := es[..|es| - 1], es[|es| - 1];
      UnforcedSuccesses(ttl, front) + if e.Succeed? && !Exec(ttl, front).calls[e.c].force then 1 else 0
  }

  /** `n` TTLs. */
  function Ttls(n: nat, ttl: real): real {
    if n == 0 then 0.0 else Ttls(n - 1, ttl) + ttl
  }

  lemma {:induction false} TtlsIsProduct(n: nat, ttl: real)
    ensures Ttls(n, ttl) == n as real * ttl
  {
    if n > 0 {
      TtlsIsProduct(n - 1, ttl);
      assert n as real * ttl == (n - 1) as real * ttl + ttl;
    }
  }

  lemma {:induction false} SpacedOut(ttl: real, es: seq<Event>)
    requires Valid(ttl, es) && ttl > 0.0 && UnforcedSuccesses(ttl, es) > 0
    ensures Exec(ttl, es).cache.Some?
    ensures Ttls(UnforcedSuccesses(ttl, es) - 1, ttl) <= Exec(ttl, es).cache.value.fetchedAt
  {
    var front, e := es[..|es| - 1], es[|es| - 1];
    ReachableSound(ttl, front);
    if UnforcedSuccesses(ttl, front) > 0 {
      SpacedOut(ttl, front);
    }
  }

  lemma ProductBelow(n: nat, ttl: real, clock: real)
    requires Ttls(n, ttl) <= clock
    ensures n as real * ttl <= clock
  {
    TtlsIsProduct(n, ttl);
  }

  /** However many calls run, and however many of them force a refresh: n + 1 unforced refreshes take at
      least n TTLs. */
  lemma RefreshRate(ttl: real, es: seq<Event>, n: nat)
    requires Valid(ttl, es) && ttl > 0.0 && UnforcedSuccesses(ttl, es) == n + 1
    ensures n as real * ttl <= Exec(ttl, es).clock
  {
    SpacedOut(ttl, es);
    NotFromTheFuture(ttl, es);
    ProductBelow(n, ttl, Exec(ttl, es).clock);
  }

  lemma NotFromTheFuture(ttl: real, es: seq<Event>)
    requires Valid(ttl, es) && ttl > 0.0 && Exec(ttl, es).cache.Some?
    ensures Exec(ttl, es).cache.value.fetchedAt <= Exec(ttl, es).clock
  {
    ReachableSound(ttl, es);
  }

  // ---- The code between the suspensions ----

  /** The module-level cache of security.py, with the parts of _get_jwks that run without suspending. */
  class JwksModule {
    var cache: Option<Cache>

    constructor ()
      ensures cache == None
    {
      cache := None;
    }

    /** Before the lock: None when the call goes on to wait for it. */
    method FastPath(force: bool, ttl: real, now: real) returns (hit: Option<Cache>)
      ensures forall s: State, c: nat | s.cache == cache && Enabled(s, Enter(c, force, now)) ::
                Next(ttl, s, Enter(c, force, now)).calls[c]
                == if hit.Some? then Returned(hit.value, now, false) else Waiting(force)
    {
      if !force && cache.Some? && now - cache.value.fetchedAt < ttl {
        return cache;
      }
      hit := None;
    }

    /** Under the lock: None when the call goes on to fetch, with `snapshot` in hand. */
    method DoubleCheck(force: bool, ttl: real, now: real) returns (hit: Option<Cache>, snapshot: Option<Cache>)
      ensures forall s: State, c: nat |
                s.cache == cache && Enabled(s, Acquire(c, now)) && s.calls[c] == Waiting(force) ::
                Next(ttl, s, Acquire(c, now)).calls[c]
                == if hit.Some? then Returned(hit.value, now, false) else Fetching(force, snapshot)
    {
      snapshot := cache;
      hit := None;
      if !force && snapshot.Some? && now - snapshot.value.fetchedAt < ttl {
        hit := snapshot;
      }
    }

    /** After the fetch: `keys` is None when it raised one of the errors the call catches, and `answer` is
        None when the call raises. */
    method AfterFetch(keys: Option<seq<Jwk>>, snapshot: Option<Cache>, ttl: real, now: real)
      returns (answer: Option<Cache>)
      modifies this
      ensures forall s: State, c: nat, force: bool ::
                s.cache == old(cache) && s.clock <= now && c in s.calls && s.calls[c] == Fetching(force, snapshot) ==>
                var after := Next(ttl, s, if keys.Some? then Succeed(c, keys.value, now) else Fail(c, now));
                && cache == after.cache
                && after.calls[c] == if answer.Some? then Returned(answer.value, now, keys.None?) else Raised
    {
      if keys.Some? {
        var built := BuildCache(keys.value, now);
        cache := Some(built);
        return cache;
      }
      if snapshot.Some? && now - snapshot.value.fetchedAt < 2.0 * ttl {
        return snapshot;
      }
      answer := None;
    }
  }
}
