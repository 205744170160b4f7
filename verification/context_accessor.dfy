/**
 * The gateway's read-through cache of store contexts: a request's
 * credentials and store name select a cached context, or one built from
 * the store's record in the metadata table; the passkey must match in
 * either case, and only contexts whose passkey matched are cached.
 */
module ContextAccessor {
  import opened Wrappers
  import opened JavaExceptions
  import opened Text
  import opened GatewayTypes
  import opened StoreContext
  import ContextController

  const INCORRECT_PASSKEY := "Incorrect AccountPasskey"

  /** The request's store selector: account id, passkey and store name, any of which may be null. */
  datatype Initializer = Initializer(accountId: Option<string>, accountPasskey: Option<string>, storeName: Option<string>)

  /** The cache key: account id and store name joined by a comma. */
  function CacheKey(accountId: string, storeName: string): (k: string)
    ensures |k| == |accountId| + 1 + |storeName|
    ensures k[..|accountId|] == accountId && k[|accountId|] == ',' && k[|accountId| + 1..] == storeName
  {
    accountId + [','] + storeName
  }

  /** When account ids hold no comma, distinct (account, store) pairs have distinct cache keys. */
  lemma CacheKeyInjective(a1: string, s1: string, a2: string, s2: string)
    requires ',' !in a1 && ',' !in a2
    requires CacheKey(a1, s1) == CacheKey(a2, s2)
    ensures a1 == a2 && s1 == s2
  {
    var k := CacheKey(a1, s1);
    assert a1 == k[..|a1|] == a2;
  }

  /** Otherwise two different pairs can share a cache entry. */
  lemma CacheKeyAmbiguous()
    ensures CacheKey("a,b", "c") == CacheKey("a", "b,c")
  {
    assert "a,b" + [','] + "c" == "a" + [','] + "b,c";
  }

  /** Every cached context is valid and carries the passkey it was admitted with. */
  predicate CacheValid(cache: map<string, UserStoreContext>)
  {
    forall k :: k in cache ==> Valid(cache[k]) && cache[k].accountPasskey.Some?
  }

  /**
   * `getCtx` as a function of the cache and the table: the answer and the
   * cache afterwards.
   */
  function Resolve(cache: map<string, UserStoreContext>, items: map<ContextController.TableKey, StoreRecord>, initializer: Option<Initializer>)
    : (out: (Result<Option<UserStoreContext>, Thrown>, map<string, UserStoreContext>))
  {
    if initializer.None? then (Err(NullPointer), cache)
    else
      var init := initializer.value;
      if init.accountId.None? || init.accountPasskey.None? || init.storeName.None? then (Err(NullPointer), cache)
      else
        var key := CacheKey(init.accountId.value, init.storeName.value);
        if key in cache then
          if init.accountPasskey != cache[key].accountPasskey then (Err(IllegalArgument(INCORRECT_PASSKEY)), cache)
          else (Ok(Some(cache[key])), cache)
        else if (init.accountId.value, init.storeName.value) !in items then (Ok(None), cache)
        else
          var ctx := From(items[(init.accountId.value, init.storeName.value)]);
          if ctx.Err? then (Err(ctx.error), cache)
          else if init.accountPasskey != ctx.value.accountPasskey then (Err(IllegalArgument(INCORRECT_PASSKEY)), cache)
          else (Ok(Some(ctx.value)), cache[key := ctx.value])
  }

  /**
   * The cache only grows: an entry once cached is never replaced or removed,
   * and the only entry ever added is the one for the request's key.
   */
  lemma ResolveNeverReplaces(cache: map<string, UserStoreContext>, items: map<ContextController.TableKey, StoreRecord>, initializer: Option<Initializer>)
    ensures var after := Resolve(cache, items, initializer).1;
      && (forall k :: k in cache ==> k in after && after[k] == cache[k])
      && (forall k :: k in after && k !in cache ==>
            initializer.Some? && initializer.value.accountId.Some? && initializer.value.storeName.Some?
            && k == CacheKey(initializer.value.accountId.value, initializer.value.storeName.value))
  {
  }

  /**
   * Every answer that is a context carries the request's passkey; a request
   * whose passkey differs from the store's is refused, hit or miss.
   */
  lemma ResolveChecksPasskey(cache: map<string, UserStoreContext>, items: map<ContextController.TableKey, StoreRecord>, initializer: Option<Initializer>)
    ensures var r := Resolve(cache, items, initializer).0;
      r.Ok? && r.value.Some? ==> initializer.Some? && r.value.value.accountPasskey == initializer.value.accountPasskey
  {
  }

  /** Resolution keeps the cache valid. */
  lemma ResolveKeepsValid(cache: map<string, UserStoreContext>, items: map<ContextController.TableKey, StoreRecord>, initializer: Option<Initializer>)
    requires CacheValid(cache)
    ensures CacheValid(Resolve(cache, items, initializer).1)
  {
    var after := Resolve(cache, items, initializer).1;
    if after != cache {
      var init := initializer.value;
      var record := items[(init.accountId.value, init.storeName.value)];
      FromValid(record, From(record).value);
    }
  }

  /**
   * Once a request has been answered with a context, repeating it gives the
   * same context from the cache, whatever the table holds by then.
   */
  lemma ResolveRepeat(cache: map<string, UserStoreContext>, items: map<ContextController.TableKey, StoreRecord>,
                      later: map<ContextController.TableKey, StoreRecord>, initializer: Option<Initializer>)
    requires Resolve(cache, items, initializer).0.Ok? && Resolve(cache, items, initializer).0.value.Some?
    ensures var (r, after) := Resolve(cache, items, initializer);
      Resolve(after, later, initializer) == (r, after)
  {
  }

  /** The cache in front of the metadata table. */
  class Accessor {
    const contextSot: ContextController.MetadataTable
    var cache: map<string, UserStoreContext>

    constructor(contextSot: ContextController.MetadataTable)
      ensures this.contextSot == contextSot && cache == map[]
    {
      this.contextSot := contextSot;
      cache := map[];
    }

    /** `putIfAbsent`: an existing entry is never replaced. */
    method PutIfAbsent(key: string, ctx: UserStoreContext)
      modifies this
      ensures cache == if key in old(cache) then old(cache) else old(cache)[key := ctx]
    {
      if key !in cache {
        cache := cache[key := ctx];
      }
    }

    /**
     * `getCtx`: null arguments throw NullPointerException; a cached context
     * is returned when the passkey matches and refused when it does not,
     * without a read; on a miss, an absent record gives empty, a record that
     * does not build is refused, a passkey mismatch is refused, and
     * otherwise the context is cached and returned.
     */
    method GetCtx(initializer: Option<Initializer>) returns (r: Result<Option<UserStoreContext>, Thrown>)
      modifies this
      ensures (r, cache) == Resolve(old(cache), contextSot.items, initializer)
    {
      if initializer.None? {
        return Err(NullPointer);
      }
      var init := initializer.value;
      if init.accountId.None? || init.accountPasskey.None? || init.storeName.None? {
        return Err(NullPointer);
      }
      var key := CacheKey(init.accountId.value, init.storeName.value);
      if key in cache {
        var cached := cache[key];
        if init.accountPasskey != cached.accountPasskey {
          return Err(IllegalArgument(INCORRECT_PASSKEY));
        }
        return Ok(Some(cached));
      }
      var item := contextSot.GetItem(init.accountId, init.storeName);
      if item.value.None? {
        return Ok(None);
      }
      var ctx := From(item.value.value);
      if ctx.Err? {
        return Err(ctx.error);
      }
      if init.accountPasskey != ctx.value.accountPasskey {
        return Err(IllegalArgument(INCORRECT_PASSKEY));
      }
      PutIfAbsent(key, ctx.value);
      return Ok(Some(ctx.value));
    }
  }
}
