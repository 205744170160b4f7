/**
 * The earlier, fixed table of store contexts: one hard-wired testing store,
 * looked up by account id and store name and guarded by its passkey.
 */
module ContextFactory {
  import opened Wrappers
  import opened JavaExceptions
  import opened GatewayTypes
  import opened StoreContext
  import ContextAccessor

  const NOT_AUTHORIZED := "Not Authorized"

  const TESTING_ACCOUNT := "testing-account"
  const TESTING_STORE := "testing-store"
  const TESTING_PASSKEY := "testing-passkey"

  /** The lookup key; its equality compares account id and store name. */
  datatype Key = Key(accountId: Option<string>, storeName: Option<string>)

  /** `Key.equals`: both components equal. */
  predicate KeyEquals(a: Key, b: Key)
  {
    a.accountId == b.accountId && a.storeName == b.storeName
  }

  /** Key equality is exactly equality of the (account, store) pair. */
  lemma KeyEqualsIsEquality(a: Key, b: Key)
    ensures KeyEquals(a, b) <==> a == b
  {
  }

  /** The stored passkey and the context it guards. */
  datatype Value = Value(accountPasskey: string, userStoreContext: UserStoreContext)

  /** The testing store: both keys are `userid`, the topic is `testing-topic`. */
  const TESTING_CONTEXT := UserStoreContext(Some(TESTING_ACCOUNT), TESTING_STORE, "testing-topic", 1, "userid", "userid", None)

  const SEEDED: map<Key, Value> := map[Key(Some(TESTING_ACCOUNT), Some(TESTING_STORE)) := Value(TESTING_PASSKEY, TESTING_CONTEXT)]

  /** The table of contexts. */
  class Factory {
    var contexts: map<Key, Value>

    /** Seeds exactly the testing store. */
    constructor()
      ensures contexts == SEEDED
    {
      contexts := SEEDED;
    }

    /**
     * `getCtx`: a null initializer throws NullPointerException; an unknown
     * (account, store) pair gives empty; a passkey that differs from the
     * stored one is refused with "Not Authorized"; otherwise the stored
     * context.
     */
    function GetCtx(initializer: Option<ContextAccessor.Initializer>): (r: Result<Option<UserStoreContext>, Thrown>)
      reads this
      ensures initializer.None? ==> r == Err(NullPointer)
      ensures initializer.Some? ==>
        var key := Key(initializer.value.accountId, initializer.value.storeName);
        && (key !in contexts ==> r == Ok(None))
        && (key in contexts && initializer.value.accountPasskey != Some(contexts[key].accountPasskey) ==> r == Err(IllegalArgument(NOT_AUTHORIZED)))
        && (key in contexts && initializer.value.accountPasskey == Some(contexts[key].accountPasskey) ==> r == Ok(Some(contexts[key].userStoreContext)))
    {
      if initializer.None? then Err(NullPointer)
      else
        var init := initializer.value;
        var key := Key(init.accountId, init.storeName);
        if key !in contexts then Ok(None)
        else if init.accountPasskey != Some(contexts[key].accountPasskey) then Err(IllegalArgument(NOT_AUTHORIZED))
        else Ok(Some(contexts[key].userStoreContext))
    }

    /**
     * As seeded, the table answers with a context only for the testing
     * account, store and passkey, and refuses every other passkey for that
     * store.
     */
    lemma OnlyTestingStore(initializer: ContextAccessor.Initializer)
      requires contexts == SEEDED
      ensures GetCtx(Some(initializer)).Ok? && GetCtx(Some(initializer)).value.Some? <==>
        initializer == ContextAccessor.Initializer(Some(TESTING_ACCOUNT), Some(TESTING_PASSKEY), Some(TESTING_STORE))
      ensures GetCtx(Some(initializer)).Err? <==>
        initializer.accountId == Some(TESTING_ACCOUNT) && initializer.storeName == Some(TESTING_STORE)
        && initializer.accountPasskey != Some(TESTING_PASSKEY)
    {
    }
  }
}
