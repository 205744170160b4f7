/**
 * The readers' configuration merge: the server supplies a configuration,
 * and every entry the client set overrides the server's entry under the
 * same key, map by map; keys only the server has are kept.
 */
module ConfigMerge {
  import opened StoreConfig

  /** The merged configuration: in each map, the client's entries over the server's. */
  function Merged(server: IKVStoreConfig, client: IKVStoreConfig): IKVStoreConfig
  {
    IKVStoreConfig(
      server.stringConfigs + client.stringConfigs,
      server.intConfigs + client.intConfigs,
      server.booleanConfigs + client.booleanConfigs,
      server.bytesConfigs + client.bytesConfigs)
  }

  /** What a merged map holds: exactly the keys of either side, the client's value where it has one. */
  ghost predicate MergedOf<V>(merged: map<string, V>, server: map<string, V>, client: map<string, V>)
  {
    (forall k :: k in merged <==> k in server || k in client)
    && (forall k :: k in client ==> merged[k] == client[k])
    && (forall k :: k in server && k !in client ==> merged[k] == server[k])
  }

  /** The client wins on every shared key, the server's other keys survive, and nothing else appears. */
  lemma MergedMeaning(server: IKVStoreConfig, client: IKVStoreConfig)
    ensures var m := Merged(server, client);
      MergedOf(m.stringConfigs, server.stringConfigs, client.stringConfigs)
      && MergedOf(m.intConfigs, server.intConfigs, client.intConfigs)
      && MergedOf(m.booleanConfigs, server.booleanConfigs, client.booleanConfigs)
      && MergedOf(m.bytesConfigs, server.bytesConfigs, client.bytesConfigs)
  {
  }

  /** Merging the same client configuration twice changes nothing more. */
  lemma MergeIdempotent(server: IKVStoreConfig, client: IKVStoreConfig)
    ensures Merged(Merged(server, client), client) == Merged(server, client)
  {
    var m := Merged(server, client);
    assert m.stringConfigs + client.stringConfigs == m.stringConfigs;
    assert m.intConfigs + client.intConfigs == m.intConfigs;
    assert m.booleanConfigs + client.booleanConfigs == m.booleanConfigs;
    assert m.bytesConfigs + client.bytesConfigs == m.bytesConfigs;
  }

  /**
   * `for k, v := range client { server[k] = v }`: the client's entries
   * written over the server map one at a time, in whatever order the keys
   * come.
   */
  method Overwrite<V>(server: map<string, V>, client: map<string, V>) returns (merged: map<string, V>)
    ensures merged == server + client
    ensures MergedOf(merged, server, client)
  {
    merged := server;
    var todo := client.Keys;
    while todo != {}
      invariant todo <= client.Keys
      invariant merged == server + (map k | k in client && k !in todo :: client[k])
      decreases |todo|
    {
      var k :| k in todo;
      merged := merged[k := client[k]];
      todo := todo - {k};
    }
    assert (map k | k in client && k !in todo :: client[k]) == client;
  }

  /** The merge as the readers run it, map by map. */
  method MergeConfigs(server: IKVStoreConfig, client: IKVStoreConfig) returns (merged: IKVStoreConfig)
    ensures merged == Merged(server, client)
  {
    var strings := Overwrite(server.stringConfigs, client.stringConfigs);
    var ints := Overwrite(server.intConfigs, client.intConfigs);
    var bools := Overwrite(server.booleanConfigs, client.booleanConfigs);
    var bytes := Overwrite(server.bytesConfigs, client.bytesConfigs);
    merged := IKVStoreConfig(strings, ints, bools, bytes);
  }
}
