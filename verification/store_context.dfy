/**
 * The gateway's in-memory view of a provisioned store: built from the stored
 * store record after checking its required fields, and able to produce the
 * part of the store configuration the gateway decides.
 */
module StoreContext {
  import opened Wrappers
  import opened JavaExceptions
  import opened ByteCodec
  import opened StoreConfig
  import opened GatewayTypes

  /** The bootstrap server every store's readers consume from. */
  const KAFKA_BOOTSTRAP_SERVER := "b-2.mskcluster1.yz62h3.c5.kafka.us-west-2.amazonaws.com:9098"

  /**
   * The stored store record, any field of which may be null. The passkey
   * is the one the context is checked against when it is looked up.
   */
  datatype StoreRecord = StoreRecord(
    accountId: Option<string>,
    storeName: Option<string>,
    numPartitions: Option<int>,
    kafkaTopicName: Option<string>,
    primaryKeyFieldName: Option<string>,
    partitioningKeyFieldName: Option<string>,
    fieldSchema: Option<seq<Bytes>>,
    fieldSchemaVersion: Option<int>,
    accountPasskey: Option<string>)

  /** A validated store context. */
  datatype UserStoreContext = UserStoreContext(
    accountId: Option<string>,
    storeName: string,
    kafkaTopic: string,
    numKafkaPartitions: int,
    primaryKeyFieldName: string,
    partitioningKeyFieldName: string,
    accountPasskey: Option<string>)

  /** Non-null and non-empty. */
  predicate Given(s: Option<string>)
  {
    s.Some? && s.value != []
  }

  /** The checks construction makes; the account id is not among them. */
  predicate Acceptable(record: StoreRecord)
  {
    && Given(record.storeName)
    && Given(record.kafkaTopicName)
    && record.numPartitions.Some? && record.numPartitions.value > 0
    && Given(record.primaryKeyFieldName)
    && Given(record.partitioningKeyFieldName)
  }

  /**
   * `UserStoreContext.from`: a record missing a store name, topic, primary
   * or partitioning key name, or a positive partition count is refused with
   * an IllegalArgumentException (without message); otherwise the accessors
   * give the record's fields unchanged.
   */
  function From(record: StoreRecord): (r: Result<UserStoreContext, Thrown>)
    ensures r.Ok? <==> Acceptable(record)
    ensures r.Err? ==> r.error == IllegalArgument("")
    ensures r.Ok? ==>
      && Some(r.value.storeName) == record.storeName
      && Some(r.value.kafkaTopic) == record.kafkaTopicName
      && Some(r.value.numKafkaPartitions) == record.numPartitions
      && Some(r.value.primaryKeyFieldName) == record.primaryKeyFieldName
      && Some(r.value.partitioningKeyFieldName) == record.partitioningKeyFieldName
      && r.value.accountId == record.accountId
      && r.value.accountPasskey == record.accountPasskey
  {
    if !Given(record.storeName) || !Given(record.kafkaTopicName) then Err(IllegalArgument(""))
    else if record.numPartitions.None? || record.numPartitions.value <= 0 then Err(IllegalArgument(""))
    else if !Given(record.primaryKeyFieldName) || !Given(record.partitioningKeyFieldName) then Err(IllegalArgument(""))
    else Ok(UserStoreContext(
      record.accountId, record.storeName.value, record.kafkaTopicName.value, record.numPartitions.value,
      record.primaryKeyFieldName.value, record.partitioningKeyFieldName.value, record.accountPasskey))
  }

  /** Every context that construction admits has non-empty names and a positive partition count. */
  predicate Valid(ctx: UserStoreContext)
  {
    ctx.storeName != [] && ctx.kafkaTopic != [] && ctx.numKafkaPartitions > 0
    && ctx.primaryKeyFieldName != [] && ctx.partitioningKeyFieldName != []
  }

  /** What construction admits is valid, and any valid context is what some record constructs. */
  lemma FromValid(record: StoreRecord, ctx: UserStoreContext)
    ensures From(record) == Ok(ctx) ==> Valid(ctx)
    ensures Valid(ctx) ==> From(Record(ctx)) == Ok(ctx)
  {
  }

  /** A record carrying exactly a context's fields. */
  function Record(ctx: UserStoreContext): StoreRecord
  {
    StoreRecord(ctx.accountId, Some(ctx.storeName), Some(ctx.numKafkaPartitions), Some(ctx.kafkaTopic),
      Some(ctx.primaryKeyFieldName), Some(ctx.partitioningKeyFieldName), None, None, ctx.accountPasskey)
  }

  /** The account id, the schema and the passkey play no part in the checks. */
  lemma AccountIdUnchecked(record: StoreRecord, accountId: Option<string>, schema: Option<seq<Bytes>>, version: Option<int>)
    ensures From(record.(accountId := accountId, fieldSchema := schema, fieldSchemaVersion := version)).Ok? == From(record).Ok?
  {
  }

  /** Java's `%s` rendering of a possibly null string. */
  function Rendered(s: Option<string>): string
  {
    if s.Some? then s.value else "null"
  }

  /** The string entries the gateway supplies. */
  function GatewayKeys(): set<string>
  {
    {STORE_NAME, PRIMARY_KEY_FIELD_NAME, PARTITIONING_KEY_FIELD_NAME,
      KAFKA_CONSUMER_BOOTSTRAP_SERVER, KAFKA_CONSUMER_TOPIC_NAME, BASE_INDEX_S3_BUCKET_PREFIX, BASE_INDEX_S3_BUCKET_NAME}
  }

  /** The seven names are distinct: by length, or by first letter where two lengths agree. */
  lemma GatewayKeysAreSeven()
    ensures |GatewayKeys()| == 7
  {
    var a, b, c, d := STORE_NAME, KAFKA_CONSUMER_TOPIC_NAME, BASE_INDEX_S3_BUCKET_NAME, PRIMARY_KEY_FIELD_NAME;
    var e, f, g := KAFKA_CONSUMER_BOOTSTRAP_SERVER, PARTITIONING_KEY_FIELD_NAME, BASE_INDEX_S3_BUCKET_PREFIX;
    assert |a| == 10 && |b| == 11 && |c| == 25 && |d| == 22 && |e| == 22 && |f| == 27 && |g| == 27;
    assert d[0] == 'p' && e[0] == 'k' && f[0] == 'p' && g[0] == 'b';
    var s4 := {a, b, c, d};
    assert |s4| == 4;
    assert |s4 + {e}| == 5 by { assert e !in s4; }
    assert |s4 + {e} + {f}| == 6 by { assert f !in s4 + {e}; }
    assert |s4 + {e} + {f} + {g}| == 7 by { assert g !in s4 + {e} + {f}; }
    assert s4 + {e} + {f} + {g} == GatewayKeys();
  }

  /**
   * `createGatewaySpecifiedConfigs`: seven string entries (store name, both
   * key names, bootstrap server, topic, the base-index bucket and its
   * prefix "{accountId}/{storeName}") and the partition count, and nothing
   * else.
   */
  function CreateGatewaySpecifiedConfigs(ctx: UserStoreContext): (r: IKVStoreConfig)
    ensures r.stringConfigs.Keys == GatewayKeys()
    ensures |r.stringConfigs| == 7
    ensures r.intConfigs == map[NUM_KAFKA_PARTITIONS := ctx.numKafkaPartitions]
    ensures r.booleanConfigs == map[] && r.bytesConfigs == map[]
  {
    var strings := map[
      STORE_NAME := ctx.storeName,
      PRIMARY_KEY_FIELD_NAME := ctx.primaryKeyFieldName,
      PARTITIONING_KEY_FIELD_NAME := ctx.partitioningKeyFieldName,
      KAFKA_CONSUMER_BOOTSTRAP_SERVER := KAFKA_BOOTSTRAP_SERVER,
      KAFKA_CONSUMER_TOPIC_NAME := ctx.kafkaTopic,
      BASE_INDEX_S3_BUCKET_PREFIX := Rendered(ctx.accountId) + "/" + ctx.storeName,
      BASE_INDEX_S3_BUCKET_NAME := S3_BASE_INDEX_BUCKET];
    GatewayKeysAreSeven();
    assert strings.Keys == GatewayKeys();
    IKVStoreConfig(strings, map[NUM_KAFKA_PARTITIONS := ctx.numKafkaPartitions], map[], map[])
  }

  /**
   * Reading the configuration back gives the context's own names and
   * partition count, and the prefix ends in "/" and the store name.
   */
  lemma ConfigsReadBack(ctx: UserStoreContext)
    ensures var c := CreateGatewaySpecifiedConfigs(ctx);
      && c.stringConfigs[STORE_NAME] == ctx.storeName
      && c.stringConfigs[PRIMARY_KEY_FIELD_NAME] == ctx.primaryKeyFieldName
      && c.stringConfigs[PARTITIONING_KEY_FIELD_NAME] == ctx.partitioningKeyFieldName
      && c.stringConfigs[KAFKA_CONSUMER_TOPIC_NAME] == ctx.kafkaTopic
      && c.intConfigs[NUM_KAFKA_PARTITIONS] == ctx.numKafkaPartitions
      && c.stringConfigs[BASE_INDEX_S3_BUCKET_NAME] == S3_BASE_INDEX_BUCKET
  {
  }

  /** The prefix is "{accountId}/{storeName}", with a null account id rendered "null". */
  lemma BucketPrefix(ctx: UserStoreContext)
    ensures var p := CreateGatewaySpecifiedConfigs(ctx).stringConfigs[BASE_INDEX_S3_BUCKET_PREFIX];
      && (ctx.accountId.Some? ==> p == ctx.accountId.value + "/" + ctx.storeName)
      && (ctx.accountId.None? ==> p == "null/" + ctx.storeName)
  {
  }
}
