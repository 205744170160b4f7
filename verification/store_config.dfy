/**
 * The store configuration message every component reads: typed maps from
 * configuration key to value.
 */
module StoreConfig {
  import opened ByteCodec

  /** `IKVStoreConfig` without its float map, which nothing here reads. */
  datatype IKVStoreConfig = IKVStoreConfig(
    stringConfigs: map<string, string>,
    intConfigs: map<string, int>,
    booleanConfigs: map<string, bool>,
    bytesConfigs: map<string, Bytes>)

  const EMPTY_CONFIG: IKVStoreConfig := IKVStoreConfig(map[], map[], map[], map[])

  // Configuration keys.
  const ACCOUNT_ID := "account_id"
  const ACCOUNT_PASSKEY := "account_passkey"
  const MOUNT_DIRECTORY := "mount_directory"
  const STORE_NAME := "store_name"
  const PARTITION := "partition"
  const PRIMARY_KEY_FIELD_NAME := "primary_key_field_name"
  const PARTITIONING_KEY_FIELD_NAME := "partitioning_key_field_name"
  const NUM_KAFKA_PARTITIONS := "num_kafka_partitions"
  const KAFKA_CONSUMER_BOOTSTRAP_SERVER := "kafka_bootstrap_server"
  const KAFKA_CONSUMER_TOPIC_NAME := "kafka_topic"
  const BASE_INDEX_S3_BUCKET_NAME := "base_index_s3_bucket_name"
  /** No key string is declared for the bucket prefix; this one follows its siblings' pattern. */
  const BASE_INDEX_S3_BUCKET_PREFIX := "base_index_s3_bucket_prefix"
  const RUST_CLIENT_LOG_LEVEL := "rust_client_log_level"
  const RUST_CLIENT_LOG_TO_CONSOLE := "rust_client_log_to_console"
  const RUST_CLIENT_LOG_FILE := "rust_client_log_file"

  /** The bucket holding every store's base index. */
  const S3_BASE_INDEX_BUCKET := "ikv-base-index-v1"
}
