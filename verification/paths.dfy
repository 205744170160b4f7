/**
 * Mount paths of an index: where a reader mounts it and where a builder
 * works on it, both under the configured mount directory.
 */
module MountPaths {
  import opened Wrappers
  import opened Text
  import opened StoreConfig

  /** The error for a missing required key. */
  function Required(key: string): string
  {
    key + " is a required client-specified config"
  }

  /** The three inputs of both paths, or the error naming the first one missing. */
  function PathParts(config: IKVStoreConfig): (r: Result<(string, string, int), string>)
    ensures r.Ok? <==> "mount_directory" in config.stringConfigs && "store_name" in config.stringConfigs
                        && "partition" in config.intConfigs
    ensures "mount_directory" !in config.stringConfigs ==> r == Err(Required("mount_directory"))
    ensures "mount_directory" in config.stringConfigs && "store_name" !in config.stringConfigs ==>
      r == Err(Required("store_name"))
    ensures r.Ok? ==> r.value == (config.stringConfigs["mount_directory"], config.stringConfigs["store_name"],
                                  config.intConfigs["partition"])
  {
    if "mount_directory" !in config.stringConfigs then Err(Required("mount_directory"))
    else if "store_name" !in config.stringConfigs then Err(Required("store_name"))
    else if "partition" !in config.intConfigs then Err(Required("partition"))
    else Ok((config.stringConfigs["mount_directory"], config.stringConfigs["store_name"], config.intConfigs["partition"]))
  }

  /** `get_index_mount_directory_fqn`: "{mount_directory}/{store_name}/{partition}". */
  function IndexMountDirectory(config: IKVStoreConfig): (r: Result<string, string>)
    ensures r.Err? <==> PathParts(config).Err?
    ensures r.Err? ==> r.error == PathParts(config).error
  {
    match PathParts(config)
    case Err(e) => Err(e)
    case Ok((mount, store, partition)) => Ok(mount + "/" + store + "/" + IntToString(partition))
  }

  /** `get_working_mount_directory_fqn`: "{mount_directory}/working_dir/{store_name}/{partition}". */
  function WorkingMountDirectory(config: IKVStoreConfig): (r: Result<string, string>)
    ensures r.Err? <==> PathParts(config).Err?
    ensures r.Err? ==> r.error == PathParts(config).error
  {
    match PathParts(config)
    case Err(e) => Err(e)
    case Ok((mount, store, partition)) => Ok(mount + "/working_dir/" + store + "/" + IntToString(partition))
  }

  /**
   * The working directory is the index directory with "/working_dir" put
   * after the mount directory, so for any configuration the two differ.
   */
  lemma WorkingDirectoryInsertsSegment(config: IKVStoreConfig)
    requires IndexMountDirectory(config).Ok?
    ensures var mount := config.stringConfigs["mount_directory"];
      var index := IndexMountDirectory(config).value;
      && WorkingMountDirectory(config) == Ok(mount + "/working_dir" + index[|mount|..])
      && WorkingMountDirectory(config).value != index
  {
    var mount := config.stringConfigs["mount_directory"];
    var store, partition := config.stringConfigs["store_name"], IntToString(config.intConfigs["partition"]);
    InsertSegment(mount, store, partition);
  }

  /** Putting "/working_dir" after the mount directory of "{mount}/{store}/{partition}". */
  lemma InsertSegment(mount: string, store: string, partition: string)
    ensures var index := mount + "/" + store + "/" + partition;
      var work := mount + "/working_dir/" + store + "/" + partition;
      work == mount + "/working_dir" + index[|mount|..] && |work| == |index| + 12
  {
    var rest := "/" + store + "/" + partition;
    var index := mount + "/" + store + "/" + partition;
    assert index == mount + rest;
    assert index[|mount|..] == rest;
    assert "/working_dir/" == "/working_dir" + "/";
  }
}
