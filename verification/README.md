# ikv-store core, modelled in Dafny

IKV is an embedded key-value store made of three layers. This project models the core logic of each layer and proves properties of it.

- **Rust columnar index.** Each segment keeps an offset table from a primary key to a vector of offsets into a memory-mapped value region. It logs every mutation and rebuilds the table by replaying that log. Sixteen segments share one schema of field ids, and a primary key goes to the segment `hash(pk) mod 16`.
- **Java gateway write path.** It validates and publishes documents to Kafka.
- **Clients.** The Java, Python and Go clients share a length-prefixed batch-read format, a native-binary version selector, and option and document builders.

Files, memory maps, locks, Kafka, DynamoDB, S3, JNI and the hash function are abstract state or parameters. Every operation runs sequentially.

Layout: one module per source file, plus shared modules.

| Module | Contents |
|---|---|
| `Wrappers` | `Option`, `Result`, `Outcome` (`Panicked` for a Rust panic) |
| `ByteCodec` | Little-endian integers, two's complement, and the base-128 varint described under "Base 128 Varints" in the Protocol Buffers encoding guide |
| `Text` | UTF-8 and string helpers |
| `SizePrefixed` | The i32 length-prefixed batch framing |

## Model

| member | source | states |
|---|---|---|
| ByteCodec.I32RoundTrip | ikv/src/index/ckv_segment.rs:322 | An i32 length written little-endian reads back as the same length when it fits 32 bits |
| ByteCodec.NoneSizeIsMinusOne | ikv/src/index/ckv_segment.rs:35 | The four bytes of the missing-value marker read as -1 |
| ByteCodec.VarintRoundTrip | ikv/src/index/ckv_segment.rs:363-370 | Decoding the varint length prefix gives back the value and the number of bytes it took, whatever follows |
| ByteCodec.VarintSpaceIsLength | ikv/src/index/ckv_segment.rs:411-420 | `required_space` is exactly the number of varint bytes written |
| ByteCodec.VarintSpaceOfU32 | ikv/src/index/ckv_segment.rs:411-420 | A length below 2^32 takes at most five varint bytes |
| ByteCodec.DecodeVarintPrefix | ikv/src/index/ckv_segment.rs:365 | A successful varint reading depends only on the bytes it consumed |
| CkvSegment.FromTagOfTag | ikv/src/index/ckv_segment.rs:345 | Every field type is recovered from its own tag |
| CkvSegment.SizeOfMmapEntry | ikv/src/index/ckv_segment.rs:397-424 | Fails exactly for a tag beyond u16::MAX, or a string or bytes value beyond u32::MAX bytes; otherwise 2 bytes plus 0, 4, 8 or 1, or the varint length plus the length |
| CkvSegment.EncodeEntryLength | ikv/src/index/ckv_segment.rs:427-489 | The bytes written for a value are exactly as many as `size_of_mmap_entry` computes |
| CkvSegment.WriteToMmap | ikv/src/index/ckv_segment.rs:427-489 | Fails for a tag beyond u16::MAX; otherwise overwrites exactly the entry's bytes at the offset, keeps the region's length and reports the entry's size |
| CkvSegment.ReadFromMmap | ikv/src/index/ckv_segment.rs:330-373 | The sentinel offset and an unrecognised tag read as None; an UNKNOWN value reads as an empty slice |
| CkvSegment.ReadEntryOfEncoded | ikv/src/index/ckv_segment.rs:330-373 | An entry written at an offset reads back there with the same type and value, for every type |
| CkvSegment.WriteThenRead | ikv/src/index/ckv_segment.rs:427-489 | `read_from_mmap` at the offset `write_to_mmap` used returns the written type and payload |
| CkvSegment.ReadEntryExtends | ikv/src/index/ckv_segment.rs:330-373 | Reading an entry depends only on the bytes up to the entry's end |
| CkvSegment.MaxPlusOne | ikv/src/index/ckv_segment.rs:544-546 | The length an update grows a vector to is above every written id, and is the smallest such length |
| CkvSegment.UpdateSlotsLength | ikv/src/index/ckv_segment.rs:540-548 | After an update the vector is long enough for every written id and never shrinks |
| CkvSegment.UpdateSlotsWritten | ikv/src/index/ckv_segment.rs:540-548 | A written id holds the offset of its last occurrence in the update |
| CkvSegment.UpdateSlotsUntouched | ikv/src/index/ckv_segment.rs:540-548 | A slot no id names keeps its offset, and slots added by growing hold the sentinel |
| CkvSegment.ClearSlotsSpec | ikv/src/index/ckv_segment.rs:599-611 | Clearing keeps the length; exactly the requested in-range slots become the sentinel |
| CkvSegment.ClearSlotsLoop | ikv/src/index/ckv_segment.rs:599-611 | The clearing loop computes `ClearSlots` |
| CkvSegment.UpdateSlotsLoop | ikv/src/index/ckv_segment.rs:109-123 | The replay's slot-setting loop computes `UpdateSlots` |
| CkvSegment.ReplayLog | ikv/src/index/ckv_segment.rs:80-141 | Replaying the saved log entry by entry rebuilds the table `Replay` defines |
| CkvSegment.TotalEntrySize | ikv/src/index/ckv_segment.rs:514-520 | The total size of a batch, or the error of the first value whose size fails |
| CkvSegment.WriteBatch | ikv/src/index/ckv_segment.rs:532-556 | Values are written one after another from the write offset; each reads back at its recorded offset, and the new write offset is the start plus the total size |
| CkvSegment.Segment.Create | ikv/src/index/ckv_segment.rs:171-192 | A new segment has an empty table, log and region |
| CkvSegment.Segment.Reopen | ikv/src/index/ckv_segment.rs:65-168 | Reopening rebuilds the table by replaying the saved log and keeps the saved region and write offset |
| CkvSegment.Segment.ReadField | ikv/src/index/ckv_segment.rs:270-281 | None for an unknown key, an id past the vector, a sentinel slot or an UNKNOWN-typed value; otherwise the stored payload |
| CkvSegment.Segment.ReadFields | ikv/src/index/ckv_segment.rs:287-328 | Appends one slot per requested id to the destination: -1 when missing, else the i32 length and the value, agreeing with `read_field` |
| CkvSegment.Segment.ExpandIfRequired | ikv/src/index/ckv_segment.rs:666-696 | Afterwards the region has room for the bytes, grows only in zeroed 8 MiB chunks, and keeps its old contents |
| CkvSegment.Segment.UpsertDocument | ikv/src/index/ckv_segment.rs:492-567 | An empty key or id list changes nothing; a size error changes nothing; otherwise each field reads back as written, other slots and keys are unchanged, and the update is logged |
| CkvSegment.UpdateKeepsOtherReads | ikv/src/index/ckv_segment.rs:492-567 | An update written past the old region leaves every other key's reads, and the updated key's reads of ids it does not name, as they were |
| CkvSegment.Segment.DeleteFieldValues | ikv/src/index/ckv_segment.rs:574-612 | Only the key's in-range requested slots become absent; other fields and keys are unchanged, and the deletion is logged |
| CkvSegment.Segment.DeleteDocument | ikv/src/index/ckv_segment.rs:615-632 | The key disappears from the table; other keys are unchanged, and the deletion is logged |
| CkvSegment.Segment.DeleteAllDocuments | ikv/src/index/ckv_segment.rs:635-653 | The table, log and region are empty afterwards |
| SchemaStore.AssignSpec | ikv/src/index/schema_store.rs:153-172 | Known names keep their ids; every visited name ends up in the table and nothing else is added; new ids lie between the old and the new counter |
| SchemaStore.AssignCount | ikv/src/index/schema_store.rs:157-165 | The counter moves up by exactly the number of names added |
| SchemaStore.AssignKeepsIdsDistinct | ikv/src/index/schema_store.rs:157-165 | Assigning ids keeps them distinct and below the counter |
| SchemaStore.UpsertKnownNamesIsNoOp | ikv/src/index/schema_store.rs:153-172 | Upserting only known names changes neither the table nor the counter |
| SchemaStore.MatchesAny | ikv/src/index/schema_store.rs:185-191 | A name matches exactly when it starts with one of the prefixes |
| SchemaStore.SortIds | ikv/src/index/schema_store.rs:120 | Sorting distinct ids gives an increasing sequence with the same elements |
| SchemaStore.ReopenCounter | ikv/src/index/schema_store.rs:70-73 | A saved counter of 0 falls back to the number of saved names; any other saved counter is kept |
| SchemaStore.ReopenKeepsSavedCounter | ikv/src/index/schema_store.rs:70-73 | A schema that was valid when saved reopens with the counter it saved |
| SchemaStore.IndexSchema.Create | ikv/src/index/schema_store.rs:35-48 | A new schema holds only the primary key, with id 0, and the counter is 1 |
| SchemaStore.IndexSchema.Reopen | ikv/src/index/schema_store.rs:50-81 | Reopening takes the saved names, ids and primary key, with the counter fallback |
| SchemaStore.IndexSchema.FetchIdByName | ikv/src/index/schema_store.rs:138-140 | The id of a known name, None otherwise |
| SchemaStore.IndexSchema.ExtractPrimaryKeyValue | ikv/src/index/schema_store.rs:142-147 | The document's value under the primary-key name, None when it has none |
| SchemaStore.IndexSchema.UpsertSchema | ikv/src/index/schema_store.rs:153-172 | New names get fresh ids in visiting order and known names keep theirs; the schema stays valid |
| SchemaStore.IndexSchema.SoftDeleteFields | ikv/src/index/schema_store.rs:176-211 | Drops exactly the listed and prefixed names, never the primary key, and leaves the counter alone |
| SchemaStore.IndexSchema.HardDeleteAllFields | ikv/src/index/schema_store.rs:215-225 | Back to the fresh state: only the primary key, at 0, with the counter at 1 |
| SchemaStore.IndexSchema.Compact | ikv/src/index/schema_store.rs:111-136 | Renumbers the names 0..n-1 in the order of their old ids, keeps the primary key at 0, and returns the new-id to old-id vector |
| SchemaStore.CollectIds | ikv/src/index/schema_store.rs:113-119 | Every id of the table exactly once, with the inverse map from id to name |
| SchemaStore.Renumber | ikv/src/index/schema_store.rs:123-132 | The name of the i-th smallest old id gets id i |
| SchemaStore.CompactResult | ikv/src/index/schema_store.rs:111-136 | The compacted table has the old names, dense distinct ids, and the primary key at 0 |
| SchemaStore.CompactKeepsOrder | ikv/src/index/schema_store.rs:111-136 | Compaction keeps the relative order of the ids |
| SchemaField.IdOfNew | ikv/src/schema/field.rs:8-14 | `id()` gives back the id the field was created with |
| SchemaField.ValueLen | ikv/src/schema/field.rs:17-22 | Four bytes for I32; no fixed width for strings and bytes |
| SchemaField.TryFrom | ikv/src/schema/field.rs:35-42 | The three type names convert; anything else is an error naming it |
| SchemaField.TryFromTypeName | ikv/src/schema/field.rs:35-42 | Every type converts back from its own name |
| SchemaField.TryFromAccepts | ikv/src/schema/field.rs:35-42 | A successful conversion came from exactly that type's name |
| CkvIndexSchema.UpdateKeepsExisting | ikv/src/schema/ckvindex_schema.rs:31-40 | Entries present before `update` are still there, unchanged |
| CkvIndexSchema.UpdateAddsOnlyListed | ikv/src/schema/ckvindex_schema.rs:31-40 | Every added name comes from the list and holds that field's converted descriptor |
| CkvIndexSchema.UpdateOutcome | ikv/src/schema/ckvindex_schema.rs:31-40 | Success means every listed name is known; failure names the first failed conversion, which was not added, and every field before it is known |
| CkvIndexSchema.UpdateAllKnown | ikv/src/schema/ckvindex_schema.rs:31-40 | When every listed name is already known, the update changes nothing and succeeds |
| CkvIndexSchema.IndexSchema.New | ikv/src/schema/ckvindex_schema.rs:17-21 | The table is exactly the initial one |
| CkvIndexSchema.IndexSchema.FetchFieldByName | ikv/src/schema/ckvindex_schema.rs:23-25 | The stored descriptor, or None for an unknown name |
| CkvIndexSchema.IndexSchema.Update | ikv/src/schema/ckvindex_schema.rs:31-40 | The table becomes the one `UpdateFrom` describes; the first failed conversion returns its error and keeps what was inserted |
| CkvIndex.SizeOverRemove | ikv/src/index/ckv_segment.rs:514-520 | The total entry size of a document does not depend on the order its fields are visited |
| CkvIndex.Flatten | ikv/src/index/ckv.rs:190-203 | Every document entry once, with its field id from the schema |
| CkvIndex.CapacityZero | ikv/src/index/ckv.rs:114-117 | The reserved capacity is zero exactly when there are no keys or no names |
| CkvIndex.Index.Init | ikv/src/index/ckv.rs:58-61 | The index holds the sixteen segments and the schema it was given |
| CkvIndex.Index.Route | ikv/src/index/ckv.rs:99 | A key's segment is `hash(key) mod 16`, below 16, the same for every operation |
| CkvIndex.Index.ExtractPrimaryKey | ikv/src/index/ckv.rs:280-294 | None for an empty document, a document without the primary-key field, or a key value that does not convert |
| CkvIndex.Index.GetFieldValue | ikv/src/index/ckv.rs:95-103 | The routed segment's `read_field`, and None for an unknown name |
| CkvIndex.Index.BatchEncodingAppend | ikv/src/index/ckv.rs:138-146 | A batch of keys answers as the batches of its parts, one after the other |
| CkvIndex.Index.BatchEncodingSingle | ikv/src/index/ckv.rs:138-146 | A single key answers with its own slots, as `get_field_value` reads them |
| CkvIndex.Index.ReadFieldsAgree | ikv/src/index/ckv.rs:145 | A segment's `read_fields` on resolved ids agrees with `get_field_value` on each name |
| CkvIndex.Index.ResolveIds | ikv/src/index/ckv.rs:123-129 | Each name resolves to its schema id |
| CkvIndex.Index.BatchGetFieldValues | ikv/src/index/ckv.rs:109-149 | Empty for no keys or no names; otherwise each key's slots in key order, each slot as `get_field_value` reads it |
| CkvIndex.Index.HasKnownFields | ikv/src/index/ckv.rs:269-278 | Ok exactly when every document field has a known schema; otherwise the error names an unknown one |
| CkvIndex.Index.UpdateSchema | ikv/src/index/ckv.rs:69-92 | Nothing changes for an empty list or when every name is known; otherwise the schema's own update |
| CkvIndex.Index.UpsertFieldValues | ikv/src/index/ckv.rs:169-209 | Empty documents are accepted as they are; unknown fields, a missing primary key and a key over u16::MAX bytes are refused with nothing changed; otherwise only the key's segment changes, every other key reads as before, and the key's fields whose ids the document does not carry keep their values |
| CkvIndex.Index.WriteDocument | ikv/src/index/ckv.rs:205-207 | The key's segment stores every field of the document; no other segment changes, every other key reads as before, and the key's fields whose ids the document does not carry keep their values |
| CkvIndex.UpsertInto | ikv/src/index/ckv.rs:205-207 | The segment's `upsert_document` as the index calls it: it stays valid, fails only on a size error and then changes nothing, the last write to each id reads back, and every other key and every unnamed id of the key reads as before |
| CkvIndex.Index.ReadBackAll | ikv/src/index/ckv.rs:169-209 | With distinct field ids, every field of an upserted document reads back as written |
| CkvIndex.Index.DeleteFieldValues | ikv/src/index/ckv.rs:211-245 | Nothing for an empty document or name list; refusals change nothing; a field name the schema does not know panics, and only once the document passed its checks; otherwise the key's named fields read as absent, the key's fields whose ids no name shares keep their values, and every other key reads as before |
| CkvIndex.Index.DeleteDocument | ikv/src/index/ckv.rs:248-266 | Nothing for an empty document; otherwise every field of the key reads as absent while other keys read as before |
| CkvIndex.OpenOrCreate | ikv/src/index/ckv.rs:36-62 | Fails without the primary-key config; otherwise the saved schema table and sixteen segments, each empty when its directory is missing and otherwise its saved log, region and write offset with the table the log replays to |
| KafkaProcessor.ProcessUpsert | ikv/src/kafka/processor.rs:42-50 | No call without a document; otherwise an upsert of that document |
| KafkaProcessor.ProcessFieldDelete | ikv/src/kafka/processor.rs:52-65 | No call without a document or without field names; otherwise a field deletion |
| KafkaProcessor.ProcessDocumentDelete | ikv/src/kafka/processor.rs:67-74 | No call without a document; otherwise a document deletion |
| KafkaProcessor.ProcessDropFields | ikv/src/kafka/processor.rs:76-86 | Names or prefixes win over the drop-all flag; with neither, and no flag, nothing happens |
| KafkaProcessor.Dispatch | ikv/src/kafka/processor.rs:28-40 | Each event kind makes exactly the call its handler asks for, with the event's own document and names; an absent event makes none |
| KafkaProcessor.Process | ikv/src/kafka/processor.rs:28-40 | Ok for a no-op event; otherwise exactly the result of the one index call |
| KafkaProcessor.HandlesUnique | ikv/src/kafka/processor.rs:28-40 | An event determines its call |
| PkIndex.Grown | ikv/src/index/primary_key_index.rs:134-137 | The vector reaches the field id, keeps its old slots, and new slots hold the sentinel |
| PkIndex.Splice | ikv/src/index/primary_key_index.rs:143-154 | The copied range becomes the data and no other byte changes |
| PkIndex.Read | ikv/src/index/primary_key_index.rs:79-107 | None for an unknown key, an id past the vector or an empty slot; otherwise the stored value, with a u32 length first for a variable width; panics where a slice would overrun |
| PkIndex.ParseIndexRecordRoundTrip | ikv/src/index/primary_key_index.rs:160-166 | An index-file record reads back as written, with the offset cut to 32 bits |
| PkIndex.Check | ikv/src/index/primary_key_index.rs:111-130 | Empty key, then empty value, then a value over u32::MAX bytes, in that order |
| PkIndex.ReadAfterAppend | ikv/src/index/primary_key_index.rs:140-158 | A value appended at the end of the region reads back unchanged |
| PkIndex.ReadOthersAfterAppend | ikv/src/index/primary_key_index.rs:134-158 | Other slots read as before once a value is appended |
| PkIndex.ReadAllOthersAfterAppend | ikv/src/index/primary_key_index.rs:134-158 | The same, for every other key and field at once |
| PkIndex.SpliceTwice | ikv/src/index/primary_key_index.rs:143-154 | Two adjacent copies are one copy of their concatenation |
| PkIndex.PrimaryKeyIndex.New | ikv/src/index/primary_key_index.rs:23-49 | Everything starts empty |
| PkIndex.PrimaryKeyIndex.Open | ikv/src/index/primary_key_index.rs:52-76 | The files keep their bytes, but the table starts empty |
| PkIndex.PrimaryKeyIndex.GrowSlot | ikv/src/index/primary_key_index.rs:132-137 | The key's vector reaches the field id; nothing else changes |
| PkIndex.PrimaryKeyIndex.WriteValue | ikv/src/index/primary_key_index.rs:140-166 | The payload is copied at the offset, the slot takes the offset, and the record is appended to the index file |
| PkIndex.PrimaryKeyIndex.Upsert | ikv/src/index/primary_key_index.rs:110-169 | As written: validation errors change nothing, and every valid upsert panics after growing the key's vector |
| PkIndex.PrimaryKeyIndex.UpsertAppending | ikv/src/index/primary_key_index.rs:110-169 | Corrected: validation errors change nothing; otherwise the value reads back as written and every other slot reads as before |
| ColumnarIndex.FieldAt | ikv/src/index/api.rs:80-83 | As written: the field at position `fieldId` of the sorted table |
| ColumnarIndex.FieldAtMissesSparseIds | ikv/src/index/api.rs:80-83 | With ids 0 and 2, position lookup misses field 2 and returns it for id 1 |
| ColumnarIndex.FieldWithId | ikv/src/index/api.rs:80-83 | Corrected: the first field whose id is `fieldId`, None when no field has it |
| ColumnarIndex.FieldAtAgreesWhenDense | ikv/src/index/api.rs:80-83 | With dense ids, the position lookup finds the field with that id |
| ColumnarIndex.CheckUpsert | ikv/src/index/api.rs:132-148 | Empty or over-long id, then empty or over-long value, in that order |
| ColumnarIndex.ColumnarKVIndex.Init | ikv/src/index/api.rs:34-40 | The index holds the given segments and tables |
| ColumnarIndex.ColumnarKVIndex.Route | ikv/src/index/api.rs:86 | A document's segment is `hash(id) mod 16` |
| ColumnarIndex.ColumnarKVIndex.GetFieldValue | ikv/src/index/api.rs:85-90 | The routed segment's `read` |
| ColumnarIndex.ColumnarKVIndex.GetFieldValueByName | ikv/src/index/api.rs:75-78 | None for an unknown name; otherwise that field's value |
| ColumnarIndex.ColumnarKVIndex.GetFieldValueById | ikv/src/index/api.rs:80-83 | As intended (Findings row 2): through the field that has the id; None when no field has it |
| ColumnarIndex.ColumnarKVIndex.UpsertFieldValue | ikv/src/index/api.rs:126-161 | As intended (Findings row 1): refusals change nothing; otherwise only the routed segment changes and the value reads back |
| ColumnarIndex.ColumnarKVIndex.UpsertFieldValueByName | ikv/src/index/api.rs:92-107 | As intended (Findings row 1): an unknown name is refused with nothing changed; otherwise the upsert's own refusals, or Ok with the value reading back by name |
| ColumnarIndex.ColumnarKVIndex.UpsertFieldValueById | ikv/src/index/api.rs:109-124 | As intended (Findings rows 1 and 2): an id no field has is refused with nothing changed; otherwise the upsert's own refusals, or Ok with the value reading back by id |
| ColumnarIndex.New | ikv/src/index/api.rs:25-41 | Sixteen empty segments, the fields sorted by id, and the name table built from them |
| ColumnarIndex.Open | ikv/src/index/api.rs:43-69 | The segments reopen their files; the tables are built as in `new` |
| ColumnarIndex.SortedTables | ikv/src/index/api.rs:30-33 | The id table is the stable sort of the fields; the name table maps each name to its last field |
| SchemaLoader.WithId | ikv/src/schema/loader.rs:32-34 | The fields with a given id, in their order |
| SchemaLoader.InsertKeepsSorted | ikv/src/schema/loader.rs:32-34 | Inserting into a sequence sorted by id keeps it sorted |
| SchemaLoader.StableSortIsSorted | ikv/src/schema/loader.rs:32-34 | `sort_by_field_id` leaves ascending ids |
| SchemaLoader.StableSortIsStable | ikv/src/schema/loader.rs:32-34 | Fields of each id keep their input order |
| SchemaLoader.SortByFieldId | ikv/src/schema/loader.rs:32-34 | The array is rearranged into the stable sort of what it held |
| SchemaLoader.MapOfLastWins | ikv/src/schema/loader.rs:36-43 | One entry per distinct name, holding the last field of that name |
| SchemaLoader.ToMap | ikv/src/schema/loader.rs:36-43 | The loop builds the last-wins map |
| CompactionStatsModel.Aggregate | ikv/src/index/stats.rs:8-21 | Each size is the sum over the inputs; no input gives the default |
| CompactionStatsModel.TotalAppend | ikv/src/index/stats.rs:8-21 | Aggregating two runs separately and adding gives the aggregate of both |
| CompactionStatsModel.TotalPermutation | ikv/src/index/stats.rs:8-21 | The aggregate does not depend on the order of the inputs |
| CommitCadence.Next | ikv/src/kafka/offset_committer.rs:28 | The counter goes up by one and wraps to 0 after u32::MAX |
| CommitCadence.AnswersAt | ikv/src/kafka/offset_committer.rs:27-31 | Call i of a run commits exactly when the counter it sees is a multiple of 100 |
| CommitCadence.OnePerWindow | ikv/src/kafka/offset_committer.rs:27-31 | Away from the wrap, any 100 calls in a row commit exactly once |
| CommitCadence.WrapCommitsEarly | ikv/src/kafka/offset_committer.rs:27-31 | Across the wrap, the call seeing 0 commits only 96 calls after the last multiple of 100 |
| KafkaOffsetCommitter.OffsetCommitter.New | ikv/src/kafka/offset_committer.rs:19-25 | The counter starts at 1 |
| KafkaOffsetCommitter.OffsetCommitter.ShouldCommit | ikv/src/kafka/offset_committer.rs:27-31 | Answers whether the value before the bump is a multiple of 100, and bumps with wrap-around |
| KafkaOffsetCommitter.CommitsEveryHundredth | ikv/src/kafka/offset_committer.rs:19-31 | From a fresh committer, call i commits exactly when i+1 is a multiple of 100, so the first call never commits |
| KafkaCommit.OffsetCommitter.New | ikv/src/kafka/commit.rs:18-23 | The counter starts at 0 |
| KafkaCommit.OffsetCommitter.ShouldCommit | ikv/src/kafka/commit.rs:26-30 | Answers whether the value before the bump is a multiple of 100, and bumps with wrap-around |
| KafkaCommit.CommitsFromFirst | ikv/src/kafka/commit.rs:18-30 | From a fresh committer, call i commits exactly when i is a multiple of 100, so the first call commits |
| SizePrefixed.UnframeFrame | ikv/src/jni/api.rs:169-198 | Framing then reading gives the items back |
| SizePrefixed.FrameUnframe | ikv/src/jni/api.rs:169-198 | A buffer that reads as items is exactly their framing |
| SizePrefixed.FrameAppend | ikv/src/jni/api.rs:184-197 | Framing distributes over concatenation |
| JniBatch.Present | ikv/src/jni/api.rs:169-198 | At most one value per id, and none of them empty |
| JniBatch.AppendValue | ikv/src/jni/api.rs:184-197 | The placeholder, append, patch and drain steps add a framed entry for a non-empty value and nothing otherwise |
| JniBatch.PresentStep | ikv/src/jni/api.rs:184-197 | Framing one more present value extends the framing of the earlier ones |
| JniBatch.GetBatchBytesFieldValue | ikv/src/jni/api.rs:145-201 | No ids gives null; ids that do not parse panic; otherwise the framed present, non-empty values of the ids, in order |
| JniBatch.ResponseReadsBack | ikv/src/jni/api.rs:145-201 | A client reading the response back gets exactly the present values |
| MountPaths.PathParts | ikv/src/utils/paths.rs:11-32 | The three inputs, or an error naming the first missing one |
| MountPaths.IndexMountDirectory | ikv/src/utils/paths.rs:11-38 | `{mount}/{store}/{partition}`, or the error for a missing key |
| MountPaths.WorkingMountDirectory | ikv/src/utils/paths.rs:40-67 | `{mount}/working_dir/{store}/{partition}`, or the same error |
| MountPaths.WorkingDirectoryInsertsSegment | ikv/src/utils/paths.rs:33-36 | The working directory is the index directory with `/working_dir` inserted after the mount directory, so the two always differ |
| SseKey.Padded | ikv/src/utils/encryption.rs:11-14 | Doubling reaches at least 32 bytes and keeps the passkey as a prefix |
| SseKey.PaddedRepeats | ikv/src/utils/encryption.rs:11-14 | The doubled passkey is the passkey repeated |
| SseKey.PadKey | ikv/src/utils/encryption.rs:11-16 | 32 bytes of the passkey repeated; just the first 32 bytes when the passkey is already that long |
| SseKey.SseKeyFromConfig | ikv/src/utils/encryption.rs:4-16 | An error exactly when the passkey is missing; otherwise the padded UTF-8 passkey |
| Logging.Level | ikv/src/utils/logging.rs:52-72 | A missing key is an error; the lower-cased value must name one of the five filters, and any other name is an error naming it |
| Logging.LevelOfName | ikv/src/utils/logging.rs:58-69 | A name that lower-cases to a filter's name configures that filter |
| Logging.LevelNamesAccepted | ikv/src/utils/logging.rs:58-69 | Every filter is reachable through its exact name |
| Logging.UseConsole | ikv/src/utils/logging.rs:74-80 | True exactly when the console flag is present and set |
| Logging.UseFile | ikv/src/utils/logging.rs:82-84 | The configured file path, if any |
| Logging.SelectAppender | ikv/src/utils/logging.rs:21-32 | The console when its flag is set, otherwise the file, otherwise an error |
| Logging.BuildConfig | ikv/src/utils/logging.rs:16-40 | The appender is checked first, so an output error wins over a level error |
| Logging.LogHandle.Configure | ikv/src/utils/logging.rs:16-50 | The first success installs the handle once; later successes replace its configuration; failures leave it as it was |
| ByteCodec.I64RoundTrip | ikv-java-client/src/main/java/io/inlined/clients/IKVDocument.java:88-89 | A long written as eight little-endian bytes reads back as the same long |
| DocumentFields.PutField | ikv-java-client/src/main/java/io/inlined/clients/IKVDocument.java:53 | Storing under a name replaces what was there and adds an entry exactly when the name is new; an entry the index can store keeps the whole map storable |
| JavaDocument.ByteBuffer.Allocate | ikv-java-client/src/main/java/io/inlined/clients/IKVDocument.java:73 | A new buffer of the given capacity: position 0, limit at the capacity |
| JavaDocument.ByteBuffer.Put | ikv-java-client/src/main/java/io/inlined/clients/IKVDocument.java:74 | The bytes are written at the position, which moves past them; the bytes before are kept and the limit does not move |
| JavaDocument.ByteBuffer.Flip | ikv-java-client/src/main/java/io/inlined/clients/IKVDocument.java:73-79 | The limit comes to the position and the position to 0 |
| JavaDocument.ByteBuffer.CopyRemaining | ikv-java-client/src/main/java/io/inlined/clients/IKVDocument.java:79 | The copy is exactly the bytes from the position to the limit, and consumes them |
| JavaDocument.NonEmpty | ikv-java-client/src/main/java/io/inlined/clients/IKVDocument.java:46-47 | The check passes exactly for a non-null, non-empty argument; null is a NullPointerException and empty an IllegalArgumentException |
| JavaDocument.IntegerFieldsAsWrittenAreEmpty | ikv-java-client/src/main/java/io/inlined/clients/IKVDocument.java:69-98 | An empty INT32 or INT64 value is not one the index can store; four or eight little-endian bytes are, and read back as the number |
| JavaDocument.Builder.constructor | ikv-java-client/src/main/java/io/inlined/clients/IKVDocument.java:41-43 | A new builder has no fields |
| JavaDocument.Builder.PutStringField | ikv-java-client/src/main/java/io/inlined/clients/IKVDocument.java:45-55 | A null or empty name, then a null or empty value, throws with nothing stored; otherwise the UTF-8 bytes are stored under the name as STRING, keeping every field storable |
| JavaDocument.Builder.PutBytesField | ikv-java-client/src/main/java/io/inlined/clients/IKVDocument.java:57-67 | A null or empty name, then a null or empty value, throws with nothing stored; otherwise the bytes are stored under the name as BYTES, keeping every field storable |
| JavaDocument.Builder.PutIntFieldAsWritten | ikv-java-client/src/main/java/io/inlined/clients/IKVDocument.java:69-83 | The copy starts where the write ended, so an INT32 field with no bytes is stored and the builder's fields are no longer all storable |
| JavaDocument.Builder.PutIntField | ikv-java-client/src/main/java/io/inlined/clients/IKVDocument.java:69-83 | With the buffer flipped, the four little-endian bytes of the int are stored as INT32, keeping every field storable |
| JavaDocument.Builder.PutLongFieldAsWritten | ikv-java-client/src/main/java/io/inlined/clients/IKVDocument.java:85-98 | The copy starts where the write ended, so an INT64 field with no bytes is stored and the builder's fields are no longer all storable |
| JavaDocument.Builder.PutLongField | ikv-java-client/src/main/java/io/inlined/clients/IKVDocument.java:85-98 | With the buffer flipped, the eight little-endian bytes of the long are stored as INT64, keeping every field storable |
| JavaDocument.Builder.Build | ikv-java-client/src/main/java/io/inlined/clients/IKVDocument.java:130-132 | The document holds the builder's own map, so later puts show in it |
| GoDocument.IKVDocumentBuilder.constructor | ikv-go-client/document.go:20-23 | A new builder has no fields and no error |
| GoDocument.IKVDocumentBuilder.PutStringField | ikv-go-client/document.go:25-34 | An empty name or value records "missing field name or field value" and returns nil with nothing stored; otherwise the string's bytes are stored as STRING, keeping every field storable |
| GoDocument.IKVDocumentBuilder.PutBytesField | ikv-go-client/document.go:36-45 | An empty name or value records the same error and returns nil with nothing stored; otherwise the bytes are stored as BYTES, keeping every field storable |
| GoDocument.IKVDocumentBuilder.Build | ikv-go-client/document.go:47-50 | The document shares the builder's map, and the error returned is the last one recorded |
| PyDocument.NewIKVDocument | ikv-python-client/src/ikvpy/document.py:12-16 | A document exists exactly for a dictionary that is not None, and holds it; None is a ValueError |
| PyDocument.Len | ikv-python-client/src/ikvpy/document.py:18-19 | `len` is the number of distinct field names, 0 exactly for a document without fields |
| PyDocument.LenAfterPut | ikv-python-client/src/ikvpy/document.py:18-19 | After one more name is put into the dictionary, `len` grows by one exactly when the name is new, and is positive |
| PyDocument.IKVDocumentBuilder.constructor | ikv-python-client/src/ikvpy/document.py:25-26 | A new builder has an empty dictionary |
| PyDocument.IKVDocumentBuilder.PutStringField | ikv-python-client/src/ikvpy/document.py:28-35 | The name is validated, then the value, each failure raising with nothing stored; otherwise the value's UTF-8 bytes are stored as STRING and the count grows exactly when the name is new |
| PyDocument.IKVDocumentBuilder.PutBytesField | ikv-python-client/src/ikvpy/document.py:37-44 | The name is validated, then the bytes, each failure raising with nothing stored; otherwise the bytes are stored as BYTES and the count grows exactly when the name is new |
| PyDocument.IKVDocumentBuilder.Build | ikv-python-client/src/ikvpy/document.py:46-47 | The document holds the builder's own dictionary |
| ClientFraming.Packed | ikv-java-client/src/main/java/io/inlined/clients/DefaultInlineKVReader.java:141-166 | The key buffer exists exactly when the summed capacity fits a Java `int`; a wrapped capacity fails the allocation or the write |
| ClientFraming.PackedRoundTrip | ikv-java-client/src/main/java/io/inlined/clients/DefaultInlineKVReader.java:141-166 | A key buffer that was built reads back, size prefix by size prefix, as exactly the keys it was built from |
| ClientFraming.SumCapacity | ikv-java-client/src/main/java/io/inlined/clients/DefaultInlineKVReader.java:147-157 | The capacity loop computes the sum of 4 plus each key's length, wrapped into Java `int` |
| ClientFraming.WriteAll | ikv-java-client/src/main/java/io/inlined/clients/DefaultInlineKVReader.java:159-165 | Writing into a buffer of the given capacity yields a buffer of that length starting with the keys' framing; a capacity too small for it is a buffer overflow |
| ClientFraming.PutEntry | ikv-java-client/src/main/java/io/inlined/clients/DefaultInlineKVReader.java:161-162 | One entry written into the buffer leaves the bytes before it alone and follows them with its little-endian i32 length and its bytes |
| ClientFraming.SizePrefixedConcat | ikv-java-client/src/main/java/io/inlined/clients/DefaultInlineKVReader.java:141-166 | The allocate-and-write encoder returns exactly the key buffer `Packed` describes, errors included |
| ClientFraming.ReadAt | ikv-java-client/src/main/java/io/inlined/clients/DefaultInlineKVReader.java:125-134 | One `next` read: fails on a short size, a negative size or a size past the end; size 0 reads as null, otherwise the following bytes, with the cursor just past them |
| ClientFraming.ReadAtUnframe | ikv-java-client/src/main/java/io/inlined/clients/DefaultInlineKVReader.java:125-134 | Reading one entry at the cursor agrees with unframing the rest of the buffer: it fails only where unframing fails, and otherwise takes the first framed item |
| ClientFraming.Nulled | ikv-java-client/src/main/java/io/inlined/clients/DefaultInlineKVReader.java:127-129 | Each item is returned in its place, an empty one as null |
| ClientFraming.NonEmpty | ikv-java-client/src/main/java/io/inline/clients/LegacyIKVClient.java:85-93 | The items the legacy loop keeps are non-empty and no more numerous than the input |
| ClientFraming.NonEmptyOfNonEmpty | ikv-java-client/src/main/java/io/inline/clients/LegacyIKVClient.java:85-93 | When no item is empty, the legacy loop keeps every item |
| ClientFraming.DecodeNullableOfFrame | ikv-java-client/src/main/java/io/inlined/clients/DefaultInlineKVReader.java:111-135 | Non-empty values framed by the native side come back, one per key, as themselves |
| ClientFraming.DecodeNullableKeepsPlaces | ikv-java-client/src/main/java/io/inlined/clients/DefaultInlineKVReader.java:111-135 | Framed values come back one per key, and a value reads as null exactly when it was empty |
| ClientFraming.DecodePresentOfFrame | ikv-java-client/src/main/java/io/inline/clients/LegacyIKVClient.java:84-95 | The legacy reader returns exactly the non-empty values, in order, so it loses the positions of missing ones |
| ClientFraming.ValueCursor.constructor | ikv-java-client/src/main/java/io/inlined/clients/DefaultInlineKVReader.java:114-116 | A cursor over the whole result, at position 0 |
| ClientFraming.ValueCursor.Next | ikv-java-client/src/main/java/io/inlined/clients/DefaultInlineKVReader.java:125-134 | `next` returns the entry `ReadAt` describes and moves past it; a failed read leaves the cursor where the source's buffer leaves it |
| ClientFraming.DrainNullable | ikv-java-client/src/main/java/io/inlined/clients/DefaultInlineKVReader.java:67-81 | Draining the iterator yields exactly the decoding of the result buffer, or the error that stops it |
| ClientFraming.DrainPresent | ikv-java-client/src/main/java/io/inline/clients/LegacyIKVClient.java:84-95 | The legacy drain loop yields exactly the non-empty entries of the result buffer, or the error that stops it |
| ClientFraming.DecodeStrings | ikv-java-client/src/main/java/io/inlined/clients/DefaultInlineKVReader.java:83-97 | String results keep the byte results' count and nulls, and each present value is decoded as UTF-8 with replacement |
| ClientFraming.DecodeStringsOfUtf8 | ikv-java-client/src/main/java/io/inlined/clients/DefaultInlineKVReader.java:83-97 | Values stored as the UTF-8 bytes of strings read back as those strings, in place |
| GoBinaryManager.PlatformPrefix | ikv-go-client/bin_manager.go:201-227 | A prefix exists exactly for lower-cased linux on amd64 or arm64 and darwin on arm64, and is one of the three release prefixes; any other pair gives the "unsupported host" error naming both |
| GoBinaryManager.Saturate | ikv-go-client/bin_manager.go:255-256 | The result is an int64, and an int64 is left as it is |
| GoBinaryManager.Atoi | ikv-go-client/bin_manager.go:255-256 | The value is an int64; empty text or text not starting with a sign or digit reads as 0; digits above the range read as the int64 maximum |
| GoBinaryManager.AtoiRoundTrip | ikv-go-client/bin_manager.go:255-256 | Every int64 reads back from its decimal text |
| GoBinaryManager.CompareFrom | ikv-go-client/bin_manager.go:254-271 | The comparison from any part on answers -1, 0 or 1 |
| GoBinaryManager.Compared | ikv-go-client/bin_manager.go:247-272 | `compareVersions` answers -1, 0 or 1 |
| GoBinaryManager.CompareVersions | ikv-go-client/bin_manager.go:250-272 | The loop returns what the comparison specification gives |
| GoBinaryManager.CompareFromAntisymmetric | ikv-go-client/bin_manager.go:254-271 | Swapping the two sides negates the answer |
| GoBinaryManager.CompareFromTransitive | ikv-go-client/bin_manager.go:254-271 | At-most and strictly-below chain across three texts |
| GoBinaryManager.CompareOrder | ikv-go-client/bin_manager.go:247-272 | `compareVersions` is reflexive, antisymmetric and transitive on all texts |
| GoBinaryManager.ComparedIsPrecedence | ikv-go-client/bin_manager.go:247-272 | On plain `X.Y.Z` texts within int64 the answer is Semantic Versioning precedence |
| GoBinaryManager.ComparedRendered | ikv-go-client/bin_manager.go:247-272 | Rendered versions compare by precedence |
| GoBinaryManager.ExtractSemver | ikv-go-client/bin_manager.go:229-245 | A version is extracted exactly when the last `/`-piece splits on `-` into two pieces, and it is the first; otherwise the "malformed key" error |
| GoBinaryManager.ReleaseKeySemver | ikv-go-client/bin_manager.go:229-245 | A key `release/<platform>/<version>-<library>` gives its version |
| GoBinaryManager.Candidate | ikv-go-client/bin_manager.go:127-130 | A key is considered exactly when its version extracts and is non-empty |
| GoBinaryManager.Step | ikv-go-client/bin_manager.go:125-144 | A turn that changes the kept key takes the current key, which is a candidate, with its version |
| GoBinaryManager.StepAsWritten | ikv-go-client/bin_manager.go:125-144 | The same holds of the turn as written, which compares against the kept key |
| GoBinaryManager.Scan | ikv-go-client/bin_manager.go:125-144 | A changed answer is a candidate key with its own version |
| GoBinaryManager.Highest | ikv-go-client/bin_manager.go:106-148 | Both parts are empty together, and a found key has the found version |
| GoBinaryManager.HighestIsMax | ikv-go-client/bin_manager.go:106-148 | The version is empty exactly when no key is a candidate; otherwise no candidate compares above it, and its key is the first to have it |
| GoBinaryManager.ReleaseKeyComparesLow | ikv-go-client/bin_manager.go:140 | A full release key compares below any version with a major number above 0 |
| GoBinaryManager.AsWrittenOfTwo | ikv-go-client/bin_manager.go:140 | As written, the second of two candidates replaces the first when its version compares above the first KEY |
| GoBinaryManager.IntendedOfTwo | ikv-go-client/bin_manager.go:125-144 | As intended, the first of two candidates stays unless the second's version compares above its version |
| GoBinaryManager.AsWrittenPrefersLater | ikv-go-client/bin_manager.go:140 | As written, the later of two release keys wins whenever its major number is above 0 |
| GoBinaryManager.IntendedPrefersHigher | ikv-go-client/bin_manager.go:125-144 | As intended, the higher of two release keys wins |
| GoBinaryManager.OlderReleaseChosen | ikv-go-client/bin_manager.go:140 | On the listing 2.0.0 then 1.0.0, the loop as written picks 1.0.0 and the intended one 2.0.0 |
| GoBinaryManager.BinaryManager.constructor | ikv-go-client/bin_manager.go:26-34 | The manager holds the mount directory, platform, bucket listing and directory state |
| GoBinaryManager.BinaryManager.PathToLocalBinary | ikv-go-client/bin_manager.go:171-199 | An error exactly when the directory cannot be opened or listed; empty exactly when it is missing or empty; otherwise the path of the first name |
| GoBinaryManager.BinaryManager.LocalSemVer | ikv-go-client/bin_manager.go:150-169 | No path means no version; a path is the local path and its version extracts from it |
| GoBinaryManager.BinaryManager.LocalSemVerOfName | ikv-go-client/bin_manager.go:150-169 | The local version is read from the first listed name alone, whatever else is listed |
| GoBinaryManager.BinaryManager.HighestRemote | ikv-go-client/bin_manager.go:105-148 | As intended (Findings row 3): an error comes only from the platform prefix or the listing; otherwise the highest candidate of the prefix's listing |
| GoBinaryManager.BinaryManager.HighestRemoteSemVer | ikv-go-client/bin_manager.go:105-148 | As intended (Findings row 3): the loop returns `HighestRemote` |
| GoBinaryManager.BinaryManager.DownloadRemoteBinary | ikv-go-client/bin_manager.go:78-103 | Without a fault the directory holds only the key's file name; each failing step returns its error and leaves what was done so far |
| GoBinaryManager.BinaryManager.GetPathToNativeBinary | ikv-go-client/bin_manager.go:36-76 | As intended (Findings row 3): errors pass on; with nothing remote the local path or "no local or remote native binary found"; a download exactly when the local version is missing or lower; a returned path is the local library and never older than the highest remote version |
| GoBinaryManager.BinaryManager.InstalledSemver | ikv-go-client/bin_manager.go:64-71 | After a download of a candidate key, the local library is that key's file with the key's version |
| GoClientOptions.KafkaOverrideKeyIsFresh | ikv-go-client/clientoptions.go:93-101 | A Kafka override's key, prefixed `kafkaprop_`, is never one of the entries the builder names |
| GoClientOptions.ClientOptionsBuilder.constructor | ikv-go-client/clientoptions.go:29-47 | A new builder holds console logging at "info" and partition 0, no error, and satisfies the builder invariant |
| GoClientOptions.ClientOptionsBuilder.PutNamed | ikv-go-client/clientoptions.go:49-89 | An empty value records the setter's message and returns nil with the maps unchanged; otherwise exactly that entry is stored and the builder returned |
| GoClientOptions.ClientOptionsBuilder.WithMountDirectory | ikv-go-client/clientoptions.go:49-57 | An empty directory records "mount directory cannot be empty" and returns nil; otherwise only the mount-directory entry is set |
| GoClientOptions.ClientOptionsBuilder.WithStoreName | ikv-go-client/clientoptions.go:59-67 | An empty name records "store name cannot be empty" and returns nil; otherwise only the store-name entry is set |
| GoClientOptions.ClientOptionsBuilder.WithAccountId | ikv-go-client/clientoptions.go:71-79 | An empty id records "account-id cannot be empty" and returns nil; otherwise only the account-id entry is set |
| GoClientOptions.ClientOptionsBuilder.WithAccountPasskey | ikv-go-client/clientoptions.go:81-89 | An empty passkey records "account-passkey cannot be empty" and returns nil; otherwise only the passkey entry is set |
| GoClientOptions.ClientOptionsBuilder.WithKafkaPropertyOverride | ikv-go-client/clientoptions.go:93-101 | An empty key or value records the error and returns nil; otherwise the value is stored under `kafkaprop_` + key, and no named entry changes |
| GoClientOptions.ClientOptionsBuilder.WithConsoleLogging | ikv-go-client/clientoptions.go:103-118 | An empty level, then an unknown lower-cased level, records its error and returns nil; otherwise the lower-cased level is stored and the console turned on |
| GoClientOptions.ClientOptionsBuilder.WithFileLogging | ikv-go-client/clientoptions.go:120-136 | An empty path or level, then an unknown lower-cased level, records its error and returns nil; otherwise the level, console off and the path are stored |
| GoClientOptions.ClientOptionsBuilder.Build | ikv-go-client/clientoptions.go:138-146 | The options share the builder's maps, and the error returned is the last one any setter recorded |
| PyClientOptions.ValidLevel | ikv-python-client/src/ikvpy/clientoptions.py:53-56 | A level passes exactly when it is a valid string whose lower-cased form is one of the five; otherwise the validation error or the ValueError listing the levels |
| PyClientOptions.FailedFileLoggingHasNoOutput | ikv-python-client/src/ikvpy/clientoptions.py:62-70 | A `with_file_logging` that raised on its path has already turned the console off, so without an earlier path the native logger refuses the configuration |
| PyClientOptions.LevelsNotBlank | ikv-python-client/src/ikvpy/clientoptions.py:11 | None of the five level names is blank |
| PyClientOptions.ClientOptionsBuilder.constructor | ikv-python-client/src/ikvpy/clientoptions.py:25-35 | A new builder holds console logging at "info" and partition 0, and satisfies the builder invariant |
| PyClientOptions.ClientOptionsBuilder.PutValidated | ikv-python-client/src/ikvpy/clientoptions.py:37-51 | A value that is not a non-blank `str` raises with nothing changed; otherwise exactly that entry is stored |
| PyClientOptions.ClientOptionsBuilder.WithMountDirectory | ikv-python-client/src/ikvpy/clientoptions.py:37-39 | An invalid directory raises with nothing changed; otherwise only the mount-directory entry is set |
| PyClientOptions.ClientOptionsBuilder.WithStoreName | ikv-python-client/src/ikvpy/clientoptions.py:41-43 | An invalid name raises with nothing changed; otherwise only the store-name entry is set |
| PyClientOptions.ClientOptionsBuilder.WithAccountId | ikv-python-client/src/ikvpy/clientoptions.py:45-47 | An invalid id raises with nothing changed; otherwise only the account-id entry is set |
| PyClientOptions.ClientOptionsBuilder.WithAccountPasskey | ikv-python-client/src/ikvpy/clientoptions.py:49-51 | An invalid passkey raises with nothing changed; otherwise only the passkey entry is set |
| PyClientOptions.ClientOptionsBuilder.WithConsoleLogging | ikv-python-client/src/ikvpy/clientoptions.py:53-60 | An invalid level raises with nothing changed; otherwise the lower-cased level is stored and the console turned on |
| PyClientOptions.ClientOptionsBuilder.WithFileLogging | ikv-python-client/src/ikvpy/clientoptions.py:62-70 | An invalid level raises with nothing changed; an invalid path raises after the level and console-off are already stored; otherwise level, console off and path |
| PyClientOptions.ClientOptionsBuilder.Build | ikv-python-client/src/ikvpy/clientoptions.py:72-73 | The options hold the builder's own config object, not a copy |
| ContextAccessor.CacheKey | ikv-java-client/src/main/java/io/inline/gateway/UserStoreContextAccessor.java:31 | The cache key is the account id, one comma, then the store name |
| ContextAccessor.CacheKeyInjective | ikv-java-client/src/main/java/io/inline/gateway/UserStoreContextAccessor.java:31 | When account ids hold no comma, distinct (account, store) pairs have distinct cache keys |
| ContextAccessor.CacheKeyAmbiguous | ikv-java-client/src/main/java/io/inline/gateway/UserStoreContextAccessor.java:31 | Account "a,b" with store "c" and account "a" with store "b,c" share a cache key |
| ContextAccessor.ResolveNeverReplaces | ikv-java-client/src/main/java/io/inline/gateway/UserStoreContextAccessor.java:30-58 | A cached entry is never replaced or removed, and the only entry added is the one for the request's key |
| ContextAccessor.ResolveChecksPasskey | ikv-java-client/src/main/java/io/inline/gateway/UserStoreContextAccessor.java:36-53 | Every context returned carries the request's passkey, whether it came from the cache or the table |
| ContextAccessor.ResolveKeepsValid | ikv-java-client/src/main/java/io/inline/gateway/UserStoreContextAccessor.java:49-56 | Only valid contexts with a passkey enter the cache |
| ContextAccessor.ResolveRepeat | ikv-java-client/src/main/java/io/inline/gateway/UserStoreContextAccessor.java:32-41 | Once a request has been answered with a context, repeating it gives the same context from the cache, whatever the table holds by then |
| ContextAccessor.Accessor.constructor | ikv-java-client/src/main/java/io/inline/gateway/UserStoreContextAccessor.java:16-19 | The accessor starts with an empty cache over the given table |
| ContextAccessor.Accessor.PutIfAbsent | ikv-java-client/src/main/java/io/inline/gateway/UserStoreContextAccessor.java:56 | An existing entry is kept; a new key gets the context |
| ContextAccessor.Accessor.GetCtx | ikv-java-client/src/main/java/io/inline/gateway/UserStoreContextAccessor.java:21-59 | The answer and the new cache are those of `Resolve` on the old cache and the table |
| ContextFactory.KeyEqualsIsEquality | ikv-java-client/src/main/java/io/inline/gateway/UserStoreContextFactory.java:84-89 | `Key.equals` holds exactly when account id and store name are both equal |
| ContextFactory.Factory.constructor | ikv-java-client/src/main/java/io/inline/gateway/UserStoreContextFactory.java:23-47 | The table holds exactly the testing store, guarded by the testing passkey |
| ContextFactory.Factory.GetCtx | ikv-java-client/src/main/java/io/inline/gateway/UserStoreContextFactory.java:49-68 | A null initializer throws NullPointerException; an unknown pair gives empty; a wrong passkey throws "Not Authorized"; otherwise the stored context |
| ContextFactory.Factory.OnlyTestingStore | ikv-java-client/src/main/java/io/inline/gateway/UserStoreContextFactory.java:23-68 | As seeded, a context is returned exactly for the testing account, store and passkey, and every other passkey for that store is refused |
| Extractor.Stringify | ikv-java-client/src/main/java/io/inline/gateway/ExtractorUtils.java:23-36 | Exactly string and bytes values have a string form, a string being itself; an unset value is "primaryKey missing", any other type "wrong data type of primary key" |
| Extractor.StringifyBytesOfString | ikv-java-client/src/main/java/io/inline/gateway/ExtractorUtils.java:27-33 | A key sent as a string and as its UTF-8 bytes gives the same string |
| Extractor.StringifyWellFormed | ikv-java-client/src/main/java/io/inline/gateway/ExtractorUtils.java:30-33 | Valid UTF-8 bytes give exactly the text they decode to |
| Extractor.KeyAsString | ikv-java-client/src/main/java/io/inline/gateway/ExtractorUtils.java:11-21 | An absent field is the given IllegalArgumentException; a present one is its string form |
| Extractor.ExtractPrimaryKeyAsString | ikv-java-client/src/main/java/io/inline/gateway/ExtractorUtils.java:11-15 | Succeeds exactly when the primary key is present as a string or bytes; every failure is an IllegalArgumentException, "primaryKey missing" when absent |
| Extractor.ExtractPartitioningKeyAsString | ikv-java-client/src/main/java/io/inline/gateway/ExtractorUtils.java:17-21 | Succeeds exactly when the partitioning key is present as a string or bytes; every failure is an IllegalArgumentException, "partitioningKey missing" when absent |
| Extractor.ExtractionReadsOnlyKey | ikv-java-client/src/main/java/io/inline/gateway/ExtractorUtils.java:11-15 | Changing any other field leaves the extracted primary key as it was |
| ContextController.Scan | ikv-java-client/src/main/java/io/inline/gateway/ddb/IKVStoreContextController.java:83-98 | Every failure of the scan is the IllegalStateException for an unparseable entry |
| ContextController.ScanAbsent | ikv-java-client/src/main/java/io/inline/gateway/ddb/IKVStoreContextController.java:83-98 | The scan finds nothing exactly when every stored entry parses and none has the name |
| ContextController.ScanFindsAppended | ikv-java-client/src/main/java/io/inline/gateway/ddb/IKVStoreContextController.java:83-111 | After an entry named `name` is appended to a list lacking it, the scan finds it |
| ContextController.WithFieldRegisters | ikv-java-client/src/main/java/io/inline/gateway/ddb/IKVStoreContextController.java:100-112 | A registration appends exactly one entry, holding the field's name and type with the old version as id, raises the version by one, touches nothing else, and a repeated registration then finds it |
| ContextController.MetadataTable.constructor | ikv-java-client/src/main/java/io/inline/gateway/ddb/IKVStoreContextController.java:24-27 | The table holds the given records |
| ContextController.MetadataTable.GetItem | ikv-java-client/src/main/java/io/inline/gateway/ddb/IKVStoreContextController.java:35-42 | A null account id or store name throws NullPointerException; otherwise the record under that pair, present exactly when stored |
| ContextController.MetadataTable.UpdateItem | ikv-java-client/src/main/java/io/inline/gateway/ddb/IKVStoreContextController.java:115-130 | The write is applied exactly when the stored record's version equals the expected one, as the table stands when the condition is evaluated; a refused write changes nothing |
| ContextController.Controller.constructor | ikv-java-client/src/main/java/io/inline/gateway/ddb/IKVStoreContextController.java:24-27 | The controller holds the table and the schema codec |
| ContextController.Controller.PutItem | ikv-java-client/src/main/java/io/inline/gateway/ddb/IKVStoreContextController.java:44-47 | A null record throws NullPointerException; otherwise it replaces whatever is stored under its account id and store name, and reads back |
| ContextController.Controller.FindExisting | ikv-java-client/src/main/java/io/inline/gateway/ddb/IKVStoreContextController.java:83-98 | The loop returns the scan's answer |
| ContextController.Controller.RegisterSchemaForNewField | ikv-java-client/src/main/java/io/inline/gateway/ddb/IKVStoreContextController.java:60-156 | Null arguments and an UNKNOWN type throw before any read; at most five attempts; true only after the record read lacked the name and now holds the field appended; false after five refusals or when the name is already stored |
| IkvWriter.UpsertRecord | ikv-java-client/src/main/java/io/inline/gateway/IKVWriter.java:39-60 | A record is built exactly when the primary key has a string form and the partitioning key is present; it goes to the store's topic with no explicit partition, is keyed by the partitioning value and carries the whole document as an upsert; every failure is an IllegalArgumentException |
| IkvWriter.DeleteRecord | ikv-java-client/src/main/java/io/inline/gateway/IKVWriter.java:85-105 | The same conditions and key, the event carrying the whole document id map as a delete |
| IkvWriter.BroadcastGoesToPartitionZero | ikv-java-client/src/main/java/io/inline/gateway/IKVWriter.java:128-134 | Every delivered copy of a schema broadcast is the schema event addressed to partition 0 with no key |
| IkvWriter.Writer.constructor | ikv-java-client/src/main/java/io/inline/gateway/IKVWriter.java:17-19 | The writer publishes through the given producer |
| IkvWriter.Writer.BlockingPublishWithRetries | ikv-java-client/src/main/java/io/inline/gateway/IKVWriter.java:137-148 | At most `numRetries` sends, every one before the last failed; the record is delivered once when acknowledged and not at all otherwise, and the caller is told nothing |
| IkvWriter.Writer.PublishEach | ikv-java-client/src/main/java/io/inline/gateway/IKVWriter.java:39-65 | Documents are handled in order; the delivered records are the built records of the handled prefix whose send was acknowledged; the first document that does not build ends the loop with its exception |
| IkvWriter.Writer.PublishFieldUpserts | ikv-java-client/src/main/java/io/inline/gateway/IKVWriter.java:30-66 | Null arguments throw NullPointerException without a send; an empty collection sends nothing; otherwise `PublishEach` over the upsert records |
| IkvWriter.Writer.PublishDocumentDeletes | ikv-java-client/src/main/java/io/inline/gateway/IKVWriter.java:77-109 | A null context throws; a null or empty collection sends nothing; otherwise `PublishEach` over the delete records |
| IkvWriter.Writer.PublishFieldSchemaUpdates | ikv-java-client/src/main/java/io/inline/gateway/IKVWriter.java:113-135 | A null context throws; a null or empty list sends nothing; otherwise the same schema record is sent once per partition, each copy delivered or lost, and no exception surfaces |
| IkvWriter.Writer.Broadcast | ikv-java-client/src/main/java/io/inline/gateway/IKVWriter.java:129-134 | One send per partition of the same record; the records delivered are exactly the acknowledged copies, in order |
| GatewayTypes.Producer.constructor | ikv-java-client/src/main/java/io/inline/gateway/streaming/IKVKafkaWriter.java:18-20 | A new producer has delivered nothing and made no send |
| GatewayTypes.Producer.Send | ikv-java-client/src/main/java/io/inline/gateway/streaming/IKVKafkaWriter.java:188 | Every send adds one outcome; an acknowledged one delivers the record once, a failed one delivers nothing |
| KafkaWriter.Surfaced | ikv-java-client/src/main/java/io/inline/gateway/streaming/IKVKafkaWriter.java:190-194 | What surfaces is always unchecked, and an unchecked failure surfaces as itself |
| KafkaWriter.UpsertRecord | ikv-java-client/src/main/java/io/inline/gateway/streaming/IKVKafkaWriter.java:39-62 | A record is built exactly when both keys are present; a missing primary key is "primaryKey missing", then a missing partitioning key "partitioningKey missing"; the record goes to the store's topic keyed by the partitioning value and carries the whole document |
| KafkaWriter.DeleteKeyError | ikv-java-client/src/main/java/io/inline/gateway/streaming/IKVKafkaWriter.java:94-99 | No error exactly when both keys are present; the primary key is checked first, each with its own message |
| KafkaWriter.Identity | ikv-java-client/src/main/java/io/inline/gateway/streaming/IKVKafkaWriter.java:101-102 | A delete's document id holds exactly the primary-key field, with its value |
| KafkaWriter.FieldDeleteRecord | ikv-java-client/src/main/java/io/inline/gateway/streaming/IKVKafkaWriter.java:92-116 | Fails exactly as the key check does; otherwise keyed by the partitioning value and carrying only the primary key and the field names |
| KafkaWriter.DocumentDeleteRecord | ikv-java-client/src/main/java/io/inline/gateway/streaming/IKVKafkaWriter.java:139-163 | Fails exactly as the key check does; otherwise keyed by the partitioning value and carrying only the primary key |
| KafkaWriter.DeletesIgnoreOtherFields | ikv-java-client/src/main/java/io/inline/gateway/streaming/IKVKafkaWriter.java:101-102 | Two document ids with the same primary and partitioning values give the same delete records |
| KafkaWriter.Writer.constructor | ikv-java-client/src/main/java/io/inline/gateway/streaming/IKVKafkaWriter.java:18-20 | The writer publishes through the given producer |
| KafkaWriter.Writer.PublishToKafkaWithRetries | ikv-java-client/src/main/java/io/inline/gateway/streaming/IKVKafkaWriter.java:176-202 | A non-positive count throws before any send; otherwise one to `numRetries` sends, all but the last failed; success exactly when the last was acknowledged, delivering the record once; otherwise the last failure surfaces |
| KafkaWriter.Writer.PublishInOrder | ikv-java-client/src/main/java/io/inline/gateway/streaming/IKVKafkaWriter.java:39-65 | Documents are published in order; the delivered records are exactly those of the published prefix; the first document that fails to build or publish ends the loop with its exception |
| KafkaWriter.Writer.PublishDocumentUpserts | ikv-java-client/src/main/java/io/inline/gateway/streaming/IKVKafkaWriter.java:31-66 | Null arguments throw NullPointerException without a send; an empty batch sends nothing; otherwise `PublishInOrder` over the upsert records |
| KafkaWriter.Writer.PublishDocumentFieldDeletes | ikv-java-client/src/main/java/io/inline/gateway/streaming/IKVKafkaWriter.java:78-120 | Null arguments throw; empty ids or field names send nothing; otherwise `PublishInOrder` over the field-delete records |
| KafkaWriter.Writer.PublishDocumentDeletes | ikv-java-client/src/main/java/io/inline/gateway/streaming/IKVKafkaWriter.java:131-167 | Null arguments throw; an empty batch sends nothing; otherwise `PublishInOrder` over the document-delete records |
| KafkaWriter.UpsertsKeyedByPartitioningValue | ikv-java-client/src/main/java/io/inline/gateway/streaming/IKVKafkaWriter.java:45-62 | Every record of an upsert batch goes to the store's topic keyed by its own document's partitioning value |
| StoreContext.From | ikv-java-client/src/main/java/io/inline/gateway/UserStoreContext.java:16-57 | A context is built exactly when the record has a non-empty store name, topic, primary and partitioning key names and a positive partition count; a refusal is an IllegalArgumentException without message; the accessors return the record's own fields |
| StoreContext.FromValid | ikv-java-client/src/main/java/io/inline/gateway/UserStoreContext.java:16-37 | Every context built is valid, and every valid context is what its own record builds |
| StoreContext.AccountIdUnchecked | ikv-java-client/src/main/java/io/inline/gateway/UserStoreContext.java:19-32 | The account id, the schema and its version play no part in the checks |
| StoreContext.CreateGatewaySpecifiedConfigs | ikv-java-client/src/main/java/io/inline/gateway/UserStoreContext.java:59-76 | Exactly seven string entries and one int entry, the partition count, and no other configuration |
| StoreContext.ConfigsReadBack | ikv-java-client/src/main/java/io/inline/gateway/UserStoreContext.java:59-76 | Reading the configuration back gives the context's own names, topic and partition count, and a prefix ending in "/" and the store name |
| StoreContext.BucketPrefix | ikv-java-client/src/main/java/io/inline/gateway/UserStoreContext.java:72-73 | The bucket prefix is the account id, "/", then the store name, a null account id written "null" |
| WritesPublisher.KnownSchemas | ikv-java-client/src/main/java/io/inline/gateway/streaming/IKVWritesPublisher.java:116-126 | The schema list is never longer than the document's field names |
| WritesPublisher.KnownSchemasSnoc | ikv-java-client/src/main/java/io/inline/gateway/streaming/IKVWritesPublisher.java:120-123 | One more field name appends its schema when the context knows it and nothing otherwise |
| WritesPublisher.KnownSchemasExact | ikv-java-client/src/main/java/io/inline/gateway/streaming/IKVWritesPublisher.java:116-126 | The schemas listed are exactly those the context knows for the document's field names |
| WritesPublisher.KnownSchemasOfUnknown | ikv-java-client/src/main/java/io/inline/gateway/streaming/IKVWritesPublisher.java:120-123 | A document whose fields the context does not know gets an empty schema list |
| WritesPublisher.EventRecord | ikv-java-client/src/main/java/io/inline/gateway/streaming/IKVWritesPublisher.java:37-60 | A record is made exactly when both key values can be extracted, otherwise IllegalArgument; it goes to the store's topic, keyed by the partitioning value, without a fixed partition, carrying the known schemas and an upsert or a delete of the document |
| WritesPublisher.Publisher.constructor | ikv-java-client/src/main/java/io/inline/gateway/streaming/IKVWritesPublisher.java:17-19 | The publisher holds the given producer |
| WritesPublisher.Publisher.Records | ikv-java-client/src/main/java/io/inline/gateway/streaming/IKVWritesPublisher.java:37-60 | One record per document |
| WritesPublisher.SchemasOfKeyOrder | ikv-java-client/src/main/java/io/inline/gateway/streaming/IKVWritesPublisher.java:116-126 | Whatever order the map iterates its keys in, the schema list holds exactly the schemas the context knows for the document's field names, and is no longer than the document |
| WritesPublisher.CollectKnown | ikv-java-client/src/main/java/io/inline/gateway/streaming/IKVWritesPublisher.java:120-123 | The loop appends the schema of each known name, in the order of the names, and skips the others |
| WritesPublisher.Publisher.CreateFieldSchemaList | ikv-java-client/src/main/java/io/inline/gateway/streaming/IKVWritesPublisher.java:116-126 | The list is the known schemas in the map's key order; as a set it is exactly the schemas the context knows for the document's field names, and it is no longer than the document |
| WritesPublisher.Publisher.BlockingPublishWithRetries | ikv-java-client/src/main/java/io/inline/gateway/streaming/IKVWritesPublisher.java:129-141 | At most numRetries attempts; an acknowledged record is delivered once, otherwise nothing is delivered and every attempt was used; errors are swallowed |
| WritesPublisher.Publisher.PublishEach | ikv-java-client/src/main/java/io/inline/gateway/streaming/IKVWritesPublisher.java:37-65 | Documents are published in order; the first one without extractable keys stops the loop with its error, and exactly the acknowledged records of the earlier ones are delivered |
| WritesPublisher.Publisher.PublishOne | ikv-java-client/src/main/java/io/inline/gateway/streaming/IKVWritesPublisher.java:37-62 | A document whose keys do not extract gives that IllegalArgumentException and sends nothing; otherwise its record is sent and is either delivered or silently lost |
| WritesPublisher.Publisher.PublishFieldUpserts | ikv-java-client/src/main/java/io/inline/gateway/streaming/IKVWritesPublisher.java:30-66 | A null context or collection is a NullPointerException and an empty one publishes nothing; otherwise every document becomes an upsert event published in order |
| WritesPublisher.Publisher.PublishDocumentDeletes | ikv-java-client/src/main/java/io/inline/gateway/streaming/IKVWritesPublisher.java:77-111 | The same checks, with each document id published as a delete-document event |
| WriteService.PropagateError | ikv-java-client/src/main/java/io/inline/gateway/InlineKVWriteServiceImpl.java:281-309 | An IllegalArgument or NullPointer exception answers INVALID_ARGUMENT, an interruption or other unchecked exception INTERNAL, and any other checked exception UNKNOWN; each exception gets exactly one code |
| WriteService.Emitted | ikv-java-client/src/main/java/io/inline/gateway/InlineKVWriteServiceImpl.java:47-56 | A success emits its value and then completion; a failure emits one error carrying its code |
| WriteService.EmittedIsOneAnswer | ikv-java-client/src/main/java/io/inline/gateway/InlineKVWriteServiceImpl.java:47-56 | Every call answers exactly once, and ends in an error exactly when it failed |
| WriteService.Observer.constructor | ikv-java-client/src/main/java/io/inline/gateway/InlineKVWriteServiceImpl.java:41-42 | A fresh observer has seen nothing |
| WriteService.Observer.OnNext | ikv-java-client/src/main/java/io/inline/gateway/InlineKVWriteServiceImpl.java:55 | The value is appended to what the observer has seen |
| WriteService.Observer.OnCompleted | ikv-java-client/src/main/java/io/inline/gateway/InlineKVWriteServiceImpl.java:56 | Completion is appended to what the observer has seen |
| WriteService.Observer.OnError | ikv-java-client/src/main/java/io/inline/gateway/InlineKVWriteServiceImpl.java:288 | The error code is appended to what the observer has seen |
| WriteService.Service.constructor | ikv-java-client/src/main/java/io/inline/gateway/InlineKVWriteServiceImpl.java:23-27 | The service holds the given writer and context accessor |
| WriteService.Service.Respond | ikv-java-client/src/main/java/io/inline/gateway/InlineKVWriteServiceImpl.java:47-56 | The observer receives exactly the events of the outcome |
| WriteService.Service.Context | ikv-java-client/src/main/java/io/inline/gateway/InlineKVWriteServiceImpl.java:96-100 | The context comes from the accessor's lookup, whose cache it leaves as the lookup does; a missing context is an IllegalArgumentException |
| WriteService.Service.UpsertDocumentsImpl | ikv-java-client/src/main/java/io/inline/gateway/InlineKVWriteServiceImpl.java:88-106 | Null arguments are a NullPointerException and an empty batch succeeds, neither resolving a context nor publishing; otherwise the resolved context's writer publishes the documents in order until the first that cannot be keyed |
| WriteService.Service.DeleteDocumentFieldsImpl | ikv-java-client/src/main/java/io/inline/gateway/InlineKVWriteServiceImpl.java:159-180 | As the upserts, with nothing done when either the document ids or the field names are empty |
| WriteService.Service.DeleteDocumentsImpl | ikv-java-client/src/main/java/io/inline/gateway/InlineKVWriteServiceImpl.java:230-248 | As the upserts, each document id published as a document delete |
| WriteService.Service.GetUserStoreConfigImpl | ikv-java-client/src/main/java/io/inline/gateway/InlineKVWriteServiceImpl.java:270-278 | A null initializer is a NullPointerException; otherwise the resolved context's gateway configuration, or the lookup's error |
| WriteService.Service.UpsertFieldValues | ikv-java-client/src/main/java/io/inline/gateway/InlineKVWriteServiceImpl.java:40-57 | The single document is a batch of one; the caller is told of success exactly when its record was delivered, and otherwise receives the error's code |
| WriteService.Service.BatchUpsertFieldValues | ikv-java-client/src/main/java/io/inline/gateway/InlineKVWriteServiceImpl.java:59-78 | The documents as one batch; the caller hears success only when every document was delivered in order |
| WriteService.Service.DeleteFieldValues | ikv-java-client/src/main/java/io/inline/gateway/InlineKVWriteServiceImpl.java:108-126 | The single document id with the field names; no field names means success without publishing |
| WriteService.Service.BatchDeleteFieldValues | ikv-java-client/src/main/java/io/inline/gateway/InlineKVWriteServiceImpl.java:128-148 | The document ids and field names as one batch, answered once |
| WriteService.Service.DeleteDocument | ikv-java-client/src/main/java/io/inline/gateway/InlineKVWriteServiceImpl.java:182-199 | The single document id as a batch of one, answered once |
| WriteService.Service.BatchDeleteDocuments | ikv-java-client/src/main/java/io/inline/gateway/InlineKVWriteServiceImpl.java:201-220 | The document ids as one batch, answered once |
| WriteService.Service.GetUserStoreConfig | ikv-java-client/src/main/java/io/inline/gateway/InlineKVWriteServiceImpl.java:250-268 | The gateway configuration as the one value, or the error's code |
| JavaBinaryManager.OsType | ikv-java-client/src/main/java/io/inlined/clients/NativeBinaryManager.java:178-190 | "linux" exactly when the lower-cased name contains linux; "mac" exactly when it contains mac and not linux; nothing otherwise |
| JavaBinaryManager.Architecture | ikv-java-client/src/main/java/io/inlined/clients/NativeBinaryManager.java:192-201 | "aarch64" exactly when the lower-cased name contains it; "x86_64" when it contains x86_64 or amd64 and not aarch64; nothing otherwise |
| JavaBinaryManager.PlatformPrefix | ikv-java-client/src/main/java/io/inlined/clients/NativeBinaryManager.java:177-205 | A prefix exists exactly when both parts are recognised, and it is `release/<os>-<arch>` with no further `/` |
| JavaBinaryManager.MacOsType | ikv-java-client/src/main/java/io/inlined/clients/NativeBinaryManager.java:182-183 | "Mac OS X" is recognised as mac |
| JavaBinaryManager.NoWindowsOsType | ikv-java-client/src/main/java/io/inlined/clients/NativeBinaryManager.java:184-186 | "Windows 11" has no release |
| JavaBinaryManager.AmdArchitecture | ikv-java-client/src/main/java/io/inlined/clients/NativeBinaryManager.java:196-197 | The JVM's amd64 is the x86_64 release |
| JavaBinaryManager.NoPowerArchitecture | ikv-java-client/src/main/java/io/inlined/clients/NativeBinaryManager.java:198-200 | An unrecognised architecture such as ppc64le has no release |
| JavaBinaryManager.ParseInt | ikv-java-client/src/main/java/io/inlined/clients/NativeBinaryManager.java:250-251 | A parsed value is an int and comes from an optional sign and digits; digits within the int range give their value; a failure is a NumberFormatException naming the input |
| JavaBinaryManager.CompareParts | ikv-java-client/src/main/java/io/inlined/clients/NativeBinaryManager.java:249-258 | A comparison that does not throw answers -1, 0 or 1 |
| JavaBinaryManager.Compared | ikv-java-client/src/main/java/io/inlined/clients/NativeBinaryManager.java:245-259 | A comparison that does not throw answers -1, 0 or 1 |
| JavaBinaryManager.CompareSemVer | ikv-java-client/src/main/java/io/inlined/clients/NativeBinaryManager.java:245-259 | The loop over three parts returns the comparison specification, exceptions included |
| JavaBinaryManager.ComparedIsPrecedence | ikv-java-client/src/main/java/io/inlined/clients/NativeBinaryManager.java:245-259 | On plain versions whose numbers are ints, the answer is Semantic Versioning precedence |
| JavaBinaryManager.ComparedRejectsNonNumeric | ikv-java-client/src/main/java/io/inlined/clients/NativeBinaryManager.java:250-251 | A second version whose first part is not an int throws the NumberFormatException of that part |
| JavaBinaryManager.GetOptionalSemVersion | ikv-java-client/src/main/java/io/inlined/clients/NativeBinaryManager.java:230-243 | A found version is plain `X.Y.Z`; the only exception is a runtime one |
| JavaBinaryManager.KeyVersionShape | ikv-java-client/src/main/java/io/inlined/clients/NativeBinaryManager.java:230-243 | A key without exactly three `/`-pieces has no version; a found version is what precedes the first `-` of the third piece |
| JavaBinaryManager.ReleaseKeyVersion | ikv-java-client/src/main/java/io/inlined/clients/NativeBinaryManager.java:230-243 | A key `release/<platform>/<version>-<library>` gives its version |
| JavaBinaryManager.KeyPieces | ikv-java-client/src/main/java/io/inlined/clients/NativeBinaryManager.java:232 | A release key splits into `release`, the platform and the file name |
| JavaBinaryManager.PiecesOfVersionedName | ikv-java-client/src/main/java/io/inlined/clients/NativeBinaryManager.java:237 | A file `<version>-<library>` has the version as its first `-`-piece |
| JavaBinaryManager.Step | ikv-java-client/src/main/java/io/inlined/clients/NativeBinaryManager.java:216-225 | A turn that changes the kept object takes the current one, with the version its key gives |
| JavaBinaryManager.Scan | ikv-java-client/src/main/java/io/inlined/clients/NativeBinaryManager.java:216-225 | A found object is in range and, when newly found, holds the version its key gives |
| JavaBinaryManager.MaxObject | ikv-java-client/src/main/java/io/inlined/clients/NativeBinaryManager.java:207-228 | A found object is one of the listing and has a version |
| JavaBinaryManager.MaxSemVerS3Object | ikv-java-client/src/main/java/io/inlined/clients/NativeBinaryManager.java:207-228 | The loop returns `MaxObject`, exceptions included |
| JavaBinaryManager.ConsiderObject | ikv-java-client/src/main/java/io/inlined/clients/NativeBinaryManager.java:217-224 | One loop body throws exactly when the scan's turn throws, and otherwise keeps the loop's variables in step with it |
| JavaBinaryManager.MaxObjectIsHighest | ikv-java-client/src/main/java/io/inlined/clients/NativeBinaryManager.java:207-228 | On a listing whose versions are ints nothing throws; no object exactly when no key has a version; otherwise the first object of highest precedence |
| JavaBinaryManager.FirstFile | ikv-java-client/src/main/java/io/inlined/clients/NativeBinaryManager.java:83-87 | The first entry that is not a directory, or none exactly when all are directories |
| JavaBinaryManager.PathToCurrent | ikv-java-client/src/main/java/io/inlined/clients/NativeBinaryManager.java:75-95 | No path exactly when `<mount>/bin` is missing or holds no file; otherwise the first file's path |
| JavaBinaryManager.CurrentSemVer | ikv-java-client/src/main/java/io/inlined/clients/NativeBinaryManager.java:62-73 | The only exception is a runtime one; no version exactly when there is no path |
| JavaBinaryManager.CurrentSemVerOfName | ikv-java-client/src/main/java/io/inlined/clients/NativeBinaryManager.java:62-73 | A first file not starting with `-` gives as version what precedes its first `-` |
| JavaBinaryManager.JavaLastPieceOfPath | ikv-java-client/src/main/java/io/inlined/clients/NativeBinaryManager.java:68-69 | The last `/`-piece of `<dir>/<name>` is the name |
| JavaBinaryManager.FirstPieceOfName | ikv-java-client/src/main/java/io/inlined/clients/NativeBinaryManager.java:71-72 | A name not starting with `-` has as first `-`-piece the text before its first `-` |
| JavaBinaryManager.Upgrade | ikv-java-client/src/main/java/io/inlined/clients/NativeBinaryManager.java:42-59 | Exceptions pass on; no release keeps the local library; no local version upgrades |
| JavaBinaryManager.UpgradeWhenHigher | ikv-java-client/src/main/java/io/inlined/clients/NativeBinaryManager.java:52-53 | Between versions that fit, the release replaces the local library exactly when it has higher precedence |
| JavaBinaryManager.NoUpgradeOfSame | ikv-java-client/src/main/java/io/inlined/clients/NativeBinaryManager.java:52-53 | Once the highest release is installed, the same listing replaces nothing |
| JavaBinaryManager.Cleared | ikv-java-client/src/main/java/io/inlined/clients/NativeBinaryManager.java:128-142 | A clearing without an exception leaves nothing |
| JavaBinaryManager.ClearedStopsAtFirst | ikv-java-client/src/main/java/io/inlined/clients/NativeBinaryManager.java:137-140 | Clearing deletes a prefix of deletable entries; it succeeds exactly when all are deletable, and otherwise stops at the first that is not, naming it |
| JavaBinaryManager.WithoutName | ikv-java-client/src/main/java/io/inlined/clients/NativeBinaryManager.java:165 | The entries with a given name are exactly removed, as a new file of that name replaces them |
| JavaBinaryManager.NativeBinaryManager.constructor | ikv-java-client/src/main/java/io/inlined/clients/NativeBinaryManager.java:33-36 | The manager holds the mount directory, platform, bucket listing and directory state |
| JavaBinaryManager.NativeBinaryManager.HighestObject | ikv-java-client/src/main/java/io/inlined/clients/NativeBinaryManager.java:116-126 | No platform prefix gives no object; otherwise the highest object of the prefix's listing |
| JavaBinaryManager.NativeBinaryManager.HighestAvailableSemVerS3Object | ikv-java-client/src/main/java/io/inlined/clients/NativeBinaryManager.java:116-126 | The method returns `HighestObject` |
| JavaBinaryManager.NativeBinaryManager.HighestSemVerOfObject | ikv-java-client/src/main/java/io/inlined/clients/NativeBinaryManager.java:101-114 | The highest version is present exactly when an object is, and it is the version the scan read from that object's key |
| JavaBinaryManager.NativeBinaryManager.HighestAvailableSemVer | ikv-java-client/src/main/java/io/inlined/clients/NativeBinaryManager.java:101-114 | The method returns the highest object's version |
| JavaBinaryManager.NativeBinaryManager.ClearLocalNativeBinaries | ikv-java-client/src/main/java/io/inlined/clients/NativeBinaryManager.java:128-142 | No `<mount>/bin` changes nothing; otherwise the directory is left as `Cleared` leaves it, with its exception |
| JavaBinaryManager.NativeBinaryManager.DownloadHighestAvailableSemVerNativeBinary | ikv-java-client/src/main/java/io/inlined/clients/NativeBinaryManager.java:144-174 | Exceptions pass on and no object changes nothing; otherwise `<mount>/bin` exists, and without a failed write it holds the object under its key's third `/`-piece |
| JavaBinaryManager.NativeBinaryManager.ReplaceWithHighest | ikv-java-client/src/main/java/io/inlined/clients/NativeBinaryManager.java:54-55 | A failed deletion or write is passed on with what is left; otherwise the directory holds only the highest release, whose version reads back as the highest |
| JavaBinaryManager.NativeBinaryManager.GetPathToNativeBinary | ikv-java-client/src/main/java/io/inlined/clients/NativeBinaryManager.java:42-59 | Exceptions pass on; without an upgrade the local path is returned and nothing changes; an upgrade installs the highest release and returns its path |
| JavaBinaryManager.NativeBinaryManager.InstalledIsHighest | ikv-java-client/src/main/java/io/inlined/clients/NativeBinaryManager.java:155-167 | The file written for the highest release reads back as the highest version |
| ClientConfig.CheckedLevel | ikv-java-client/src/main/java/io/inlined/clients/ClientOptions.java:113-117 | A level is accepted exactly when its lower-cased form is one of error, warn, info, debug, trace, and is then stored lower-cased |
| ClientConfig.LoggingSettersKeepValid | ikv-java-client/src/main/java/io/inlined/clients/ClientOptions.java:50-56 | The default console logging at "info" and both logging setters give a configuration whose logging part is complete; other string and int entries keep it so |
| ClientConfig.LoggerAccepts | ikv/src/utils/logging.rs:16-72 | The native logger accepts every configuration whose logging part the builders keep complete: console when the flag is set, the file otherwise, at the stored level |
| InlinedClientOptions.NewClientOptions | ikv-java-client/src/main/java/io/inlined/clients/ClientOptions.java:16-21 | Options exist exactly for a non-null key type other than UNKNOWN; null is a NullPointerException and UNKNOWN an IllegalArgumentException |
| InlinedClientOptions.Built | ikv-java-client/src/main/java/io/inlined/clients/ClientOptions.java:58-67 | `build` succeeds exactly when account id, passkey, store name, mount directory and partition are all set and the key type is neither null nor UNKNOWN; a missing entry is an IllegalArgumentException whatever the key type |
| InlinedClientOptions.CreateUserStoreContextInitializer | ikv-java-client/src/main/java/io/inlined/clients/ClientOptions.java:32-41 | The initializer exists exactly when store name, account id and passkey are present, and carries those three values |
| InlinedClientOptions.BuiltOptionsUsable | ikv-java-client/src/main/java/io/inlined/clients/ClientOptions.java:32-41 | Options built from any reachable builder state yield an initializer with the non-empty account, passkey and store given to the builder, and a logging configuration the native logger accepts |
| InlinedClientOptions.Builder.constructor | ikv-java-client/src/main/java/io/inlined/clients/ClientOptions.java:50-56 | A new builder holds console logging at "info", no key type, and satisfies the builder invariant |
| InlinedClientOptions.Builder.Build | ikv-java-client/src/main/java/io/inlined/clients/ClientOptions.java:58-67 | `build` returns exactly `Built` of the builder's configuration and key type |
| InlinedClientOptions.Builder.UseStringPrimaryKey | ikv-java-client/src/main/java/io/inlined/clients/ClientOptions.java:69-73 | The key type becomes STRING and nothing else changes |
| InlinedClientOptions.Builder.UseBytesPrimaryKey | ikv-java-client/src/main/java/io/inlined/clients/ClientOptions.java:75-78 | The key type becomes BYTES and nothing else changes |
| InlinedClientOptions.Builder.PutRequired | ikv-java-client/src/main/java/io/inlined/clients/ClientOptions.java:80-111 | A null or empty value is an IllegalArgumentException that changes nothing; otherwise exactly that string entry is stored |
| InlinedClientOptions.Builder.WithMountDirectory | ikv-java-client/src/main/java/io/inlined/clients/ClientOptions.java:80-85 | A null or empty directory is refused with nothing changed; otherwise only the mount-directory entry is set; the invariant is kept |
| InlinedClientOptions.Builder.WithStoreName | ikv-java-client/src/main/java/io/inlined/clients/ClientOptions.java:87-91 | A null or empty name is refused with nothing changed; otherwise only the store-name entry is set; the invariant is kept |
| InlinedClientOptions.Builder.WithStorePartition | ikv-java-client/src/main/java/io/inlined/clients/ClientOptions.java:93-99 | A negative partition is refused with nothing changed; otherwise only the partition entry is set; the invariant is kept |
| InlinedClientOptions.Builder.WithAccountId | ikv-java-client/src/main/java/io/inlined/clients/ClientOptions.java:101-105 | A null or empty id is refused with nothing changed; otherwise only the account-id entry is set; the invariant is kept |
| InlinedClientOptions.Builder.WithAccountPassKey | ikv-java-client/src/main/java/io/inlined/clients/ClientOptions.java:107-111 | A null or empty passkey is refused with nothing changed; otherwise only the passkey entry is set; the invariant is kept |
| InlinedClientOptions.Builder.WithConsoleLogging | ikv-java-client/src/main/java/io/inlined/clients/ClientOptions.java:113-120 | A null, empty or unknown level is refused with nothing changed, an unknown one with the log-level message; otherwise the lower-cased level is stored and the console turned on |
| InlinedClientOptions.Builder.WithFileLogging | ikv-java-client/src/main/java/io/inlined/clients/ClientOptions.java:122-131 | The path is checked, then the level, each refusal changing nothing; otherwise the lower-cased level, console off and the path are stored |
| InlineClientOptions.Built | ikv-java-client/src/main/java/io/inline/clients/ClientOptions.java:50-60 | `build` succeeds exactly when account id, passkey, store name, mount directory, partition and primary-key field name are all set, and otherwise throws IllegalArgumentException |
| InlineClientOptions.KeptNeverBuilds | ikv-java-client/src/main/java/io/inline/clients/ClientOptions.java:50-60 | No builder state reachable through the setters builds: no setter stores the primary-key field name that `build` requires |
| InlineClientOptions.Builder.constructor | ikv-java-client/src/main/java/io/inline/clients/ClientOptions.java:42-48 | A new builder holds console logging at "info" and satisfies the builder invariant |
| InlineClientOptions.Builder.Build | ikv-java-client/src/main/java/io/inline/clients/ClientOptions.java:50-60 | `build` returns exactly `Built` of the builder's configuration, which is an IllegalArgumentException whenever the invariant holds |
| InlineClientOptions.Builder.PutRequired | ikv-java-client/src/main/java/io/inline/clients/ClientOptions.java:62-92 | A null or empty value is an IllegalArgumentException that changes nothing; otherwise exactly that string entry is stored |
| InlineClientOptions.Builder.WithMountDirectory | ikv-java-client/src/main/java/io/inline/clients/ClientOptions.java:62-67 | A null or empty directory is refused with nothing changed; otherwise only the mount-directory entry is set; the invariant is kept |
| InlineClientOptions.Builder.WithStoreName | ikv-java-client/src/main/java/io/inline/clients/ClientOptions.java:69-73 | A null or empty name is refused with nothing changed; otherwise only the store-name entry is set; the invariant is kept |
| InlineClientOptions.Builder.WithStorePartition | ikv-java-client/src/main/java/io/inline/clients/ClientOptions.java:75-80 | A partition of 0 or less is refused with nothing changed; otherwise it is stored as both the partition and the consumer partition |
| InlineClientOptions.Builder.WithAccountId | ikv-java-client/src/main/java/io/inline/clients/ClientOptions.java:82-86 | A null or empty id is refused with nothing changed; otherwise only the account-id entry is set; the invariant is kept |
| InlineClientOptions.Builder.WithAccountPassKey | ikv-java-client/src/main/java/io/inline/clients/ClientOptions.java:88-92 | A null or empty passkey is refused with nothing changed; otherwise only the passkey entry is set; the invariant is kept |
| InlineClientOptions.Builder.WithConsoleLogging | ikv-java-client/src/main/java/io/inline/clients/ClientOptions.java:94-102 | A null, empty or unknown level is refused with nothing changed; otherwise the lower-cased level is stored and the console turned on |
| InlineClientOptions.Builder.WithFileLogging | ikv-java-client/src/main/java/io/inline/clients/ClientOptions.java:104-114 | The path is checked, then the level, each refusal changing nothing; otherwise the lower-cased level, console off and the path are stored |
| PrimaryKeys.FromBytes | ikv-java-client/src/main/java/io/inline/clients/PrimaryKey.java:19-22 | A byte key is accepted exactly when it is non-null and non-empty, and then holds those bytes; otherwise IllegalArgumentException |
| PrimaryKeys.FromString | ikv-java-client/src/main/java/io/inline/clients/PrimaryKey.java:24-27 | A string key is accepted exactly when it is non-null and non-empty; otherwise IllegalArgumentException |
| PrimaryKeys.FromNumber | ikv-java-client/src/main/java/io/inline/clients/PrimaryKey.java:29-43 | Numeric keys always throw UnsupportedOperationException |
| PrimaryKeys.FromStringRoundTrip | ikv-java-client/src/main/java/io/inline/clients/PrimaryKey.java:24-27 | An accepted string key's bytes are non-empty and decode back to the string |
| PrimaryKeys.FromStringInjective | ikv-java-client/src/main/java/io/inline/clients/PrimaryKey.java:24-27 | Distinct non-empty strings make distinct keys |
| PyBinaryManager.PlainMatches | ikv-python-client/ikv_py/bin_manager.py:11 | Every plain `X.Y.Z` version matches SEMVER_PATTERN |
| PyBinaryManager.ParseSemverMeaning | ikv-python-client/ikv_py/bin_manager.py:130-140 | A file name has a version exactly when it is non-empty and its text before the first `-` matches SEMVER_PATTERN; that text, which holds no `-`, is the version |
| PyBinaryManager.ParseRendered | ikv-python-client/ikv_py/bin_manager.py:130-140 | A released file `<version>-<library>` and a bare version both give back the version |
| PyBinaryManager.ParseRejectsNonDigit | ikv-python-client/ikv_py/bin_manager.py:130-140 | A name that does not start with a digit, such as `libikv.so`, has no version |
| PyBinaryManager.BuildMetadataUncomparable | ikv-python-client/ikv_py/bin_manager.py:11 | A version with build metadata, `X.Y.Z+build`, matches SEMVER_PATTERN, yet `compare_semver` raises on it |
| PyBinaryManager.PlatformS3Prefix | ikv-python-client/ikv_py/bin_manager.py:142-156 | Each of the three prefixes is returned exactly for its lower-cased system and machine names, and no other prefix is ever returned |
| PyBinaryManager.RemoteFiles | ikv-python-client/ikv_py/bin_manager.py:80-85 | Every kept name has a version and no `/`, and there are no more names than listed keys |
| PyBinaryManager.ReleaseKeyKept | ikv-python-client/ikv_py/bin_manager.py:84-85 | A key of the release layout `release/<platform>/<version>-<library>` is kept as its file name, in listing order |
| PyBinaryManager.RemoteDetails | ikv-python-client/ikv_py/bin_manager.py:68-98 | Version and key are both present or both absent; no prefix or no versioned file gives `(None, None)`; a result names a kept file with its version and `prefix/file` |
| PyBinaryManager.PickHighest | ikv-python-client/ikv_py/bin_manager.py:90-96 | The loop ends with the version and name the scan specification picks, or with the exception a comparison raises |
| PyBinaryManager.RemoteDetailsIsHighest | ikv-python-client/ikv_py/bin_manager.py:68-98 | On plain versions nothing raises, and the answer is a file of the highest precedence, the first one listed to have it |
| PyBinaryManager.LocalDetails | ikv-python-client/ikv_py/bin_manager.py:50-66 | Version and path are both present or both absent; absent exactly when no listed name has a version; otherwise the first versioned name and its path under `<mount>/bin` |
| PyBinaryManager.Directories | ikv-python-client/ikv_py/bin_manager.py:124-128 | What survives deletion is exactly the entries that are directories |
| PyBinaryManager.Choice | ikv-python-client/ikv_py/bin_manager.py:39-48 | Nothing remote keeps the local library; no local version downloads the remote one; a download is always of the remote key |
| PyBinaryManager.ChoiceOnPlain | ikv-python-client/ikv_py/bin_manager.py:43-48 | On plain versions the remote library is downloaded exactly when its version has higher precedence than the local one |
| PyBinaryManager.DownloadedIsLocal | ikv-python-client/ikv_py/bin_manager.py:100-122 | After a download the new file is the local library, and a second look at the same remote answer keeps it |
| PyBinaryManager.NativeBinaryManager.constructor | ikv-python-client/ikv_py/bin_manager.py:19-21 | The manager holds the given mount directory, platform and bucket listing |
| PyBinaryManager.NativeBinaryManager.New | ikv-python-client/ikv_py/bin_manager.py:19-21 | A blank or non-`str` mount directory raises what `is_valid_str_or_raise` raises; otherwise a fresh manager holds it |
| PyBinaryManager.NativeBinaryManager.RemoteDll | ikv-python-client/ikv_py/bin_manager.py:68-98 | No platform prefix gives `(None, None)`; otherwise the highest file of the prefix's listing |
| PyBinaryManager.NativeBinaryManager.InitMountDir | ikv-python-client/ikv_py/bin_manager.py:23-28 | `<mount>/bin` exists afterwards and keeps what it held |
| PyBinaryManager.NativeBinaryManager.LocalDllDetails | ikv-python-client/ikv_py/bin_manager.py:50-66 | The loop returns `LocalDetails` of the directory listing |
| PyBinaryManager.NativeBinaryManager.RemoteDllDetails | ikv-python-client/ikv_py/bin_manager.py:68-98 | The method returns `RemoteDll` |
| PyBinaryManager.NativeBinaryManager.DeleteFilesInDirectory | ikv-python-client/ikv_py/bin_manager.py:124-128 | Every entry that is not a directory is removed; the directories stay, in order |
| PyBinaryManager.NativeBinaryManager.DownloadRemoteDll | ikv-python-client/ikv_py/bin_manager.py:100-122 | Old files are deleted; then, unless the body is missing, the object lands in `<mount>/bin` under its key's last `/`-piece and that path is returned |
| PyBinaryManager.NativeBinaryManager.GetPathToDll | ikv-python-client/ikv_py/bin_manager.py:30-48 | A raising comparison is passed on; otherwise the local path is kept or the remote key downloaded, as `Choice` decides |
| PyUtils.IsValidStrOrRaise | ikv-python-client/src/ikvpy/utils.py:5-10 | Passes exactly a `str` with a non-whitespace character, returning it; a non-`str` is a TypeError, a blank one a ValueError |
| PyUtils.IsValidBytesOrRaise | ikv-python-client/src/ikvpy/utils.py:12-17 | Passes exactly non-empty `bytes`, returning them; a non-`bytes` is a TypeError, an empty one a ValueError |
| PyUtils.ValidatorsIdempotent | ikv-python-client/src/ikvpy/utils.py:5-17 | A validated value validates again to itself |
| PyUtils.PyInt | ikv-python-client/src/ikvpy/utils.py:21 | `int` fails, with a ValueError, exactly when the stripped text without its sign is not digits grouped by single underscores |
| PyUtils.PyIntGrouped | ikv-python-client/src/ikvpy/utils.py:21 | Underscores between digits are accepted and dropped: "1_0" is 10 and "-1_0" is -10 |
| PyUtils.PyIntMisplacedUnderscore | ikv-python-client/src/ikvpy/utils.py:21 | A leading, trailing or doubled underscore is a ValueError |
| PyUtils.ParseSemver | ikv-python-client/src/ikvpy/utils.py:19-23 | A version that parses has at least three dot-pieces; a failure is a ValueError |
| PyUtils.StrCompare | ikv-python-client/src/ikvpy/utils.py:34 | Python's string ordering is a three-way answer that is 0 exactly for equal strings |
| PyUtils.StrCompareAntisymmetric | ikv-python-client/src/ikvpy/utils.py:34 | Swapping two strings negates their ordering |
| PyUtils.TupleCompare | ikv-python-client/src/ikvpy/utils.py:34 | Tuple comparison answers -1, 0 or 1, 0 exactly for equal tuples, and raises exactly when the numbers agree and only one side has a pre-release |
| PyUtils.CompareSemver | ikv-python-client/src/ikvpy/utils.py:25-34 | `compare_semver` answers -1, 0 or 1, and 0 exactly when both versions parse to the same tuple |
| PyUtils.CompareSemverAntisymmetric | ikv-python-client/src/ikvpy/utils.py:25-34 | Swapping the versions negates the answer |
| PyUtils.ParsePlain | ikv-python-client/src/ikvpy/utils.py:19-23 | A plain `X.Y.Z` text parses to its three numbers without a pre-release |
| PyUtils.ComparePlain | ikv-python-client/src/ikvpy/utils.py:25-34 | On plain versions `compare_semver` is semantic-version precedence |
| PyUtils.CompareRendered | ikv-python-client/src/ikvpy/utils.py:25-34 | Rendered versions compare by precedence |
| PyUtils.ParseWithPreRelease | ikv-python-client/src/ikvpy/utils.py:19-23 | A fourth piece holding `-` is kept as the pre-release |
| PyUtils.ComparePreReleaseWithPlain | ikv-python-client/src/ikvpy/utils.py:25-34 | A pre-release against the same plain numbers raises, in either order |
| PyUtils.Concatenated | ikv-python-client/src/ikvpy/utils.py:36-86 | Packing succeeds exactly when every length fits the `<i` format, and the packed bytes unframe as the items |
| PyUtils.ConcatenatedAppend | ikv-python-client/src/ikvpy/utils.py:60-86 | Packing two lists together is the two packings one after the other |
| PyUtils.EncodeAll | ikv-python-client/src/ikvpy/utils.py:40-45 | The encoding loop yields each string's UTF-8 bytes and the summed capacity |
| PyUtils.SumCapacity | ikv-python-client/src/ikvpy/utils.py:64-66 | The summing loop over byte strings yields the summed capacity |
| PyUtils.WriteEntry | ikv-python-client/src/ikvpy/utils.py:52-56 | One item is written as its i32 length then its bytes, after what was already there |
| PyUtils.WriteFramed | ikv-python-client/src/ikvpy/utils.py:49-56 | The writing loop succeeds exactly when every length fits, leaving the items' framing after the bytes before it; otherwise a struct.error |
| PyUtils.WriteBoth | ikv-python-client/src/ikvpy/utils.py:76-84 | Both lists written into one buffer leave the framing of their concatenation, or a struct.error |
| PyUtils.ConcatStringsWithSizePrefix | ikv-python-client/src/ikvpy/utils.py:36-58 | The function returns exactly the packing of the strings' UTF-8 bytes |
| PyUtils.ConcatAsUtf8WithSizePrefix | ikv-python-client/src/ikvpy/utils.py:60-86 | The function returns exactly the packing of the byte strings followed by the strings' UTF-8 bytes |
| PyUtils.ReadOne | ikv-python-client/src/ikvpy/utils.py:90-100 | One turn of the loop moves the cursor forward and yields exactly the first value of what remains, or the error that ends it |
| PyUtils.UnpackSizePrefixed | ikv-python-client/src/ikvpy/utils.py:88-100 | The generator loop, collected, yields exactly the values `Unpacked` describes: -1 as None, 0 as empty, a positive size as the next bytes |
| PyUtils.DecodeStr | ikv-python-client/src/ikvpy/utils.py:113 | Strict UTF-8 decoding: succeeds exactly on well-formed bytes, otherwise a UnicodeDecodeError |
| PyUtils.UnpackSizePrefixedBytesAsBytes | ikv-python-client/src/ikvpy/utils.py:88-100 | The byte generator yields exactly the unpacked slices |
| PyUtils.UnpackSizePrefixedBytesAsStr | ikv-python-client/src/ikvpy/utils.py:102-114 | The string generator yields exactly the unpacked strings, strictly decoded |
| PyUtils.UnpackBytesOfFrame | ikv-python-client/src/ikvpy/utils.py:88-100 | Framed byte strings unpack as themselves, the empty ones included |
| PyUtils.UnpackStrOfFrame | ikv-python-client/src/ikvpy/utils.py:102-114 | Framed UTF-8 strings unpack as the strings, the empty ones included |
| PyUtils.StringsRoundTrip | ikv-python-client/src/ikvpy/utils.py:36-58 | Strings packed by `concat_strings_with_size_prefix` unpack as the same strings |
| PyUtils.BytesRoundTrip | ikv-python-client/src/ikvpy/utils.py:60-100 | Byte strings packed by `concat_as_utf8_with_size_prefix` unpack as the same byte strings |
| PyUtils.MixedRoundTrip | ikv-python-client/src/ikvpy/utils.py:60-114 | Byte strings and strings packed together unpack to the byte strings followed by the strings' bytes, which decode back to the strings |
| PyUtils.UnpackNoneSize | ikv-python-client/src/ikvpy/utils.py:94-95 | The missing-value size -1 unpacks as None |
| PyUtils.NextCursorAsWritten | ikv-python-client/src/ikvpy/utils.py:91-100 | As written, a size below -4 moves the cursor backwards |
| PyUtils.AsWrittenLoopsForever | ikv-python-client/src/ikvpy/utils.py:88-100 | As written, a buffer starting with size -4 brings the cursor back to 0, so the generator never ends |
| PyUtils.CorrectedRejectsNegativeSize | ikv-python-client/src/ikvpy/utils.py:88-100 | The corrected reading of that buffer stops with a ValueError |
| ConfigMerge.MergedMeaning | ikv-python-client/src/ikvpy/reader.py:79-109 | In each merged map the keys are exactly those of either side, the client's value wins on a shared key, and the server's other values survive |
| ConfigMerge.MergeIdempotent | ikv-python-client/src/ikvpy/reader.py:79-109 | Merging the same client configuration a second time changes nothing |
| ConfigMerge.Overwrite | ikv-go-client/reader.go:108-113 | Writing the client's entries over the server map one by one, in any key order, yields the client-wins union |
| ConfigMerge.MergeConfigs | ikv-python-client/src/ikvpy/reader.py:79-109 | The map-by-map loops produce exactly the merged configuration |
| PyReader.KeyBytes | ikv-python-client/src/ikvpy/reader.py:43-55 | A `str` key is looked up by its UTF-8 bytes, `bytes` as they are, a `bytearray` by its contents; every other type is a TypeError, and only then |
| PyReader.KeyFormsAgree | ikv-python-client/src/ikvpy/reader.py:43-69 | A string key, its UTF-8 bytes and a bytearray of them look up the same bytes, which are empty only for the empty string |
| PyReader.IKVReaderImpl.constructor | ikv-python-client/src/ikvpy/reader.py:12-17 | A new reader holds the options and no native reader |
| PyReader.IKVReaderImpl.New | ikv-python-client/src/ikvpy/reader.py:12-17 | None options are a TypeError; otherwise a fresh reader holding them, with no native reader |
| PyReader.MissingMountDirectory | ikv-python-client/src/ikvpy/reader.py:22 | A configuration without a mount directory reads it as "" and fails with the blank-string ValueError; the read inserts the key exactly when it was missing |
| PyReader.IKVReaderImpl.Startup | ikv-python-client/src/ikvpy/reader.py:19-38 | The mount directory is read from the protobuf map, a missing one as "" that is inserted into the client's configuration; a blank one is the validation error, a missing library and a missing server configuration RuntimeErrors; the library is loaded before the server is asked; otherwise the index opens with the client's entries merged over the server's |
| PyReader.IKVReaderImpl.Shutdown | ikv-python-client/src/ikvpy/reader.py:40-41 | Before startup there is no native reader, an AttributeError; otherwise the close is passed through and the reader kept |
| PyReader.IKVReaderImpl.GetBytesValue | ikv-python-client/src/ikvpy/reader.py:43-55 | The key type is checked first; before startup the read is an AttributeError; otherwise the native byte read of the key's bytes |
| PyReader.IKVReaderImpl.GetStringValue | ikv-python-client/src/ikvpy/reader.py:57-69 | The key type is checked first; before startup the read is an AttributeError; otherwise the native string read of the key's bytes |
| GoReader.KeyBytes | ikv-go-client/reader.go:61-76 | A string or byte-slice key is looked up by its bytes; any other type is the "key can only be a string or []byte" error, and only then |
| GoReader.MissingReadsAsEmpty | ikv-go-client/reader.go:78-85 | A missing value and an empty one both read as the empty string |
| GoReader.DefaultIKVReader.constructor | ikv-go-client/reader.go:14-17 | A new reader holds the options and the bad handle -1 |
| GoReader.DefaultIKVReader.CreateIKVConfig | ikv-go-client/reader.go:87-144 | A writer failure is wrapped with "cannot fetch server supplied options: "; otherwise the client's entries merged over the server's configuration |
| GoReader.DefaultIKVReader.Startup | ikv-go-client/reader.go:21-44 | Once open nothing changes; a configuration error is returned with the reader still closed; a failed open is wrapped with "cannot initialize reader: "; otherwise the handle is the one the open gives |
| GoReader.DefaultIKVReader.Shutdown | ikv-go-client/reader.go:48-59 | Once closed nothing changes; a failed close is returned with the handle kept; otherwise the handle goes back to -1 |
| GoReader.DefaultIKVReader.GetBytesValue | ikv-go-client/reader.go:61-76 | An unsupported key type is an error with no value; otherwise the native read with the handle as it is, open or not |
| GoReader.DefaultIKVReader.GetStringValue | ikv-go-client/reader.go:78-85 | An error comes back with "", otherwise the byte read as a string, a missing value as "" |
| LegacyClient.Client.constructor | ikv-java-client/src/main/java/io/inline/clients/LegacyIKVClient.java:12-24 | A client holds the handle the native create or open returned, and has sent no batch request |
| LegacyClient.Client.ReadStringField | ikv-java-client/src/main/java/io/inline/clients/LegacyIKVClient.java:40-48 | Null exactly when the native read is null; otherwise the bytes decoded as UTF-8 |
| LegacyClient.Client.ReadI32Field | ikv-java-client/src/main/java/io/inline/clients/LegacyIKVClient.java:50-58 | Null exactly when the native read is null; fewer than four bytes underflow the buffer; otherwise an i32 |
| LegacyClient.Client.ReadI32FieldRoundTrip | ikv-java-client/src/main/java/io/inline/clients/LegacyIKVClient.java:50-58 | A value stored as an i32's four little-endian bytes reads back as that i32 |
| LegacyClient.Client.ReadStringFieldRoundTrip | ikv-java-client/src/main/java/io/inline/clients/LegacyIKVClient.java:40-48 | A value stored as a string's UTF-8 bytes reads back as that string |
| LegacyClient.Client.BatchReadBytesField | ikv-java-client/src/main/java/io/inline/clients/LegacyIKVClient.java:60-96 | No keys give no values and send nothing; otherwise exactly the keys' framing is sent, and the non-empty entries of the answer come back in order |
| LegacyClient.BatchDropsEmpty | ikv-java-client/src/main/java/io/inline/clients/LegacyIKVClient.java:84-95 | When some value is empty, the batch read returns fewer values than keys, so values lose their keys' positions |
| InlineReader.SerializedKeys | ikv-java-client/src/main/java/io/inline/clients/DefaultInlineKVReader.java:145-158 | The keys' serialized bytes, one per key, in order |
| InlineReader.KeyBufferRoundTrip | ikv-java-client/src/main/java/io/inline/clients/DefaultInlineKVReader.java:145-158 | Keys made by the factories read back from the key buffer as their bytes, in order, when the buffer fits |
| InlineReader.Reader.constructor | ikv-java-client/src/main/java/io/inline/clients/DefaultInlineKVReader.java:18-20 | A new reader is not open and has sent no batch request |
| InlineReader.Reader.Startup | ikv-java-client/src/main/java/io/inline/clients/DefaultInlineKVReader.java:22-35 | Nothing changes when already open; otherwise the handle is what the native open gives, and a failed open is passed on with the reader still closed |
| InlineReader.Reader.Shutdown | ikv-java-client/src/main/java/io/inline/clients/DefaultInlineKVReader.java:37-41 | The native close's failure is passed on with the handle kept; a close that returns resets the handle |
| InlineReader.Reader.GetBytesValue | ikv-java-client/src/main/java/io/inline/clients/DefaultInlineKVReader.java:48-57 | IllegalStateException exactly when not open; null unless the accessor reads BYTES; otherwise the native read of the key's bytes |
| InlineReader.Reader.GetStringValue | ikv-java-client/src/main/java/io/inline/clients/DefaultInlineKVReader.java:59-69 | IllegalStateException exactly when not open; null unless the accessor reads STRING; otherwise the native read decoded as UTF-8 |
| InlineReader.Reader.SingleReadsExclusive | ikv-java-client/src/main/java/io/inline/clients/DefaultInlineKVReader.java:48-69 | At most one of the two single reads is non-null for the same key and accessor |
| InlineReader.Reader.MultiGetBytesValue | ikv-java-client/src/main/java/io/inline/clients/DefaultInlineKVReader.java:71-113 | Null or no keys give no values and send nothing; otherwise the key buffer is sent and every entry of the answer comes back in place, empty ones as null |
| InlineReader.Reader.MultiGetStringValue | ikv-java-client/src/main/java/io/inline/clients/DefaultInlineKVReader.java:87-101 | As the byte batch read, with each non-null value decoded as UTF-8 |
| InlineReader.SizePrefixedSerializedPrimaryKeys | ikv-java-client/src/main/java/io/inline/clients/DefaultInlineKVReader.java:141-158 | The loop-built buffer is exactly the keys' key buffer, errors included |
| InlinedReader.SerializePrimaryKeyProperties | ikv-java-client/src/main/java/io/inlined/clients/DefaultInlineKVReader.java:168-179 | Serialization succeeds exactly for STRING, and for BYTES on byte arrays; other types throw UnsupportedOperationException; a string key's bytes decode back to its rendering |
| InlinedReader.SerializeAll | ikv-java-client/src/main/java/io/inlined/clients/DefaultInlineKVReader.java:149-157 | The keys serialize in order, one result per key, and the whole fails exactly when one key fails |
| InlinedReader.SizePrefixedSerializedPrimaryKeys | ikv-java-client/src/main/java/io/inlined/clients/DefaultInlineKVReader.java:141-166 | Null or no keys give an empty array; otherwise the loops produce exactly the framing of the serialized keys, or the first serialization failure |
| InlinedReader.SerializeAllFirstError | ikv-java-client/src/main/java/io/inlined/clients/DefaultInlineKVReader.java:149-157 | The first key that does not serialize decides the failure |
| InlinedReader.KeyBufferRoundTrip | ikv-java-client/src/main/java/io/inlined/clients/DefaultInlineKVReader.java:141-166 | For keys that serialize to non-empty bytes, the key buffer reads back as those bytes, in order |
| InlinedReader.NativeAnswerHasNoNulls | ikv-java-client/src/main/java/io/inlined/clients/DefaultInlineKVReader.java:111-135 | The native batch answer never reads back as null: it leaves out ids without a value, so the list is shorter than the key list whenever a key has none |
| InlinedReader.Reader.constructor | ikv-java-client/src/main/java/io/inlined/clients/DefaultInlineKVReader.java:18-23 | A new reader is not open, keeps the options' key type and has sent no batch request |
| InlinedReader.Reader.StartupReader | ikv-java-client/src/main/java/io/inlined/clients/DefaultInlineKVReader.java:25-33 | Nothing changes once a handle is set; otherwise the handle is what the native open gives, and a failed open is passed on with the reader still closed |
| InlinedReader.Reader.ShutdownReader | ikv-java-client/src/main/java/io/inlined/clients/DefaultInlineKVReader.java:35-40 | The native close's failure is passed on with the handle kept; a close that returns resets the handle |
| InlinedReader.Reader.GetBytesValue | ikv-java-client/src/main/java/io/inlined/clients/DefaultInlineKVReader.java:47-53 | IllegalStateException when not open; otherwise succeeds exactly when the key serializes, with the native read of its bytes |
| InlinedReader.Reader.GetStringValue | ikv-java-client/src/main/java/io/inlined/clients/DefaultInlineKVReader.java:55-65 | Fails exactly as the byte read does; null stays null, and a present value is decoded as UTF-8 |
| InlinedReader.Reader.GetStringValueOfUtf8 | ikv-java-client/src/main/java/io/inlined/clients/DefaultInlineKVReader.java:55-65 | A value stored as the UTF-8 bytes of a string reads back as that string |
| InlinedReader.Reader.MultiGetBytesValue | ikv-java-client/src/main/java/io/inlined/clients/DefaultInlineKVReader.java:67-109 | Null or no keys give no values and send nothing; a key that does not serialize fails before sending; otherwise the key buffer is sent and every entry comes back in place, empty ones as null |
| InlinedReader.Reader.MultiGetStringValue | ikv-java-client/src/main/java/io/inlined/clients/DefaultInlineKVReader.java:83-97 | As the byte batch read, with each non-null value decoded as UTF-8 |
| CkvSegment.FromTag | ikv/src/index/ckv_segment.rs:345 | A tag names a field type exactly when it is 0 to 7, and the type it names carries that tag |
| CkvSegment.ReadVariableOfEncoded | ikv/src/index/ckv_segment.rs:330-373 | A string or bytes entry written at an offset reads back as its type and payload, ending where its size says |
| CkvSegment.ReadFixedOfEncoded | ikv/src/index/ckv_segment.rs:330-373 | A fixed-width or boolean entry written at an offset reads back as its type and payload, ending where its size says |
| Logging.LogHandle.constructor | ikv/src/utils/logging.rs:16-50 | Before any configuration there is no handle |

## Left out

- ColumnarIndex.ColumnarKVIndex.GetFieldValueById models the intended lookup of Findings row 2 (the field whose id is the requested id). As written, api.rs:81 indexes the id-sorted table by position; `FieldAt` models that.
- ColumnarIndex.ColumnarKVIndex.UpsertFieldValue models the intended write of Findings row 1 (`UpsertAppending`). As written, every valid upsert panics (`PkIndex.PrimaryKeyIndex.Upsert`).
- ColumnarIndex.ColumnarKVIndex.UpsertFieldValueByName writes through the intended `UpsertAppending` of Findings row 1. As written, a valid upsert panics.
- ColumnarIndex.ColumnarKVIndex.UpsertFieldValueById resolves the id through the intended `FieldWithId` of Findings row 2 and writes through the intended `UpsertAppending` of Findings row 1. As written, the id is looked up by position and a valid upsert panics.
- GoBinaryManager.BinaryManager.HighestRemote picks the highest version as intended in Findings row 3. As written, bin_manager.go:140 compares with `max_s3_key` and can keep an older release (`HighestAsWritten`, `OlderReleaseChosen`).
- GoBinaryManager.BinaryManager.HighestRemoteSemVer runs the intended comparison of Findings row 3, against `max_semver`. The loop as written is `HighestAsWritten`.
- GoBinaryManager.BinaryManager.GetPathToNativeBinary installs the release the intended selection of Findings row 3 picks. As written, it can install an older release than the highest one listed.
- Files, fsync, memory-map remapping and locks are left out. Each store is the state it would hold after the write returns.
- The FieldType tag numbering (UNKNOWN=0, INT32=1, INT64=2, FLOAT32=3, FLOAT64=4, BOOLEAN=5, STRING=6, BYTES=7) is assumed. The proto definition is not part of this model.
- The varint crate is not part of this model. Its reading is modelled as a u64 base-128 reading of at most ten bytes, narrowed with `as u32`.
- `fxhash` is a function parameter of each index.
- The `IndexedValue` conversion and serialization in ckv.rs, and the `FieldSchema` to `Field` conversion in ckvindex_schema.rs, are function parameters.
- `ikv/src/index/field.rs`, imported by primary_key_index.rs and api.rs, is not part of this model. The `Field` of `ikv/src/schema/field.rs`, carrying a name beside it, stands in.
- Signature mismatches between files are modelled as the callers intend. These are api.rs:160 (argument order) and `PrimaryKeyIndex::new`/`open` (arity).
- `load_yaml_schema` (YAML parsing) is left out. The loaded field list is a parameter of `ColumnarIndex.New`/`Open`.
- `copy_to_compact`, `compaction_stats`, `flush_writes`, `close` and the metadata file are left out. These are file I/O around the modelled state.
- CkvSegment.ReadEntry: a slice running past the region panics in the source; the model answers None. Such offsets are never stored (`OffsetsDecode`).
- CkvIndex.Index.BatchGetFieldValues and CkvIndex.Index.ResolveIds require every name to be known. The source panics through `expect` otherwise (`DeleteFieldValues` models that panic).
- CkvSegment.WriteToMmap requires a fixed-width value (INT32, INT64, FLOAT32, FLOAT64, BOOLEAN) to have exactly its type's width (`FitsFixedWidth`). On any other width the source panics in `copy_from_slice` (ckv_segment.rs:462-468); the model does not capture that panic.
- CkvSegment.WriteBatch requires every value to fit its fixed width (`AllFit`), as `WriteToMmap` does; the panic on a wrong width is not modelled.
- CkvSegment.Segment.UpsertDocument requires every value to fit its fixed width (`AllFit`); a wrong-width value, which panics in the source, is not modelled.
- CkvIndex.UpsertInto requires every value to fit its fixed width (`AllFit`); the panic on a wrong width is not modelled.
- CkvIndex.Index.UpsertFieldValues requires every document value to fit its fixed width; a producer that sends, say, a 3-byte INT32 makes the source panic, which the model does not capture.
- CkvIndex.Index.WriteDocument requires every document value to fit its fixed width; the panic on a wrong width is not modelled.
- The segment offset sentinel `usize::MAX` is a separate value that no offset can equal. The model does not bound offsets by the width of usize.
- CkvIndex.OpenOrCreate takes each existing segment's files already read: an unreadable or corrupt offset-table, region or metadata file, an error in the source, is not modelled, and the saved files must be ones a segment wrote (`CkvSegment.Restorable`).
- CompactionStatsModel.Aggregate: the u64 sums are unbounded naturals. Overflow (a panic in debug builds) is not modelled.
- SseKey.SseKeyFromConfig requires a present passkey to be non-empty. With an empty passkey the source's doubling loop never ends.
- SseKey.SseKeyFromConfig returns the 32-byte key itself. The MD5 digest and the base64 encoding (encryption.rs:17-21) are foreign library calls.
- Logging.Level lower-cases ASCII letters only. Rust's `to_lowercase` is Unicode-aware, and the filter names are ASCII.
- Logging.LogHandle.Configure: opening the log file and the facade's `set_logger` are boolean parameters. Their error messages are not the library's.
- KafkaOffsetCommitter.OffsetCommitter and KafkaCommit.OffsetCommitter leave out the `commit` call to Kafka (I/O). Only the counter is modelled.
- JniBatch.GetBatchBytesFieldValue: the JNI handle, the field name and the index read are one `fetch` parameter. A value longer than i32 gets the wrapped length, and `ResponseReadsBack` requires values that fit.
- Downloads from S3, listing the bucket and the local file system are parameters of the binary managers: a listing, a directory listing, and the outcome of each file operation. Their error texts are not the libraries'.
- Text.LowerChar and the `\d`/`\w` classes of the Python version pattern treat ASCII only. Java's `toLowerCase` and Python's `re` are Unicode-aware, and the platform names, log levels and release names are ASCII.
- PyUtils.PyInt and JavaBinaryManager.ParseInt accept ASCII digits only. Python's `int` and Java's `Integer.parseInt` (through `Character.digit`) also accept the other Unicode decimal digits, such as Arabic-Indic digits; release versions are ASCII.
- JavaBinaryManager.ParseInt: a version piece written with non-ASCII decimal digits is a NumberFormatException in the model, while Java parses it.
- GoBinaryManager.Atoi: Go's `int` is taken to be 64 bits wide, as on the platforms the client ships for.
- GoBinaryManager.BinaryManager.DownloadRemoteBinary: a failing `os.RemoveAll` is one fault that leaves the directory as it was. A partial removal is not modelled.
- PyBinaryManager.NativeBinaryManager.DeleteFilesInDirectory keeps directories in place. Python's `os.remove` raises IsADirectoryError on one, which the source does not catch; the model does not raise it.
- PyBinaryManager.LocalDetails reads a directory listing with a file flag per entry. Symbolic links are not told apart from files.
- `ikv-python-client/ikv_py/bin_manager.py` imports `compare_semver` from its own `utils.py`, which does not define it. The model uses `compare_semver` of `ikv-python-client/src/ikvpy/utils.py`.
- The legacy client options refer to configuration constants their source does not define. The model names the consumer partition key "kafka_partition", and numeric settings go to the int configuration.
- PyClientOptions: Python joins the set of accepted log levels in hash order. The model fixes one order for the error message.
- PyUtils.CompareSemver: comparing a pre-release with none is a TypeError with an empty message, not Python's text.
- Go `nil` configuration maps are treated as empty maps. Reading from a nil map in Go gives the same result.
- Float and double configuration values, their setters and the float map of `IKVStoreConfig` are left out (floating point).
- Errors of `proto.Marshal` and of protobuf serialization in general are left out. Serialization is total in the model.
- The native library calls (JNI, cgo, ctypes), the writers and the server calls are parameters of the readers and binary managers.
- GoClientOptions and GoDocument: a setter called on the nil a failed setter returned panics in Go. Chained calls are modelled only on the builder itself.
- PyDocument: `as_ikv_document_on_wire` (protobuf construction) is left out.
- PyReader: `multiget_bytes_values` and `multiget_string_values` are left out. They call the native reader directly.
- PyUtils.Unpacked rejects sizes -2 and -3 too. As written, these yield an empty value and move the cursor on by 2 or 1 bytes.
- PyReader.IKVReaderImpl.Startup: the writer that fetches the server configuration and the native `open` are parameters. A failed native open is not modelled.
- GoReader.DefaultIKVReader.CreateIKVConfig: the four ways the writer can fail to supply the server configuration are one error.
- JavaBinaryManager.NativeBinaryManager: `close` only closes the S3 client and is left out.
- ContextController.Controller.PutItem: the table refuses a record without both key attributes. This is modelled as an unchecked exception.
- The gateway refers to code its source does not contain: the `IKVConstants` package and `BASE_INDEX_S3_BUCKET_PREFIX`, `ExtractorUtils.extractPartitioningKeyValue`, and `UserStoreContext.accountPasskey()` and `fieldSchema(name)`. Each is modelled as its callers intend. The schemas known to a context are a map parameter.
- ContextFactory.Factory.constructor: the source calls a six-argument `UserStoreContext` constructor that does not exist. The testing store is given one Kafka partition. Its hard-wired schema (`userid`, a string, with id 0) is not kept, because the context record has no schema field.
- Java's UTF-8 decoding of field values is the lenient decoding of `Text`. The iteration order of a Java map's keys is a parameter, `keyOrder`, constrained only to list each key of the map exactly once (`KeyOrder`).
- The gateway's 2-second retry sleep and its InterruptedException, overflow of the schema version counter, protobuf default getters and log output are left out.
- WriteService: `helloWorld` only echoes its input and touches no store state. It is left out.

## Findings

| source | as written | input that shows it | evidently intended | confidence | as-written member | corrected member |
|---|---|---|---|---|---|---|
| ikv/src/index/primary_key_index.rs:140-146 | The write offset is the map's current length and the map is never grown, so the copy into `mmap[write_offset..]` runs past its end | Any valid upsert, e.g. key `[1]`, a 4-byte value into an empty index | Grow the map by the payload, then copy at the old end | not executed | PkIndex.PrimaryKeyIndex.Upsert | PkIndex.PrimaryKeyIndex.UpsertAppending |
| ikv/src/index/api.rs:80-83 | Lookup by id indexes the id-sorted field vector by position | Fields with ids 0 and 2: id 2 finds nothing, and id 1 returns the field with id 2 | Find the field whose id is the requested id | not executed | ColumnarIndex.FieldAtMissesSparseIds | ColumnarIndex.FieldWithId |
| ikv-go-client/bin_manager.go:140 | Each candidate version is compared with the whole S3 key of the highest so far, whose first dot-piece is `release/linux-x86_64/2` and reads as 0 | The listing `release/linux-x86_64/2.0.0-libikv.so`, then `release/linux-x86_64/1.0.0-libikv.so`: 1.0.0 is chosen | Compare with the highest version so far, `max_semver` | not executed | GoBinaryManager.OlderReleaseChosen | GoBinaryManager.HighestIsMax |
| ikv-java-client/src/main/java/io/inlined/clients/IKVDocument.java:69-98 | The integer is put into a `ByteBuffer` that is copied without `flip()`, so the copy starts at the end and is empty | `putIntField("x", 5)` stores an empty INT32 value | Flip the buffer and store the 4 or 8 little-endian bytes | not executed | JavaDocument.Builder.PutIntFieldAsWritten | JavaDocument.Builder.PutIntField |
| ikv-python-client/src/ikvpy/utils.py:88-114 | A size below -1 is added to the cursor after its four bytes, so size -4 leaves the cursor where it was and smaller sizes move it back | The buffer `FC FF FF FF` (size -4): the loop reads the same size forever | Reject sizes below -1 | not executed | PyUtils.AsWrittenLoopsForever | PyUtils.CorrectedRejectsNegativeSize |
