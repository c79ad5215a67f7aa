# ClickHouse Kafka sink: batch encoding and sink configuration

This project models two parts of the ClickHouse Kafka Connect sink in Dafny and proves properties about them.

**The writer (`ClickHouseWriter`).**
- `doInsert` routes a batch. The first record's schema mode and the destination table's `hasDefaults()` choose between RowBinary, JSON, nothing, and an exception.
- `validateDataSchema` checks one record against the destination table's column contract.
- The RowBinary encoder is `doWriteCol`, `doWritePrimitive` and `doWriteDates`. The model follows it byte by byte:
  - null and non-null markers;
  - little-endian fixed-width integers;
  - var-int (unsigned LEB128) length prefixes;
  - UUID halves;
  - Array and Map containers.
- The record/column write loop of `doInsertRawBinary` runs up to the last byte written into the piped stream.
- `doInsertSimple` builds the text of an `INSERT ... VALUES` statement with `extractFields`, `convertWithStream` and `convertHelper`.

**The sink configuration (`ClickHouseSinkConfig`).**
- The constructor's defaults for absent keys, and its precedence between endpoints, shards and hostname.
- The conversion of the timeout from seconds to milliseconds, with Java `int` wrap-around.
- `getEndpoints`: split on `,`, strip, sort.
- `getShards`: split on `;`, then on `,`.
- `updateHostNameAndPort`: split `host:port`.

**Modules**, one per file:
- `Wrappers` (`wrappers.dfy`): `Option`, `Result`, and the regrouping of concatenations the proofs share.
- `JavaStrings` (`java_strings.dfy`): the parts of `java.lang.String`, `Integer` and `Boolean` the code relies on:
  - `split`, including Java's removal of trailing empty strings;
  - `trim`, `strip` and `compareTo`;
  - `Integer.parseInt` and `String.valueOf`;
  - `Boolean.parseBoolean`;
  - `int` multiplication wrap-around.
- `BinaryStream` (`binary_stream.dfy`): the byte layouts of the client library's `BinaryStreamUtils` writers, the readers that undo them, and `PipedOutputStream`. That class stands for the piped output stream: it holds everything written so far.
- `Mapping` (`mapping.dfy`): the data model:
  - column types and Kafka field types;
  - the Java objects a field can hold;
  - columns, tables, records and errors.
- `SchemaCheck` (`schema_check.dfy`): what `validateDataSchema` decides, stated column by column.
- `RowBinary` (`row_binary.dfy`):
  - each writer as a function from inputs to an `Emit`, which holds the bytes appended and the exception that ended the write, if any;
  - a reference reader, and the round trips from writer to reader.
- `SimpleInsert` (`simple_insert.dfy`): the SQL text of `doInsertSimple` as functions, and the splitting round trips.
- `Writer` (`writer.dfy`): class `ClickHouseWriter`. Its methods append to a `PipedOutputStream` in loops, and each method is proved against the functions above.
- `SinkConfig` (`sink_config.dfy`):
  - the property map and its parse into `Settings`;
  - class `ClickHouseSinkConfig`, with the constructor as `Create` and the endpoint, shard and host:port methods;
  - their properties.

**Exceptions.** An exception is an `Error` value, in the `Emit` of a write or in the `Result` of the config parse.
- Bytes written before a Java exception stay appended.
- Nothing after the exception is written.

**Behaviour of the code worth knowing** (all in `ClickHouseWriter.java`):
- `validateDataSchema` only checks that each non-nullable column's name is a key of the record's map (lines 163-167). A present key whose object is null passes.
- With type checking on, a missing non-nullable field is dereferenced at line 170. That is a NullPointerException, not a `false` answer.
- Date, Date32, DateTime, DateTime64 and UUID columns pass the type check whatever the field's type tag is (lines 173-189). The comparisons in those branches compare a `String` with an enum constant and only decide whether something is logged.
- Unsigned columns (UINT8 to UINT64) can never pass the type check at lines 190-194: no upper-cased Kafka type name is `UINT…`. This is `SchemaCheck.UnsignedColumnRejected`.
- `doWriteDates` (lines 204-246) accepts one tag per type. Date and Date32 accept only INT32, and DateTime and DateTime64 accept only INT64. Any other tag is a DataException, STRING included, although the validator lets a STRING-tagged value through.
- A nullable Map or Array column whose value is null is cast and then asked for its `size()` (lines 334-335 and 348-349). It raises instead of writing a null marker.
- A null element of an Array, or a null key or value of a Map, becomes a lone null marker through `doWritePrimitive` (lines 248-250, 339-340 and 353), while a non-null element gets no marker. A reader cannot tell them apart, so the round-trip lemmas require containers without null elements.
- `doWritePrimitive` (lines 252-292) has no case for Date, Date32, DateTime, DateTime64, MAP or ARRAY, and writes nothing for them. An Array of such elements, or a Map with such key and value types, therefore gets its var-int count and no element bytes (lines 333-358). `validateDataSchema` never looks at the element types (line 171), so such a column passes validation. A RowBinary reader expecting 2 to 8 bytes per date would lose its place in the stream. This is `RowBinary.ArrayOfUnwrittenType` and `RowBinary.MapOfUnwrittenTypes`. The reference reader of the round-trip lemmas skips these types the same way, so for them the round trips say only that the writer and this reader agree: every element reads back as no value.

## Model

| member | source | states |
|---|---|---|
| Writer.CatalogLookup | src/main/java/com/clickhouse/kafka/connect/sink/db/ClickHouseWriter.java:85-87 | after the table loop, a name is in the mapping iff some fetched table has it, and it maps to the last table with that name |
| Writer.ClickHouseWriter.constructor | src/main/java/com/clickhouse/kafka/connect/sink/db/ClickHouseWriter.java:46-48 | a new writer has an empty table mapping and keeps the given topic-escaping, UUID-parsing and `toString` functions |
| Writer.ClickHouseWriter.Start | src/main/java/com/clickhouse/kafka/connect/sink/db/ClickHouseWriter.java:72-88 | start succeeds iff the ping succeeded and the table list is non-empty; only then are all tables added to the mapping by name |
| Writer.ClickHouseWriter.DoInsert | src/main/java/com/clickhouse/kafka/connect/sink/db/ClickHouseWriter.java:128-154 | an empty batch does nothing; SCHEMA_LESS goes to JSON; SCHEMA goes to JSON when the table has a default column and to RowBinary otherwise, with the outcome of `doInsertRawBinary`; SCHEMA with no table for the topic is a NullPointer error; each as an iff |
| Writer.ClickHouseWriter.ValidateDataSchema | src/main/java/com/clickhouse/kafka/connect/sink/db/ClickHouseWriter.java:156-202 | the column loop with its `validSchema` flag returns exactly `SchemaValid`: presence of every non-nullable column, plus the type check when asked, and a NullPointer error for a missing field when the type check is on |
| SchemaCheck.ValidStep | src/main/java/com/clickhouse/kafka/connect/sink/db/ClickHouseWriter.java:158-199 | one iteration of the column loop: a nullable column leaves the answer unchanged; a non-nullable one clears it when absent or, with type checking, when its type fails |
| SchemaCheck.MissingRequired | src/main/java/com/clickhouse/kafka/connect/sink/db/ClickHouseWriter.java:162-167 | a non-nullable column missing from the record makes the presence check false |
| SchemaCheck.NullableColumnIrrelevant | src/main/java/com/clickhouse/kafka/connect/sink/db/ClickHouseWriter.java:161-162 | inserting a nullable column anywhere in the table never changes the outcome of validation, in either mode |
| SchemaCheck.UpperFieldTypeNameCorrect | src/main/java/com/clickhouse/kafka/connect/sink/db/ClickHouseWriter.java:170 | upper-casing each Kafka type name (`int8`, …, `struct`) gives `INT8`, …, `STRUCT` |
| SchemaCheck.UpperNameMatch | src/main/java/com/clickhouse/kafka/connect/sink/db/ClickHouseWriter.java:190-194 | a column type's name equals an upper-cased Kafka type name exactly for the pairs INT8/int8 … STRING/string, MAP/map and ARRAY/array; BYTES and STRUCT match no column type |
| SchemaCheck.TypeAcceptedTable | src/main/java/com/clickhouse/kafka/connect/sink/db/ClickHouseWriter.java:169-196 | the type check passes iff the column is Date, Date32, DateTime, DateTime64 or UUID, or its type is the one named after the field's Kafka type |
| SchemaCheck.UnsignedColumnRejected | src/main/java/com/clickhouse/kafka/connect/sink/db/ClickHouseWriter.java:190-194 | a non-nullable UINT8/16/32/64 column makes validation with type checking never answer true, whatever the record holds |
| Writer.ClickHouseWriter.DoWritePrimitive | src/main/java/com/clickhouse/kafka/connect/sink/db/ClickHouseWriter.java:247-293 | the stream receives exactly the bytes `PrimitiveEmit` specifies and the method reports its exception |
| RowBinary.PrimitiveLayout | src/main/java/com/clickhouse/kafka/connect/sink/db/ClickHouseWriter.java:247-292 | a null value is exactly the null marker; a failed write appends nothing; a written value takes 1 byte (INT8, UINT8, BOOLEAN), 2 (INT16, UINT16), 4 (INT32, UINT32, FLOAT32), 8 (INT64, UINT64, FLOAT64) or 16 (UUID); a string is its UTF-8 byte count as a var-int followed by those bytes; which Java class each type accepts, and that the unsigned writers accept exactly the non-negative values |
| RowBinary.NumberRoundTrip | src/main/java/com/clickhouse/kafka/connect/sink/db/ClickHouseWriter.java:253-282 | reading back a written integer or float bit pattern with the reader of the same width gives the value, and the bytes after it |
| RowBinary.StringRoundTrip | src/main/java/com/clickhouse/kafka/connect/sink/db/ClickHouseWriter.java:286-288 | reading back a written string gives its UTF-8 bytes and the bytes after it |
| RowBinary.UuidRoundTrip | src/main/java/com/clickhouse/kafka/connect/sink/db/ClickHouseWriter.java:289-291 | reading back a written UUID gives both halves and the bytes after it |
| RowBinary.PrimitiveRoundTrip | src/main/java/com/clickhouse/kafka/connect/sink/db/ClickHouseWriter.java:252-292 | for the types `doWritePrimitive` writes, reading back a successfully written non-null value gives the value a column of that type holds; for Date, Date32, DateTime, DateTime64, MAP and ARRAY nothing is written and nothing is read, and the value reads back as empty |
| Writer.ClickHouseWriter.DoWriteDates | src/main/java/com/clickhouse/kafka/connect/sink/db/ClickHouseWriter.java:204-246 | the stream receives exactly the bytes `DatesEmit` specifies and the method reports its exception |
| RowBinary.DatesLayout | src/main/java/com/clickhouse/kafka/connect/sink/db/ClickHouseWriter.java:204-245 | a null object is exactly the null marker; Date and Date32 accept only the INT32 tag and DateTime and DateTime64 only INT64, any other tag raising UnsupportedConversion with no bytes; a written value takes 2, 4, 4 and 8 bytes |
| RowBinary.DatesRoundTrip | src/main/java/com/clickhouse/kafka/connect/sink/db/ClickHouseWriter.java:211-240 | reading back a written temporal value gives the day count, seconds or ticks, and the bytes after it |
| Writer.ClickHouseWriter.DoWriteCol | src/main/java/com/clickhouse/kafka/connect/sink/db/ClickHouseWriter.java:295-371 | the stream receives exactly the bytes `ColEmit` specifies and the method reports its exception |
| RowBinary.ColumnLayout | src/main/java/com/clickhouse/kafka/connect/sink/db/ClickHouseWriter.java:299-368 | an absent field is exactly the null marker when nullable and MissingField with no bytes otherwise; a null value of a non-nullable column raises before any byte; a null value of a nullable column is one null marker, except Map and Array, which raise NullPointer; a non-null value of a nullable column is the non-null marker followed by the value's bytes; a non-nullable column is the value's bytes |
| RowBinary.NullColumn | src/main/java/com/clickhouse/kafka/connect/sink/db/ClickHouseWriter.java:304-368 | an absent or null field that is written at all is exactly the null marker, its column is nullable, and it reads back as null |
| RowBinary.PresentColumn | src/main/java/com/clickhouse/kafka/connect/sink/db/ClickHouseWriter.java:300-326 | a present non-null field that is written is the marker (nullable columns only) followed by the value's bytes, and reads back as its value |
| RowBinary.ColumnRoundTrip | src/main/java/com/clickhouse/kafka/connect/sink/db/ClickHouseWriter.java:295-371 | reading back a successfully written column gives the record's value for it (null when absent), and the bytes after it |
| Writer.ClickHouseWriter.WriteValue | src/main/java/com/clickhouse/kafka/connect/sink/db/ClickHouseWriter.java:311-359 | the type switch of `doWriteCol` appends exactly the bytes `ValueEmit` specifies and reports its exception |
| Writer.ClickHouseWriter.WriteElements | src/main/java/com/clickhouse/kafka/connect/sink/db/ClickHouseWriter.java:351-357 | the element loop appends exactly `ElementsEmit`: each element by `doWritePrimitive` in list order, stopping at the first exception |
| Writer.ClickHouseWriter.WriteEntry | src/main/java/com/clickhouse/kafka/connect/sink/db/ClickHouseWriter.java:339-340 | one map entry appends its key and then its value |
| Writer.ClickHouseWriter.WriteEntries | src/main/java/com/clickhouse/kafka/connect/sink/db/ClickHouseWriter.java:337-345 | the entry loop appends exactly `EntriesEmit`: the entries in iteration order, stopping at the first exception |
| RowBinary.ElementsEmitCons | src/main/java/com/clickhouse/kafka/connect/sink/db/ClickHouseWriter.java:351-357 | the elements are the first element's bytes followed by the rest's, both as bytes and as values read back |
| RowBinary.EntriesEmitCons | src/main/java/com/clickhouse/kafka/connect/sink/db/ClickHouseWriter.java:337-345 | the entries are the first entry's bytes followed by the rest's |
| RowBinary.ElementsBytes | src/main/java/com/clickhouse/kafka/connect/sink/db/ClickHouseWriter.java:351-357 | when the whole list is written, the bytes split at any element boundary into the prefix's bytes followed by the suffix's |
| RowBinary.ElementsRoundTrip | src/main/java/com/clickhouse/kafka/connect/sink/db/ClickHouseWriter.java:351-357 | reading back exactly as many elements as were written gives them in list order, provided the element type is one `doWritePrimitive` writes; elements of the other types read back as empty cells |
| RowBinary.EntryRoundTrip | src/main/java/com/clickhouse/kafka/connect/sink/db/ClickHouseWriter.java:339-340 | reading back one written entry gives its key and then its value |
| RowBinary.EntriesRoundTrip | src/main/java/com/clickhouse/kafka/connect/sink/db/ClickHouseWriter.java:337-345 | reading back exactly as many entries as were written gives the key/value pairs in iteration order, provided the key and value types are ones `doWritePrimitive` writes; keys or values of the other types read back as empty cells |
| RowBinary.ArrayRoundTrip | src/main/java/com/clickhouse/kafka/connect/sink/db/ClickHouseWriter.java:347-358 | reading back a written Array column reads the count and then exactly that many elements; for an element type `doWritePrimitive` writes, these are the list's elements in order |
| RowBinary.MapRoundTrip | src/main/java/com/clickhouse/kafka/connect/sink/db/ClickHouseWriter.java:333-346 | reading back a written Map column reads the count and then exactly that many pairs; for key and value types `doWritePrimitive` writes, these are the map's entries in iteration order |
| RowBinary.UnwrittenPrimitive | src/main/java/com/clickhouse/kafka/connect/sink/db/ClickHouseWriter.java:252-292 | a non-null value of Date, Date32, DateTime, DateTime64, MAP or ARRAY passed to `doWritePrimitive` adds no bytes and raises nothing |
| RowBinary.UnwrittenElements | src/main/java/com/clickhouse/kafka/connect/sink/db/ClickHouseWriter.java:351-357 | a list of non-null elements of such a type adds no bytes at all, whatever its length |
| RowBinary.UnwrittenEntries | src/main/java/com/clickhouse/kafka/connect/sink/db/ClickHouseWriter.java:337-345 | entries whose key and value types are both such types add no bytes at all |
| RowBinary.ArrayOfUnwrittenType | src/main/java/com/clickhouse/kafka/connect/sink/db/ClickHouseWriter.java:347-358 | an Array column of such elements writes exactly its count and nothing else, and the reference reader reads back one empty cell per element |
| RowBinary.MapOfUnwrittenTypes | src/main/java/com/clickhouse/kafka/connect/sink/db/ClickHouseWriter.java:333-346 | a Map column with such key and value types writes exactly its count and nothing else, and the reference reader reads back one pair of empty cells per entry |
| RowBinary.ValueRoundTrip | src/main/java/com/clickhouse/kafka/connect/sink/db/ClickHouseWriter.java:311-359 | reading back a written non-null value of any column type gives the value the column holds |
| Writer.ClickHouseWriter.WriteRow | src/main/java/com/clickhouse/kafka/connect/sink/db/ClickHouseWriter.java:413-414 | the column loop appends exactly `RowEmit`: `doWriteCol` for each column in table order, stopping at the first exception |
| RowBinary.RowEmitCons | src/main/java/com/clickhouse/kafka/connect/sink/db/ClickHouseWriter.java:413-414 | a row is its first column's bytes followed by the rest's, both as bytes and as values read back |
| RowBinary.RowRoundTrip | src/main/java/com/clickhouse/kafka/connect/sink/db/ClickHouseWriter.java:413-414 | reading back a written row gives one value per column in table order |
| Writer.ClickHouseWriter.DoInsertRawBinary | src/main/java/com/clickhouse/kafka/connect/sink/db/ClickHouseWriter.java:372-416 | an empty batch is skipped; a topic without a table raises TableNotFound and a failed or erroring validation of the first record raises, both before any stream exists; otherwise the stream receives exactly `BatchEmit` and the loop's exception |
| RowBinary.WithValue | src/main/java/com/clickhouse/kafka/connect/sink/db/ClickHouseWriter.java:412 | keeping the records with a non-null value gives no more records than the batch, all with a value |
| RowBinary.WithValueMembers | src/main/java/com/clickhouse/kafka/connect/sink/db/ClickHouseWriter.java:412 | a record is kept iff it is in the batch and its value is non-null |
| RowBinary.BatchEmitCons | src/main/java/com/clickhouse/kafka/connect/sink/db/ClickHouseWriter.java:411-416 | the batch is the first record's bytes followed by the rest's, in batch order |
| RowBinary.BatchSkipsNullValues | src/main/java/com/clickhouse/kafka/connect/sink/db/ClickHouseWriter.java:411-416 | records whose value is null contribute nothing: the batch writes what the batch without them writes |
| RowBinary.RowsRoundTrip | src/main/java/com/clickhouse/kafka/connect/sink/db/ClickHouseWriter.java:411-416 | reading back as many rows as records were written gives each record's row in batch order |
| RowBinary.BatchRoundTrip | src/main/java/com/clickhouse/kafka/connect/sink/db/ClickHouseWriter.java:411-416 | reading the whole stream of a batch written without exception gives one row per record with a non-null value, in batch order, and nothing left over |
| BinaryStream.UnsignedBytes | src/main/java/com/clickhouse/kafka/connect/sink/db/ClickHouseWriter.java:265-273 | an unsigned writer accepts a value iff it lies in the width's unsigned range; it then writes that many bytes, which read back to the value |
| BinaryStream.ReadLEOfLE | src/main/java/com/clickhouse/kafka/connect/sink/db/ClickHouseWriter.java:253-282 | the little-endian bytes of a value that fits read back to the value |
| BinaryStream.SignedOfTwosComplement | src/main/java/com/clickhouse/kafka/connect/sink/db/ClickHouseWriter.java:253-263 | the two's-complement pattern of a signed value converts back to the value |
| BinaryStream.ReadVarIntOfVarInt | src/main/java/com/clickhouse/kafka/connect/sink/db/ClickHouseWriter.java:336 | a var-int count reads back to the count, and the bytes after it |
| BinaryStream.VarIntLength | src/main/java/com/clickhouse/kafka/connect/sink/db/ClickHouseWriter.java:350 | a count below 128 takes one byte and a Java `int` size at most five |
| BinaryStream.UuidBytes | src/main/java/com/clickhouse/kafka/connect/sink/db/ClickHouseWriter.java:289-291 | a UUID takes 16 bytes |
| BinaryStream.PipedOutputStream.WriteUnsigned | src/main/java/com/clickhouse/kafka/connect/sink/db/ClickHouseWriter.java:265-273 | the stream grows by the unsigned bytes when the value is accepted and is unchanged when it is rejected |
| BinaryStream.PipedOutputStream.constructor | src/main/java/com/clickhouse/kafka/connect/sink/db/ClickHouseWriter.java:406-407 | a new stream holds no bytes |
| BinaryStream.PipedOutputStream.WriteNull | src/main/java/com/clickhouse/kafka/connect/sink/db/ClickHouseWriter.java:248-250 | the stream grows by exactly the null marker 1 |
| BinaryStream.PipedOutputStream.WriteNonNull | src/main/java/com/clickhouse/kafka/connect/sink/db/ClickHouseWriter.java:304-306 | the stream grows by exactly the non-null marker 0 |
| BinaryStream.PipedOutputStream.WriteInt8 | src/main/java/com/clickhouse/kafka/connect/sink/db/ClickHouseWriter.java:253-255 | the stream grows by the one-byte two's-complement pattern of the value |
| BinaryStream.PipedOutputStream.WriteInt16 | src/main/java/com/clickhouse/kafka/connect/sink/db/ClickHouseWriter.java:256-258 | the stream grows by the two-byte little-endian two's-complement pattern of the value |
| BinaryStream.PipedOutputStream.WriteInt32 | src/main/java/com/clickhouse/kafka/connect/sink/db/ClickHouseWriter.java:259-261 | the stream grows by the four-byte little-endian two's-complement pattern of the value |
| BinaryStream.PipedOutputStream.WriteInt64 | src/main/java/com/clickhouse/kafka/connect/sink/db/ClickHouseWriter.java:262-264 | the stream grows by the eight-byte little-endian two's-complement pattern of the value |
| BinaryStream.PipedOutputStream.WriteUnsignedInt64 | src/main/java/com/clickhouse/kafka/connect/sink/db/ClickHouseWriter.java:274-276 | the stream grows by the eight-byte pattern of the `long`, unchanged |
| BinaryStream.PipedOutputStream.WriteFloatBits | src/main/java/com/clickhouse/kafka/connect/sink/db/ClickHouseWriter.java:277-282 | the stream grows by the float's 4- or 8-byte bit pattern, little-endian |
| BinaryStream.PipedOutputStream.WriteBoolean | src/main/java/com/clickhouse/kafka/connect/sink/db/ClickHouseWriter.java:283-285 | the stream grows by one byte, 1 for true and 0 for false |
| BinaryStream.PipedOutputStream.WriteVarInt | src/main/java/com/clickhouse/kafka/connect/sink/db/ClickHouseWriter.java:336 | the stream grows by the count as unsigned LEB128 |
| BinaryStream.PipedOutputStream.WriteString | src/main/java/com/clickhouse/kafka/connect/sink/db/ClickHouseWriter.java:286-288 | the stream grows by the byte count as a var-int followed by the bytes |
| BinaryStream.PipedOutputStream.WriteUuid | src/main/java/com/clickhouse/kafka/connect/sink/db/ClickHouseWriter.java:289-291 | the stream grows by the UUID's 16 bytes, most significant half first |
| SimpleInsert.ConvertAllSucceeds | src/main/java/com/clickhouse/kafka/connect/sink/db/ClickHouseWriter.java:110-117 | converting a list succeeds iff every value is present; it then gives each value's string in order, and otherwise a NullPointer error |
| SimpleInsert.RowTextSucceeds | src/main/java/com/clickhouse/kafka/connect/sink/db/ClickHouseWriter.java:558-562 | a record's tuple can be built iff every declared field is a key of its map; otherwise the error is NullPointer |
| SimpleInsert.RowsTextSucceeds | src/main/java/com/clickhouse/kafka/connect/sink/db/ClickHouseWriter.java:556-564 | the tuples of a batch can be built iff each record's can |
| SimpleInsert.RowsTextValues | src/main/java/com/clickhouse/kafka/connect/sink/db/ClickHouseWriter.java:556-564 | when they can, there is one tuple per record, in batch order, each that record's tuple |
| SimpleInsert.RowsTextPrefixFailure | src/main/java/com/clickhouse/kafka/connect/sink/db/ClickHouseWriter.java:556-564 | the first record whose tuple fails decides the error of the whole batch |
| SimpleInsert.ColumnListRoundTrip | src/main/java/com/clickhouse/kafka/connect/sink/db/ClickHouseWriter.java:553 | the column list is `(`, the field names joined by commas, and `)`; splitting its inside on commas gives back the names when no name holds a comma |
| SimpleInsert.RowTextRoundTrip | src/main/java/com/clickhouse/kafka/connect/sink/db/ClickHouseWriter.java:558-562 | a tuple is parenthesised, and splitting its inside on commas gives one piece per field, the field's string in single quotes |
| SimpleInsert.BuiltDone | src/main/java/com/clickhouse/kafka/connect/sink/db/ClickHouseWriter.java:556-565 | after the loop, deleting the last character of the buffer leaves the header followed by the tuples joined by commas |
| SimpleInsert.JoinSnoc | src/main/java/com/clickhouse/kafka/connect/sink/db/ClickHouseWriter.java:563 | joining one more piece appends the separator and the piece |
| SimpleInsert.TerminatedDropLast | src/main/java/com/clickhouse/kafka/connect/sink/db/ClickHouseWriter.java:563-565 | pieces each followed by a comma are the comma-joined pieces and one trailing comma |
| Writer.ClickHouseWriter.DoInsertSimple | src/main/java/com/clickhouse/kafka/connect/sink/db/ClickHouseWriter.java:539-565 | the `StringBuffer` loop produces exactly `InsertStatement`: nothing for an empty batch, the first failing record's error, or `INSERT INTO <escaped topic> (<fields>) VALUES ` followed by the tuples joined by commas |
| JavaStrings.Wrap32 | src/main/java/com/clickhouse/kafka/connect/sink/ClickHouseSinkConfig.java:115 | Java `int` arithmetic: a value in range is kept; any result is congruent to the exact value modulo 2^32 |
| JavaStrings.SplitAll | src/main/java/com/clickhouse/kafka/connect/sink/ClickHouseSinkConfig.java:259 | splitting on one character always gives at least one piece |
| JavaStrings.SplitAllPiecesFree | src/main/java/com/clickhouse/kafka/connect/sink/ClickHouseSinkConfig.java:259 | no piece of a split holds the separator |
| JavaStrings.JoinSplitAll | src/main/java/com/clickhouse/kafka/connect/sink/ClickHouseSinkConfig.java:259 | joining the pieces of a split with the separator gives back the string |
| JavaStrings.SplitAllJoin | src/main/java/com/clickhouse/kafka/connect/sink/ClickHouseSinkConfig.java:259 | splitting pieces joined by a separator none of them holds gives back the pieces |
| JavaStrings.DropTrailingEmpty | src/main/java/com/clickhouse/kafka/connect/sink/ClickHouseSinkConfig.java:259 | Java `split` drops exactly the trailing empty pieces: a prefix of the pieces, everything dropped empty, the last kept piece non-empty |
| JavaStrings.SplitPair | src/main/java/com/clickhouse/kafka/connect/sink/ClickHouseSinkConfig.java:311 | `a:b` with no colon in `a` or `b` and `b` non-empty splits into exactly `[a, b]` |
| JavaStrings.TrimStartShape | src/main/java/com/clickhouse/kafka/connect/sink/ClickHouseSinkConfig.java:113 | trimming the front removes exactly the leading blank characters |
| JavaStrings.TrimEndShape | src/main/java/com/clickhouse/kafka/connect/sink/ClickHouseSinkConfig.java:261 | trimming the back removes exactly the trailing blank characters |
| JavaStrings.NatDigitsValue | src/main/java/com/clickhouse/kafka/connect/sink/ClickHouseSinkConfig.java:110 | the decimal digits of a number read back to the number |
| JavaStrings.ParseDecimalString | src/main/java/com/clickhouse/kafka/connect/sink/ClickHouseSinkConfig.java:110 | `Integer.parseInt(String.valueOf(n))` is `n` for every Java `int` |
| JavaStrings.AtMostTotal | src/main/java/com/clickhouse/kafka/connect/sink/ClickHouseSinkConfig.java:266 | the string order is total |
| JavaStrings.AtMostTransitive | src/main/java/com/clickhouse/kafka/connect/sink/ClickHouseSinkConfig.java:266 | the string order is transitive |
| JavaStrings.AtMostAntisymmetric | src/main/java/com/clickhouse/kafka/connect/sink/ClickHouseSinkConfig.java:266 | the string order is antisymmetric |
| SinkConfig.IntSettingParsesDefault | src/main/java/com/clickhouse/kafka/connect/sink/ClickHouseSinkConfig.java:110-116 | an integer setting is `Integer.parseInt` of the value or of the default's decimal text, with a NumberFormat error naming the key and text when that fails |
| SinkConfig.ClickHouseSinkConfig.Create | src/main/java/com/clickhouse/kafka/connect/sink/ClickHouseSinkConfig.java:90-122 | construction succeeds iff `Parse` does, failing with `Parse`'s error; the new object holds exactly the parsed settings |
| SinkConfig.ClickHouseSinkConfig.constructor | src/main/java/com/clickhouse/kafka/connect/sink/ClickHouseSinkConfig.java:53-68 | the fields hold exactly the given settings |
| SinkConfig.ParseFails | src/main/java/com/clickhouse/kafka/connect/sink/ClickHouseSinkConfig.java:110-116 | parsing fails iff port, timeoutSeconds or retryCount is present with text `Integer.parseInt` rejects |
| SinkConfig.DefaultConnection | src/main/java/com/clickhouse/kafka/connect/sink/ClickHouseSinkConfig.java:92-119 | absent keys give endpoints "endpoints", shards "shards", shardReplicaWriteSelection "Sequential", port 8443 and ssl false |
| SinkConfig.DefaultCredentials | src/main/java/com/clickhouse/kafka/connect/sink/ClickHouseSinkConfig.java:111-113 | absent keys give database "default", username "default" and password "" |
| SinkConfig.DefaultBehaviour | src/main/java/com/clickhouse/kafka/connect/sink/ClickHouseSinkConfig.java:115-118 | absent keys give a timeout of 30000 ms, retry 3, exactlyOnce false and hashFunctionName "default" |
| SinkConfig.EmptyProps | src/main/java/com/clickhouse/kafka/connect/sink/ClickHouseSinkConfig.java:90-122 | an empty property map gives exactly the default settings, with no hostname |
| SinkConfig.HostnamePrecedence | src/main/java/com/clickhouse/kafka/connect/sink/ClickHouseSinkConfig.java:94-109 | both endpoints and shards set: no hostname; exactly one set: the hostname property or "hostname"; neither set: the raw hostname property, possibly absent |
| SinkConfig.TrimShape | src/main/java/com/clickhouse/kafka/connect/sink/ClickHouseSinkConfig.java:113 | `trim` gives a slice of the input whose ends are not blank (code ≤ U+0020) and outside which every character is blank |
| SinkConfig.PasswordTrimmed | src/main/java/com/clickhouse/kafka/connect/sink/ClickHouseSinkConfig.java:113 | the stored password is the given (or default) password trimmed in that sense |
| SinkConfig.MillisecondsValue | src/main/java/com/clickhouse/kafka/connect/sink/ClickHouseSinkConfig.java:115 | seconds × 1000 in Java `int` arithmetic: congruent to the exact product modulo 2^32, and equal to it when no overflow happens |
| SinkConfig.TimeoutMilliseconds | src/main/java/com/clickhouse/kafka/connect/sink/ClickHouseSinkConfig.java:115 | the stored timeout is the parsed seconds × 1000 as a Java `int`, equal to the exact product for at most 2147483 seconds in magnitude |
| SinkConfig.EndpointPiecesShape | src/main/java/com/clickhouse/kafka/connect/sink/ClickHouseSinkConfig.java:259-265 | one endpoint per comma piece: stripped when its stripped form is non-empty, unchanged otherwise, and none holds a comma |
| SinkConfig.StripPieces | src/main/java/com/clickhouse/kafka/connect/sink/ClickHouseSinkConfig.java:260-265 | the loop overwrites every cell with its stripped form when that is non-empty and leaves it otherwise |
| SinkConfig.SortStrings | src/main/java/com/clickhouse/kafka/connect/sink/ClickHouseSinkConfig.java:266 | the array ends sorted by `compareTo` and is a permutation of what it held |
| SinkConfig.SortedUnique | src/main/java/com/clickhouse/kafka/connect/sink/ClickHouseSinkConfig.java:266 | two sorted permutations of the same strings are equal, so the sorted result does not depend on the sorting algorithm |
| SinkConfig.ClickHouseSinkConfig.GetEndpoints | src/main/java/com/clickhouse/kafka/connect/sink/ClickHouseSinkConfig.java:258-268 | the result is sorted and is a permutation of the stripped pieces |
| SinkConfig.ShardGroupsShape | src/main/java/com/clickhouse/kafka/connect/sink/ClickHouseSinkConfig.java:270-275 | one group per `;` piece, and a group is in the result iff it is some piece split on `,` |
| SinkConfig.ClickHouseSinkConfig.GetShards | src/main/java/com/clickhouse/kafka/connect/sink/ClickHouseSinkConfig.java:269-276 | the set-building loop yields exactly the groups of the split shards string |
| SinkConfig.ClickHouseSinkConfig.UpdateHostNameAndPort | src/main/java/com/clickhouse/kafka/connect/sink/ClickHouseSinkConfig.java:309-319 | hostname, port and the reported error are as `UpdateSpec` says, and every other field is unchanged |
| SinkConfig.UpdateRoundTrip | src/main/java/com/clickhouse/kafka/connect/sink/ClickHouseSinkConfig.java:310-316 | writing a colon-free host, `:` and a port's decimal text, then updating, sets exactly that host and port without error |
| SinkConfig.UpdateIgnored | src/main/java/com/clickhouse/kafka/connect/sink/ClickHouseSinkConfig.java:310-318 | input without `:`, or that does not split into exactly two parts, leaves hostname and port unchanged |
| SinkConfig.DecimalStringNoColon | src/main/java/com/clickhouse/kafka/connect/sink/ClickHouseSinkConfig.java:310-311 | a port's decimal text is non-empty and has no colon |

## Left out

- `doInsertJson` (Gson serialisation, struct flattening), the HTTP client, the request, the piped stream's consumer thread, `stream.close()` and `future.get()`. The RowBinary path is modelled up to the last byte written in the record loop.
- `start`'s client build and the query behind its table fetch. The ping result and the fetched table list are parameters of `Start`. `stop` and `getServer` are left out.
- `chc.query` of `doInsertSimple` and the time measurements. The model ends with the statement text.
- `Utils.escapeTopicName`, `UUID.fromString` and `Data.toString` are not part of this model. They are function parameters of the writer. `UUID.fromString` may fail (IllegalArgument).
- `Utils.handleException` and all logging. An exception is returned as an `Error` value.
- FLOAT32 and FLOAT64 values are written as the IEEE-754 bit patterns they are given. Floating-point arithmetic is not modelled.
- `BinaryStreamUtils` is not part of this model. The unsigned writers are assumed to reject values outside their unsigned range with IllegalArgument. `writeUnsignedInt64` is assumed to write a `long`'s bits unchanged.
- JavaStrings.ParseInt accepts an optional sign and ASCII digits within the `int` range. Unicode digits are not accepted.
- JavaStrings.ToUpperAscii and JavaStrings.ToLowerAscii change ASCII letters only. Locale rules are not modelled; the type names and "false"/"true" involved are ASCII.
- JavaStrings.AtMost compares strings by code point. Java's `compareTo` compares UTF-16 units, so the two orders differ only for characters outside the Basic Multilingual Plane.
- `String.getBytes()` is modelled as UTF-8. The platform charset is assumed to be UTF-8. A Dafny `string` cannot hold a lone UTF-16 surrogate, which `getBytes()` would replace with `?`; that case is not modelled.
- SinkConfig.ClickHouseSinkConfig.Create stands for the constructor. A `NumberFormatException` of `Integer.parseInt` is a `Failure`, not a half-built object.
- Property maps hold only the keys the constructor reads, and their values are never null.
- Mapping.ColumnType lists only the ClickHouse `Type` constants that the writer's switches name. `Type.java` is not part of this model, and any other constant it declares is not modelled. For such a column, `doWriteCol` would write at most one null or non-null marker, because its switch has no case and no default for it (ClickHouseWriter.java:311-358).
- Records: `Mapping.Record`'s field map cannot hold a key whose `Data` is null, and its field list is never null. In the source, `doWriteCol` would then throw a NullPointerException at `value.getObject()` (ClickHouseWriter.java:299-304), `validateDataSchema` would treat the entry as absent (:163-164), and `doInsertSimple` would throw on a null field list (:553, 558). None of these is modelled.
- JavaStrings.ToUpperAscii and JavaStrings.ToLowerAscii are helpers with no row of their own. What the upper-casing at ClickHouseWriter.java:170 yields for every Kafka type name is stated by `SchemaCheck.UpperFieldTypeNameCorrect`.
- The `ConfigDef` definitions (`createConfigDef`), the `UTF8String` validator and the `StateStores` enum are left out.
- The getters (ClickHouseSinkConfig.java:256-307) return fields unchanged. The class's fields, and `Snapshot()`, are read directly instead.
- SinkConfig.SortStrings is an insertion sort standing for `Arrays.sort`. `SinkConfig.SortedUnique` shows that any sort yields the same sorted array.
- SinkConfig.ClickHouseSinkConfig.GetShards returns a multiset of groups. The source's `HashSet<String[]>` hashes arrays by identity, so equal groups are all kept.
- SinkConfig.ClickHouseSinkConfig.UpdateHostNameAndPort reports the `NumberFormatException` of a bad port as an error value. The new hostname is still stored, as in the source, where the assignment precedes the parse.
- The `List` branch of `convertHelper` is dead: the values always come from the record's map of `Data`. Only the `toString` branch is modelled.
- Round trips: the RowBinary round-trip lemmas require no null elements, keys or values inside Arrays and Maps, because such a null is written as a marker that a reader cannot tell from an element.
