/**
 * `ClickHouseWriter`: the table mapping it fills at start-up, the routing
 * of a batch to an insert path, the schema check, and the loops that
 * write a batch into the piped stream in RowBinary, each proved against
 * the encodings of the `RowBinary`, `SchemaCheck` and `SimpleInsert`
 * modules.
 */
module Writer {
  import opened Wrappers
  import opened BinaryStream
  import opened Mapping
  import opened RowBinary
  import SchemaCheck
  import JavaStrings
  import SimpleInsert

  /** What `doInsertRawBinary` does with a batch, up to the end of its write loop. */
  datatype Insert =
    | Skipped                                         // an empty batch: nothing happens
    | Rejected(error: Error)                          // thrown before the stream is opened
    | Streamed(bytes: seq<byte>, fault: Option<Error>) // what the stream received, and the exception that ended the loop

  /** Where `doInsert` sends a batch. */
  datatype Dispatch =
    | Nothing                     // an empty batch
    | ViaRowBinary(outcome: Insert)
    | ViaJson                     // handed to `doInsertJson`
    | Aborted(error: Error)       // thrown while routing, passed to the exception handler

  /** The topics' tables by name; when two share a name the later one is kept. */
  function Catalog(tables: seq<Table>): map<string, Table>
    decreases |tables|
  {
    if |tables| == 0 then map[]
    else Catalog(tables[..|tables| - 1])[tables[|tables| - 1].name := tables[|tables| - 1]]
  }

  /**
   * The catalog holds a table under its own name, for every table and no
   * other name, and it is the last table of the list with that name.
   */
  lemma {:induction false} CatalogLookup(tables: seq<Table>, name: string)
    ensures name in Catalog(tables) <==> exists i :: 0 <= i < |tables| && tables[i].name == name
    ensures name in Catalog(tables) ==>
      exists i :: 0 <= i < |tables| && tables[i].name == name && Catalog(tables)[name] == tables[i]
                  && forall j :: i < j < |tables| ==> tables[j].name != name
    decreases |tables|
  {
    if |tables| > 0 {
      var init := tables[..|tables| - 1];
      var n := |tables| - 1;
      CatalogLookup(init, name);
      assert forall i :: 0 <= i < |init| ==> init[i] == tables[i];
      if tables[n].name != name && name in Catalog(tables) {
        var i :| 0 <= i < |init| && init[i].name == name && Catalog(init)[name] == init[i]
                 && forall j :: i < j < |init| ==> init[j].name != name;
        assert tables[i].name == name && Catalog(tables)[name] == tables[i];
      }
    }
  }

  class ClickHouseWriter {
    /** `mapping`: destination tables by name. */
    var mapping: map<string, Table>
    /** `Utils.escapeTopicName`, which is not part of this model. */
    const escapeTopicName: string -> string
    /** `UUID.fromString`. */
    const parseUuid: UuidParser
    /** `Data.toString()`, which is not part of this model. */
    const dataToString: Data -> string

    constructor (escapeTopicName: string -> string, parseUuid: UuidParser, dataToString: Data -> string)
      ensures mapping == map[]
      ensures this.escapeTopicName == escapeTopicName && this.parseUuid == parseUuid
      ensures this.dataToString == dataToString
    {
      mapping := map[];
      this.escapeTopicName := escapeTopicName;
      this.parseUuid := parseUuid;
      this.dataToString := dataToString;
    }

    /**
     * The part of `start` after the client is built: given whether the
     * server answered the ping and the tables it lists, refuse to start
     * when either fails, and otherwise register every table under its name.
     */
    method Start(pingOk: bool, tables: seq<Table>) returns (started: bool)
      modifies this
      ensures started <==> pingOk && |tables| > 0
      ensures mapping == if started then old(mapping) + Catalog(tables) else old(mapping)
    {
      if !pingOk {
        return false;
      }
      if |tables| == 0 {
        return false;
      }
      var i := 0;
      while i < |tables|
        invariant 0 <= i <= |tables|
        invariant mapping == old(mapping) + Catalog(tables[..i])
      {
        assert tables[..i + 1][..i] == tables[..i];
        mapping := mapping[tables[i].name := tables[i]];
        i := i + 1;
      }
      assert tables[..|tables|] == tables;
      return true;
    }

    // -------------------------------------------------------------------
    // Routing
    // -------------------------------------------------------------------

    /** `doInsertRawBinary(records)` as a function of the mapping and the batch. */
    function RawBinaryOutcome(records: seq<Record>): Insert
      reads this
    {
      if |records| == 0 then Skipped
      else
        var key := escapeTopicName(records[0].topic);
        if key !in mapping then Rejected(TableNotFound(records[0].topic))
        else match SchemaCheck.SchemaValid(mapping[key], records[0], false)
          case Failure(e) => Rejected(e)
          case Success(ok) =>
            if !ok then Rejected(InvalidSchema)
            else
              var e := BatchEmit(mapping[key].columns, records, parseUuid);
              Streamed(e.bytes, e.fault)
    }

    /**
     * `doInsert(records)`: an empty batch does nothing; otherwise the first
     * record's schema mode picks the path.  Schema-less batches always go
     * through JSON.  Batches with a schema go through JSON when the
     * destination table has a default column and through RowBinary
     * otherwise; a topic without a table is dereferenced as null while
     * routing.
     */
    method DoInsert(records: seq<Record>) returns (d: Dispatch)
      ensures d == Nothing <==> |records| == 0
      ensures d == ViaJson <==>
        |records| > 0 &&
        (records[0].mode == SCHEMA_LESS ||
         (escapeTopicName(records[0].topic) in mapping && mapping[escapeTopicName(records[0].topic)].HasDefaults()))
      ensures d.ViaRowBinary? <==>
        |records| > 0 && records[0].mode == SCHEMA &&
        escapeTopicName(records[0].topic) in mapping && !mapping[escapeTopicName(records[0].topic)].HasDefaults()
      ensures d.Aborted? <==>
        |records| > 0 && records[0].mode == SCHEMA && escapeTopicName(records[0].topic) !in mapping
      ensures d.Aborted? ==> d.error == NullPointer
      ensures d.ViaRowBinary? ==> d.outcome == RawBinaryOutcome(records)
    {
      if |records| == 0 {
        return Nothing;
      }
      var first := records[0];
      var key := escapeTopicName(first.topic);
      match first.mode {
        case SCHEMA =>
          if key !in mapping {
            return Aborted(NullPointer);
          }
          var table := mapping[key];
          if table.HasDefaults() {
            d := ViaJson;
          } else {
            var outcome := DoInsertRawBinary(records);
            d := ViaRowBinary(outcome);
          }
        case SCHEMA_LESS =>
          d := ViaJson;
      }
    }

    // -------------------------------------------------------------------
    // The schema check
    // -------------------------------------------------------------------

    /**
     * `validateDataSchema(table, record, onlyFieldsName)`: column by
     * column, a non-nullable column missing from the record makes the
     * answer false, and with the type check on it is dereferenced; a
     * present one must pass the type check.
     */
    method ValidateDataSchema(table: Table, record: Record, onlyFieldsName: bool) returns (r: Result<bool, Error>)
      ensures r == SchemaCheck.SchemaValid(table, record, onlyFieldsName)
    {
      var columns := table.columns;
      var validSchema := true;
      var i := 0;
      while i < |columns|
        invariant 0 <= i <= |columns|
        invariant SchemaCheck.ValidSoFar(columns, record, onlyFieldsName, i, validSchema)
      {
        var col := columns[i];
        ghost var before := validSchema;
        if !col.nullable {
          var present := col.name in record.jsonMap;
          if !present {
            validSchema := false;
          }
          if !onlyFieldsName {
            if !present {
              SchemaCheck.MissingRequired(columns, record, i);
              return Failure(NullPointer);
            }
            var obj := record.jsonMap[col.name];
            var colTypeName := TypeName(col.colType);
            var dataTypeName := JavaStrings.ToUpperAscii(FieldTypeName(obj.fieldType));
            if colTypeName !in {"Date", "Date32", "DateTime", "DateTime64", "UUID"} && colTypeName != dataTypeName {
              validSchema := false;
            }
          }
        }
        SchemaCheck.ValidStep(columns, record, onlyFieldsName, i, before);
        i := i + 1;
      }
      SchemaCheck.ValidDone(table, record, onlyFieldsName, validSchema);
      return Success(validSchema);
    }

    // -------------------------------------------------------------------
    // Writing values
    // -------------------------------------------------------------------

    /** `doWritePrimitive(type, stream, value)`. */
    method DoWritePrimitive(t: ColumnType, stream: PipedOutputStream, v: JValue) returns (fault: Option<Error>)
      modifies stream
      ensures stream.data == old(stream.data) + PrimitiveEmit(t, v, parseUuid).bytes
      ensures fault == PrimitiveEmit(t, v, parseUuid).fault
    {
      if v.JNull? {
        stream.WriteNull();
        return None;
      }
      fault := None;
      match t {
        case INT8 =>
          if !v.JByte? { return Some(ClassCast); }
          stream.WriteInt8(v.b);
        case INT16 =>
          if !v.JShort? { return Some(ClassCast); }
          stream.WriteInt16(v.sh);
        case INT32 =>
          if !v.JInteger? { return Some(ClassCast); }
          stream.WriteInt32(v.i);
        case INT64 =>
          if !v.JLong? { return Some(ClassCast); }
          stream.WriteInt64(v.l);
        case UINT8 =>
          if !v.JByte? { return Some(ClassCast); }
          var accepted := stream.WriteUnsigned(v.b, 1);
          if !accepted { fault := Some(IllegalArgument); }
        case UINT16 =>
          if !v.JShort? { return Some(ClassCast); }
          var accepted := stream.WriteUnsigned(v.sh, 2);
          if !accepted { fault := Some(IllegalArgument); }
        case UINT32 =>
          if !v.JInteger? { return Some(ClassCast); }
          var accepted := stream.WriteUnsigned(v.i, 4);
          if !accepted { fault := Some(IllegalArgument); }
        case UINT64 =>
          if !v.JLong? { return Some(ClassCast); }
          stream.WriteUnsignedInt64(v.l);
        case FLOAT32 =>
          if !v.JFloat? { return Some(ClassCast); }
          stream.WriteFloatBits(v.floatBits, 4);
        case FLOAT64 =>
          if !v.JDouble? { return Some(ClassCast); }
          stream.WriteFloatBits(v.doubleBits, 8);
        case BOOLEAN =>
          if !v.JBoolean? { return Some(ClassCast); }
          stream.WriteBoolean(v.z);
        case STRING =>
          if !v.JString? { return Some(ClassCast); }
          stream.WriteString(Utf8(v.str));
        case UUID =>
          if !v.JString? { return Some(ClassCast); }
          var u := parseUuid(v.str);
          if u.None? { return Some(IllegalArgument); }
          stream.WriteUuid(u.value);
        case _ =>
      }
    }

    /** `doWriteDates(type, stream, value)`. */
    method DoWriteDates(t: ColumnType, stream: PipedOutputStream, d: Data) returns (fault: Option<Error>)
      modifies stream
      ensures stream.data == old(stream.data) + DatesEmit(t, d).bytes
      ensures fault == DatesEmit(t, d).fault
    {
      if d.obj.JNull? {
        stream.WriteNull();
        return None;
      }
      var unsupported := false;
      fault := None;
      match t {
        case Date =>
          if d.fieldType == KInt32 {
            if !d.obj.JInteger? { return Some(ClassCast); }
            var accepted := stream.WriteUnsigned(d.obj.i, 2);
            if !accepted { return Some(IllegalArgument); }
          } else {
            unsupported := true;
          }
        case Date32 =>
          if d.fieldType == KInt32 {
            if !d.obj.JInteger? { return Some(ClassCast); }
            stream.WriteInt32(d.obj.i);
          } else {
            unsupported := true;
          }
        case DateTime =>
          if d.fieldType == KInt64 {
            if !d.obj.JLong? { return Some(ClassCast); }
            var accepted := stream.WriteUnsigned(d.obj.l, 4);
            if !accepted { return Some(IllegalArgument); }
          } else {
            unsupported := true;
          }
        case DateTime64 =>
          if d.fieldType == KInt64 {
            if !d.obj.JLong? { return Some(ClassCast); }
            stream.WriteInt64(d.obj.l);
          } else {
            unsupported := true;
          }
        case _ =>
      }
      if unsupported {
        fault := Some(UnsupportedConversion(t, d.fieldType));
      }
    }

    /** The `forEach` over an Array column's list: each element by `doWritePrimitive`. */
    method WriteElements(t: ColumnType, xs: seq<JValue>, stream: PipedOutputStream) returns (fault: Option<Error>)
      modifies stream
      ensures stream.data == old(stream.data) + ElementsEmit(t, xs, parseUuid).bytes
      ensures fault == ElementsEmit(t, xs, parseUuid).fault
    {
      ghost var es := seq(|xs|, i requires 0 <= i < |xs| => PrimitiveEmit(t, xs[i], parseUuid));
      ChainWrittenNil(es, stream.data);
      var k := 0;
      while k < |xs|
        invariant 0 <= k <= |xs|
        invariant ChainWritten(es, k, old(stream.data), stream.data)
      {
        ghost var mid := stream.data;
        fault := DoWritePrimitive(t, stream, xs[k]);
        ChainStep(es, k, old(stream.data), mid, stream.data);
        if fault.Some? {
          return;
        }
        k := k + 1;
      }
      ChainWrittenAll(es, old(stream.data), stream.data);
      return None;
    }

    /** The action the Map column's `forEach` runs on one entry: its key, then its value. */
    method WriteEntry(kt: ColumnType, vt: ColumnType, e: (JValue, JValue), stream: PipedOutputStream) returns (fault: Option<Error>)
      modifies stream
      ensures stream.data == old(stream.data) + EntryEmit(kt, vt, e, parseUuid).bytes
      ensures fault == EntryEmit(kt, vt, e, parseUuid).fault
    {
      fault := DoWritePrimitive(kt, stream, e.0);
      if fault.Some? {
        return;
      }
      fault := DoWritePrimitive(vt, stream, e.1);
    }

    /** The `forEach` over a Map column's entries, in iteration order. */
    method WriteEntries(kt: ColumnType, vt: ColumnType, es: seq<(JValue, JValue)>, stream: PipedOutputStream)
      returns (fault: Option<Error>)
      modifies stream
      ensures stream.data == old(stream.data) + EntriesEmit(kt, vt, es, parseUuid).bytes
      ensures fault == EntriesEmit(kt, vt, es, parseUuid).fault
    {
      ghost var ws := seq(|es|, i requires 0 <= i < |es| => EntryEmit(kt, vt, es[i], parseUuid));
      ChainWrittenNil(ws, stream.data);
      var k := 0;
      while k < |es|
        invariant 0 <= k <= |es|
        invariant ChainWritten(ws, k, old(stream.data), stream.data)
      {
        ghost var mid := stream.data;
        fault := WriteEntry(kt, vt, es[k], stream);
        ChainStep(ws, k, old(stream.data), mid, stream.data);
        if fault.Some? {
          return;
        }
        k := k + 1;
      }
      ChainWrittenAll(ws, old(stream.data), stream.data);
      return None;
    }

    /** The switch of `doWriteCol` on the column type, for a value in the record. */
    method WriteValue(col: Column, value: Data, stream: PipedOutputStream) returns (fault: Option<Error>)
      modifies stream
      ensures stream.data == old(stream.data) + ValueEmit(col, value, parseUuid).bytes
      ensures fault == ValueEmit(col, value, parseUuid).fault
    {
      match col.colType {
        case MAP =>
          if value.obj.JNull? { return Some(NullPointer); }
          if !value.obj.JMap? { return Some(ClassCast); }
          stream.WriteVarInt(|value.obj.entries|);
          fault := WriteEntries(col.mapKeyType, col.mapValueType, value.obj.entries, stream);
          AppendAssoc(old(stream.data), VarInt(|value.obj.entries|),
                      EntriesEmit(col.mapKeyType, col.mapValueType, value.obj.entries, parseUuid).bytes);
        case ARRAY =>
          if value.obj.JNull? { return Some(NullPointer); }
          if !value.obj.JList? { return Some(ClassCast); }
          stream.WriteVarInt(|value.obj.elems|);
          fault := WriteElements(col.subType, value.obj.elems, stream);
          AppendAssoc(old(stream.data), VarInt(|value.obj.elems|), ElementsEmit(col.subType, value.obj.elems, parseUuid).bytes);
        case Date =>
          fault := DoWriteDates(col.colType, stream, value);
        case Date32 =>
          fault := DoWriteDates(col.colType, stream, value);
        case DateTime =>
          fault := DoWriteDates(col.colType, stream, value);
        case DateTime64 =>
          fault := DoWriteDates(col.colType, stream, value);
        case _ =>
          fault := DoWritePrimitive(col.colType, stream, value.obj);
      }
    }

    /**
     * `doWriteCol(record, col, stream)`: a present value gets the non-null
     * marker first when the column is nullable; a null value in a
     * non-nullable column and a missing non-nullable column both throw;
     * a missing nullable column is written as null.
     */
    method DoWriteCol(record: Record, col: Column, stream: PipedOutputStream) returns (fault: Option<Error>)
      modifies stream
      ensures stream.data == old(stream.data) + ColEmit(col, record, parseUuid).bytes
      ensures fault == ColEmit(col, record, parseUuid).fault
    {
      if col.name in record.jsonMap {
        var value := record.jsonMap[col.name];
        if col.nullable && !value.obj.JNull? {
          stream.WriteNonNull();
        }
        if !col.nullable && value.obj.JNull? {
          return Some(NullValue(col.name));
        }
        fault := WriteValue(col, value, stream);
        if col.nullable && !value.obj.JNull? {
          AppendAssoc(old(stream.data), [NON_NULL_MARKER], ValueEmit(col, value, parseUuid).bytes);
        }
      } else {
        if col.nullable {
          stream.WriteNull();
          fault := None;
        } else {
          fault := Some(MissingField(col.name));
        }
      }
    }

    // -------------------------------------------------------------------
    // The RowBinary insert
    // -------------------------------------------------------------------

    /** The inner loop of `doInsertRawBinary`: `doWriteCol` for each column of the table, in order. */
    method WriteRow(columns: seq<Column>, record: Record, stream: PipedOutputStream) returns (fault: Option<Error>)
      modifies stream
      ensures stream.data == old(stream.data) + RowEmit(columns, record, parseUuid).bytes
      ensures fault == RowEmit(columns, record, parseUuid).fault
    {
      ghost var row := seq(|columns|, j requires 0 <= j < |columns| => ColEmit(columns[j], record, parseUuid));
      ChainWrittenNil(row, stream.data);
      var j := 0;
      while j < |columns|
        invariant 0 <= j <= |columns|
        invariant ChainWritten(row, j, old(stream.data), stream.data)
      {
        ghost var mid := stream.data;
        fault := DoWriteCol(record, columns[j], stream);
        ChainStep(row, j, old(stream.data), mid, stream.data);
        if fault.Some? {
          return;
        }
        j := j + 1;
      }
      ChainWrittenAll(row, old(stream.data), stream.data);
      return None;
    }

    /**
     * `doInsertRawBinary(records)` up to the end of its write loop: look up
     * the first record's table, check the first record against it, then
     * write every column of every record whose value is non-null, in table
     * order, into a fresh piped stream, stopping at the first exception.
     */
    method DoInsertRawBinary(records: seq<Record>) returns (r: Insert)
      ensures r == RawBinaryOutcome(records)
    {
      if |records| == 0 {
        return Skipped;
      }
      var first := records[0];
      var key := escapeTopicName(first.topic);
      if key !in mapping {
        return Rejected(TableNotFound(first.topic));
      }
      var table := mapping[key];
      var valid := ValidateDataSchema(table, first, false);
      if valid.Failure? {
        return Rejected(valid.error);
      }
      if !valid.value {
        return Rejected(InvalidSchema);
      }
      var columns := table.columns;
      var stream := new PipedOutputStream();
      ghost var batch := seq(|records|, i requires 0 <= i < |records| => RecordEmit(columns, records[i], parseUuid));
      ChainWrittenNil(batch, []);
      var i := 0;
      while i < |records|
        invariant 0 <= i <= |records|
        invariant ChainWritten(batch, i, [], stream.data)
      {
        var record := records[i];
        ghost var before := stream.data;
        if record.hasValue {
          var fault := WriteRow(columns, record, stream);
          if fault.Some? {
            AppendAssoc([], before, RowEmit(columns, record, parseUuid).bytes);
            ChainStep(batch, i, [], before, stream.data);
            return Streamed(stream.data, fault);
          }
        } else {
          assert stream.data == before + RecordEmit(columns, record, parseUuid).bytes;
        }
        AppendAssoc([], before, RecordEmit(columns, record, parseUuid).bytes);
        ChainStep(batch, i, [], before, stream.data);
        i := i + 1;
      }
      ChainWrittenAll(batch, [], stream.data);
      return Streamed(stream.data, None);
    }

    // -------------------------------------------------------------------
    // The SQL insert
    // -------------------------------------------------------------------

    /**
     * `doInsertSimple(records)` up to the query: the header, then each
     * record's tuple followed by a comma, and finally the last comma
     * deleted.
     */
    method DoInsertSimple(records: seq<Record>) returns (r: SimpleInsert.SimpleOutcome)
      ensures r == SimpleInsert.InsertStatement(escapeTopicName, records, dataToString)
    {
      if |records| == 0 {
        return SimpleInsert.NoQuery;
      }
      var first := records[0];
      var sb := "INSERT INTO " + escapeTopicName(first.topic) + " ";
      sb := sb + SimpleInsert.ExtractFields(first.fields, "(", ")", ",", "");
      sb := sb + " VALUES ";
      ghost var header := sb;
      ghost var rows: seq<string> := [];
      SimpleInsert.BuiltNil(records, dataToString, header);
      var i := 0;
      while i < |records|
        invariant 0 <= i <= |records|
        invariant SimpleInsert.BuiltSoFar(records, dataToString, i, header, rows, sb)
      {
        var record := records[i];
        var values := SimpleInsert.RecordValues(record);
        var valueStr := SimpleInsert.ConvertWithStream(values, "(", ")", ",", "'", dataToString);
        SimpleInsert.BuiltStep(records, dataToString, i, header, rows, sb, valueStr);
        if valueStr.Failure? {
          return SimpleInsert.Failed(valueStr.error);
        }
        sb := sb + valueStr.value + ",";
        rows := rows + [valueStr.value];
        i := i + 1;
      }
      SimpleInsert.BuiltDone(records, dataToString, header, rows, sb);
      var insertStr := sb[..|sb| - 1];
      return SimpleInsert.Query(insertStr);
    }
  }
}
