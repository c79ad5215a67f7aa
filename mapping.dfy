/**
 * The writer's data model: the destination column types, the Kafka field
 * type tags a record carries, the Java objects that reach the encoder, and
 * columns, tables and records.
 */
module Mapping {
  import opened BinaryStream

  /** The destination column types the writer's switches name. */
  datatype ColumnType =
    | INT8 | INT16 | INT32 | INT64
    | UINT8 | UINT16 | UINT32 | UINT64
    | FLOAT32 | FLOAT64 | BOOLEAN | STRING | UUID
    | Date | Date32 | DateTime | DateTime64
    | MAP | ARRAY

  /** `Type.name()`: the enum constant's own spelling. */
  function TypeName(t: ColumnType): string
  {
    match t
    case INT8 => "INT8"
    case INT16 => "INT16"
    case INT32 => "INT32"
    case INT64 => "INT64"
    case UINT8 => "UINT8"
    case UINT16 => "UINT16"
    case UINT32 => "UINT32"
    case UINT64 => "UINT64"
    case FLOAT32 => "FLOAT32"
    case FLOAT64 => "FLOAT64"
    case BOOLEAN => "BOOLEAN"
    case STRING => "STRING"
    case UUID => "UUID"
    case Date => "Date"
    case Date32 => "Date32"
    case DateTime => "DateTime"
    case DateTime64 => "DateTime64"
    case MAP => "MAP"
    case ARRAY => "ARRAY"
  }

  /** The types `doWriteCol` hands to `doWritePrimitive`. */
  predicate IsPrimitive(t: ColumnType)
  {
    t in {INT8, INT16, INT32, INT64, UINT8, UINT16, UINT32, UINT64, FLOAT32, FLOAT64, BOOLEAN, UUID, STRING}
  }

  /** The types `doWriteCol` hands to `doWriteDates`. */
  predicate IsTemporal(t: ColumnType)
  {
    t in {Date, Date32, DateTime, DateTime64}
  }

  /** Kafka Connect's `Schema.Type`, the type tag of a record field. */
  datatype FieldType =
    | KInt8 | KInt16 | KInt32 | KInt64 | KFloat32 | KFloat64
    | KBoolean | KString | KBytes | KArray | KMap | KStruct

  /** `Schema.Type.getName()`: the lower-case type name. */
  function FieldTypeName(f: FieldType): string
  {
    match f
    case KInt8 => "int8"
    case KInt16 => "int16"
    case KInt32 => "int32"
    case KInt64 => "int64"
    case KFloat32 => "float32"
    case KFloat64 => "float64"
    case KBoolean => "boolean"
    case KString => "string"
    case KBytes => "bytes"
    case KArray => "array"
    case KMap => "map"
    case KStruct => "struct"
  }

  /**
   * The Java object behind a field value, by runtime class.  Floats carry
   * their IEEE-754 bit pattern; a Java map is its entries in iteration
   * order; `JOther` is any other class (a Struct, a byte array, ...).
   */
  datatype JValue =
    | JNull
    | JByte(b: int8)
    | JShort(sh: int16)
    | JInteger(i: int32)
    | JLong(l: int64)
    | JFloat(floatBits: uint32)
    | JDouble(doubleBits: uint64)
    | JBoolean(z: bool)
    | JString(str: string)
    | JList(elems: seq<JValue>)
    | JMap(entries: seq<(JValue, JValue)>)
    | JOther

  /** A record field: its Kafka type tag and its object (`Data`). */
  datatype Data = Data(fieldType: FieldType, obj: JValue)

  /**
   * A destination column.  `subType` is the element type of an Array
   * column, `mapKeyType`/`mapValueType` the key and value types of a Map
   * column; they mean nothing for other columns.
   */
  datatype Column = Column(
    name: string,
    colType: ColumnType,
    nullable: bool,
    hasDefault: bool,
    subType: ColumnType,
    mapKeyType: ColumnType,
    mapValueType: ColumnType)

  /** A destination table: its name and its columns in table order. */
  datatype Table = Table(name: string, columns: seq<Column>) {
    /** `hasDefaults()`: some column has a server-side default. */
    predicate HasDefaults()
    {
      exists i :: 0 <= i < |columns| && columns[i].hasDefault
    }
  }

  datatype SchemaMode = SCHEMA | SCHEMA_LESS

  /**
   * A record of the batch: its topic, schema mode, the names of its
   * declared fields (`getFields()`), the field map (`getJsonMap()`) and
   * whether the underlying sink record's value is non-null.
   */
  datatype Record = Record(
    topic: string,
    mode: SchemaMode,
    fields: seq<string>,
    jsonMap: map<string, Data>,
    hasValue: bool)

  /** Why an insert (or one column of it) was abandoned. */
  datatype Error =
    | TableNotFound(topic: string)      // no destination table for the topic
    | InvalidSchema                     // validateDataSchema answered false
    | MissingField(column: string)      // a non-nullable column absent from the record
    | NullValue(column: string)         // a non-nullable column whose value is null
    | UnsupportedConversion(target: ColumnType, source: FieldType)  // DataException of doWriteDates
    | NullPointer                       // a null object dereferenced
    | ClassCast                         // an object of the wrong runtime class
    | IllegalArgument                   // a library writer or UUID.fromString rejected the value
}
