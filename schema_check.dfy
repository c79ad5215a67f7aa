/**
 * What `validateDataSchema` decides about a table's column contract and
 * one record, stated column by column rather than as a loop.
 */
module SchemaCheck {
  import opened Wrappers
  import opened Mapping
  import JavaStrings

  /**
   * The type check of one non-nullable column: column types whose name is
   * Date, Date32, DateTime, DateTime64 or UUID pass whatever the field's
   * tag; every other column passes only when its type name equals the
   * upper-cased name of the field's Kafka type.
   */
  predicate TypeAccepted(t: ColumnType, f: FieldType)
  {
    var colTypeName := TypeName(t);
    colTypeName in {"Date", "Date32", "DateTime", "DateTime64", "UUID"}
    || colTypeName == JavaStrings.ToUpperAscii(FieldTypeName(f))
  }

  /** Every non-nullable column's name is a key of the record's field map. */
  predicate RequiredPresent(columns: seq<Column>, record: Record)
  {
    forall i :: 0 <= i < |columns| && !columns[i].nullable ==> columns[i].name in record.jsonMap
  }

  /** Every non-nullable column present in the record passes the type check. */
  predicate RequiredTyped(columns: seq<Column>, record: Record)
  {
    forall i :: 0 <= i < |columns| && !columns[i].nullable && columns[i].name in record.jsonMap ==>
      TypeAccepted(columns[i].colType, record.jsonMap[columns[i].name].fieldType)
  }

  /**
   * The outcome of `validateDataSchema(table, record, onlyFieldsName)`.
   * With the type check on, a missing non-nullable column is dereferenced
   * and raises a NullPointerException instead of answering false.
   */
  function SchemaValid(table: Table, record: Record, onlyFieldsName: bool): Result<bool, Error>
  {
    if onlyFieldsName then Success(RequiredPresent(table.columns, record))
    else if !RequiredPresent(table.columns, record) then Failure(NullPointer)
    else Success(RequiredTyped(table.columns, record))
  }

  /** What the column loop of `validateDataSchema` has established after the first `i` columns. */
  predicate ValidSoFar(columns: seq<Column>, record: Record, onlyFieldsName: bool, i: nat, valid: bool)
    requires i <= |columns|
  {
    && (!onlyFieldsName ==> RequiredPresent(columns[..i], record))
    && valid == (RequiredPresent(columns[..i], record) && (onlyFieldsName || RequiredTyped(columns[..i], record)))
  }

  /** How the loop's answer changes with column `i`. */
  lemma ValidStep(columns: seq<Column>, record: Record, onlyFieldsName: bool, i: nat, valid: bool)
    requires i < |columns| && ValidSoFar(columns, record, onlyFieldsName, i, valid)
    requires !onlyFieldsName ==> columns[i].nullable || columns[i].name in record.jsonMap
    ensures ValidSoFar(columns, record, onlyFieldsName, i + 1,
      valid && (columns[i].nullable ||
                (columns[i].name in record.jsonMap &&
                 (onlyFieldsName || TypeAccepted(columns[i].colType, record.jsonMap[columns[i].name].fieldType)))))
  {
    var longer := columns[..i + 1];
    assert forall k :: 0 <= k < i ==> longer[k] == columns[..i][k];
    assert longer[i] == columns[i];
  }

  lemma MissingRequired(columns: seq<Column>, record: Record, i: nat)
    requires i < |columns| && !columns[i].nullable && columns[i].name !in record.jsonMap
    ensures !RequiredPresent(columns, record)
  {
  }

  lemma ValidDone(table: Table, record: Record, onlyFieldsName: bool, valid: bool)
    requires ValidSoFar(table.columns, record, onlyFieldsName, |table.columns|, valid)
    ensures SchemaValid(table, record, onlyFieldsName) == Success(valid)
  {
    assert table.columns[..|table.columns|] == table.columns;
  }

  /** The upper-cased Kafka type names. */
  function UpperFieldTypeName(f: FieldType): string
  {
    match f
    case KInt8 => "INT8"
    case KInt16 => "INT16"
    case KInt32 => "INT32"
    case KInt64 => "INT64"
    case KFloat32 => "FLOAT32"
    case KFloat64 => "FLOAT64"
    case KBoolean => "BOOLEAN"
    case KString => "STRING"
    case KBytes => "BYTES"
    case KArray => "ARRAY"
    case KMap => "MAP"
    case KStruct => "STRUCT"
  }

  lemma UpperFieldTypeNameCorrect(f: FieldType)
    ensures JavaStrings.ToUpperAscii(FieldTypeName(f)) == UpperFieldTypeName(f)
  {
    var upper := JavaStrings.ToUpperAscii(FieldTypeName(f));
    assert |upper| == |UpperFieldTypeName(f)|;
    forall i | 0 <= i < |upper| ensures upper[i] == UpperFieldTypeName(f)[i] {
    }
  }

  /** The only column type / field type pairs that pass the type check. */
  lemma TypeAcceptedTable(t: ColumnType, f: FieldType)
    ensures TypeAccepted(t, f) <==> t in {Date, Date32, DateTime, DateTime64, UUID} || NamesMatch(t, f)
  {
    UpperFieldTypeNameCorrect(f);
    DateOrUuidNames(t);
    UpperNameMatch(t, f);
  }

  lemma DateOrUuidNames(t: ColumnType)
    ensures TypeName(t) in {"Date", "Date32", "DateTime", "DateTime64", "UUID"} <==>
      t in {Date, Date32, DateTime, DateTime64, UUID}
  {
  }

  /**
   * The column type whose name equals the upper-cased name of each Kafka
   * type: none for BYTES and STRUCT.
   */
  predicate NamesMatch(t: ColumnType, f: FieldType)
  {
    match f
    case KInt8 => t == INT8
    case KInt16 => t == INT16
    case KInt32 => t == INT32
    case KInt64 => t == INT64
    case KFloat32 => t == FLOAT32
    case KFloat64 => t == FLOAT64
    case KBoolean => t == BOOLEAN
    case KString => t == STRING
    case KBytes => false
    case KArray => t == ARRAY
    case KMap => t == MAP
    case KStruct => false
  }

  lemma UpperNameMatch(t: ColumnType, f: FieldType)
    ensures TypeName(t) == UpperFieldTypeName(f) <==> NamesMatch(t, f)
  {
    ColumnNameKey(t);
    FieldNameKey(f);
    KeysMatch(t, f);
    MatchedNamesEqual(t, f);
  }

  lemma KeysMatch(t: ColumnType, f: FieldType)
    ensures ColumnKey(t) == FieldKey(f) ==> NamesMatch(t, f)
  {
  }

  lemma MatchedNamesEqual(t: ColumnType, f: FieldType)
    ensures NamesMatch(t, f) ==> TypeName(t) == UpperFieldTypeName(f)
  {
  }

  /** Length, first and last character: enough to tell all these names apart. */
  function NameKey(s: string): (int, char, char)
    requires |s| > 0
  {
    (|s|, s[0], s[|s| - 1])
  }

  function ColumnKey(t: ColumnType): (int, char, char)
  {
    match t
    case INT8 => (4, 'I', '8')
    case INT16 => (5, 'I', '6')
    case INT32 => (5, 'I', '2')
    case INT64 => (5, 'I', '4')
    case UINT8 => (5, 'U', '8')
    case UINT16 => (6, 'U', '6')
    case UINT32 => (6, 'U', '2')
    case UINT64 => (6, 'U', '4')
    case FLOAT32 => (7, 'F', '2')
    case FLOAT64 => (7, 'F', '4')
    case BOOLEAN => (7, 'B', 'N')
    case STRING => (6, 'S', 'G')
    case UUID => (4, 'U', 'D')
    case Date => (4, 'D', 'e')
    case Date32 => (6, 'D', '2')
    case DateTime => (8, 'D', 'e')
    case DateTime64 => (10, 'D', '4')
    case MAP => (3, 'M', 'P')
    case ARRAY => (5, 'A', 'Y')
  }

  function FieldKey(f: FieldType): (int, char, char)
  {
    match f
    case KInt8 => (4, 'I', '8')
    case KInt16 => (5, 'I', '6')
    case KInt32 => (5, 'I', '2')
    case KInt64 => (5, 'I', '4')
    case KFloat32 => (7, 'F', '2')
    case KFloat64 => (7, 'F', '4')
    case KBoolean => (7, 'B', 'N')
    case KString => (6, 'S', 'G')
    case KBytes => (5, 'B', 'S')
    case KArray => (5, 'A', 'Y')
    case KMap => (3, 'M', 'P')
    case KStruct => (6, 'S', 'T')
  }

  lemma ColumnNameKey(t: ColumnType)
    ensures |TypeName(t)| > 0 && NameKey(TypeName(t)) == ColumnKey(t)
  {
  }

  lemma FieldNameKey(f: FieldType)
    ensures |UpperFieldTypeName(f)| > 0 && NameKey(UpperFieldTypeName(f)) == FieldKey(f)
  {
  }

  /** A non-nullable unsigned column fails the type check whatever the record holds. */
  lemma UnsignedColumnRejected(table: Table, record: Record, i: nat)
    requires i < |table.columns| && !table.columns[i].nullable
    requires table.columns[i].colType in {UINT8, UINT16, UINT32, UINT64}
    ensures SchemaValid(table, record, false) != Success(true)
  {
    var col := table.columns[i];
    if col.name in record.jsonMap {
      TypeAcceptedTable(col.colType, record.jsonMap[col.name].fieldType);
    }
  }

  /** Inserting a nullable column anywhere in the table never changes the outcome. */
  lemma NullableColumnIrrelevant(table: Table, record: Record, onlyFieldsName: bool, k: nat, c: Column)
    requires k <= |table.columns| && c.nullable
    ensures SchemaValid(Table(table.name, table.columns[..k] + [c] + table.columns[k..]), record, onlyFieldsName)
         == SchemaValid(table, record, onlyFieldsName)
  {
    var cols := table.columns;
    var wider := cols[..k] + [c] + cols[k..];
    assert forall i :: 0 <= i < k ==> wider[i] == cols[i];
    assert wider[k] == c;
    assert forall i :: k < i < |wider| ==> wider[i] == cols[i - 1];
    assert RequiredPresent(wider, record) <==> RequiredPresent(cols, record) by {
      if RequiredPresent(cols, record) {
        forall i | 0 <= i < |wider| && !wider[i].nullable ensures wider[i].name in record.jsonMap {
          if i > k { assert wider[i] == cols[i - 1]; }
        }
      }
      if RequiredPresent(wider, record) {
        forall i | 0 <= i < |cols| && !cols[i].nullable ensures cols[i].name in record.jsonMap {
          if i >= k { assert cols[i] == wider[i + 1]; }
        }
      }
    }
    assert RequiredTyped(wider, record) <==> RequiredTyped(cols, record) by {
      if RequiredTyped(cols, record) {
        forall i | 0 <= i < |wider| && !wider[i].nullable && wider[i].name in record.jsonMap
          ensures TypeAccepted(wider[i].colType, record.jsonMap[wider[i].name].fieldType)
        {
          if i > k { assert wider[i] == cols[i - 1]; }
        }
      }
      if RequiredTyped(wider, record) {
        forall i | 0 <= i < |cols| && !cols[i].nullable && cols[i].name in record.jsonMap
          ensures TypeAccepted(cols[i].colType, record.jsonMap[cols[i].name].fieldType)
        {
          if i >= k { assert cols[i] == wider[i + 1]; }
        }
      }
    }
  }
}
