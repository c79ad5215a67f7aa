/**
 * The bytes the writer appends for one column, one row and one batch in
 * ClickHouse's RowBinary format, as functions, together with a reference
 * decoder that reads them back.
 *
 * A write that throws part-way leaves in the stream whatever was appended
 * before the throw, so every encoding is an `Emit`: the bytes appended and
 * the exception, if any, that ended the write.
 */
module RowBinary {
  import opened Wrappers
  import opened BinaryStream
  import opened Mapping

  /** `UUID.fromString`, a library parser that may reject its input. */
  type UuidParser = string -> Option<Uuid>

  datatype Emit = Emit(bytes: seq<byte>, fault: Option<Error>)

  function Done(bytes: seq<byte>): Emit { Emit(bytes, None) }

  function Raise(e: Error): Emit { Emit([], Some(e)) }

  /** Run `a`, then `b` unless `a` threw. */
  function Then(a: Emit, b: Emit): Emit
  {
    if a.fault.Some? then a else Emit(a.bytes + b.bytes, b.fault)
  }

  /** A sequence of writes, run in order until the first one that throws. */
  function Chain(es: seq<Emit>): Emit
    decreases |es|
  {
    if |es| == 0 then Done([]) else Then(es[0], Chain(es[1..]))
  }

  lemma ThenAssociative(a: Emit, b: Emit, c: Emit)
    ensures Then(Then(a, b), c) == Then(a, Then(b, c))
  {
    if a.fault.None? && b.fault.None? {
      assert a.bytes + b.bytes + c.bytes == a.bytes + (b.bytes + c.bytes);
    }
  }

  lemma {:induction false} ChainAppend(xs: seq<Emit>, ys: seq<Emit>)
    ensures Chain(xs + ys) == Then(Chain(xs), Chain(ys))
    decreases |xs|
  {
    if |xs| > 0 {
      assert (xs + ys)[1..] == xs[1..] + ys;
      ChainAppend(xs[1..], ys);
      ThenAssociative(xs[0], Chain(xs[1..]), Chain(ys));
    } else {
      assert xs + ys == ys;
    }
  }

  lemma ChainSnoc(es: seq<Emit>, e: Emit)
    ensures Chain(es + [e]) == Then(Chain(es), e)
  {
    ChainAppend(es, [e]);
    assert Chain([e]) == Then(e, Chain([e][1..]));
    assert [e][1..] == [];
  }

  /** Once a prefix of the writes has thrown, the rest never run. */
  lemma ChainPrefixFault(es: seq<Emit>, k: nat)
    requires k <= |es| && Chain(es[..k]).fault.Some?
    ensures Chain(es) == Chain(es[..k])
  {
    assert es == es[..k] + es[k..];
    ChainAppend(es[..k], es[k..]);
  }

  /**
   * What a loop running the writes `es` in order has established after
   * `k` of them: none threw, and the stream holds `before` followed by
   * their bytes.
   */
  predicate ChainWritten(es: seq<Emit>, k: nat, before: seq<byte>, data: seq<byte>)
    requires k <= |es|
  {
    Chain(es[..k]).fault.None? && data == before + Chain(es[..k]).bytes
  }

  lemma ChainWrittenNil(es: seq<Emit>, data: seq<byte>)
    ensures ChainWritten(es, 0, data, data)
  {
    assert es[..0] == [];
  }

  lemma SliceSnoc(es: seq<Emit>, k: nat)
    requires k < |es|
    ensures es[..k + 1] == es[..k] + [es[k]]
  {
  }

  /** One more write: either the loop goes on, or its exception is the chain's. */
  lemma ChainStep(es: seq<Emit>, k: nat, before: seq<byte>, mid: seq<byte>, data: seq<byte>)
    requires k < |es| && ChainWritten(es, k, before, mid) && data == mid + es[k].bytes
    ensures es[k].fault.None? ==> ChainWritten(es, k + 1, before, data)
    ensures es[k].fault.Some? ==> data == before + Chain(es).bytes && es[k].fault == Chain(es).fault
  {
    var done := es[..k];
    var c := Chain(done);
    SliceSnoc(es, k);
    ChainSnoc(done, es[k]);
    var n := Chain(es[..k + 1]);
    assert n == Emit(c.bytes + es[k].bytes, es[k].fault);
    assert mid == before + c.bytes;
    AppendAssoc(before, c.bytes, es[k].bytes);
    if es[k].fault.Some? {
      ChainPrefixFault(es, k + 1);
    }
  }

  lemma ChainWrittenAll(es: seq<Emit>, before: seq<byte>, data: seq<byte>)
    requires ChainWritten(es, |es|, before, data)
    ensures data == before + Chain(es).bytes && Chain(es).fault.None?
  {
    assert es[..|es|] == es;
  }

  /** A chain throws exactly when one of its writes does. */
  lemma {:induction false} ChainSucceeds(es: seq<Emit>)
    ensures Chain(es).fault.None? <==> forall i :: 0 <= i < |es| ==> es[i].fault.None?
    decreases |es|
  {
    if |es| > 0 {
      ChainSucceeds(es[1..]);
      assert forall i :: 1 <= i < |es| ==> es[i] == es[1..][i - 1];
    }
  }

  // ---------------------------------------------------------------------
  // doWritePrimitive and doWriteDates
  // ---------------------------------------------------------------------

  /** An unsigned library writer: the value if it fits, IllegalArgument otherwise. */
  function Unsigned(v: int, w: nat): Emit
  {
    match UnsignedBytes(v, w)
    case Some(bs) => Done(bs)
    case None => Raise(IllegalArgument)
  }

  /**
   * `doWritePrimitive(type, stream, value)`: a null value is a lone null
   * marker; otherwise the value is cast to the Java class the type's
   * writer takes (ClassCast if it is not one) and written.  Types the
   * switch does not name write nothing.
   */
  function PrimitiveEmit(t: ColumnType, v: JValue, parseUuid: UuidParser): Emit
  {
    if v.JNull? then Done([NULL_MARKER])
    else match t
      case INT8 => if v.JByte? then Done(Int8Bytes(v.b)) else Raise(ClassCast)
      case INT16 => if v.JShort? then Done(Int16Bytes(v.sh)) else Raise(ClassCast)
      case INT32 => if v.JInteger? then Done(Int32Bytes(v.i)) else Raise(ClassCast)
      case INT64 => if v.JLong? then Done(Int64Bytes(v.l)) else Raise(ClassCast)
      case UINT8 => if v.JByte? then Unsigned(v.b, 1) else Raise(ClassCast)
      case UINT16 => if v.JShort? then Unsigned(v.sh, 2) else Raise(ClassCast)
      case UINT32 => if v.JInteger? then Unsigned(v.i, 4) else Raise(ClassCast)
      case UINT64 => if v.JLong? then Done(Int64Bytes(v.l)) else Raise(ClassCast)
      case FLOAT32 => if v.JFloat? then Done(LE(v.floatBits, 4)) else Raise(ClassCast)
      case FLOAT64 => if v.JDouble? then Done(LE(v.doubleBits, 8)) else Raise(ClassCast)
      case BOOLEAN => if v.JBoolean? then Done(BooleanBytes(v.z)) else Raise(ClassCast)
      case STRING => if v.JString? then Done(StringBytes(Utf8(v.str))) else Raise(ClassCast)
      case UUID =>
        if !v.JString? then Raise(ClassCast)
        else (match parseUuid(v.str)
          case Some(u) => Done(UuidBytes(u))
          case None => Raise(IllegalArgument))
      case _ => Done([])
  }

  /**
   * `doWriteDates(type, stream, value)`: a null object is a lone null
   * marker; Date and Date32 need the INT32 tag, DateTime and DateTime64
   * the INT64 tag, and any other tag is the DataException "Not implemented
   * conversion".
   */
  function DatesEmit(t: ColumnType, d: Data): Emit
  {
    if d.obj.JNull? then Done([NULL_MARKER])
    else match t
      case Date =>
        if d.fieldType != KInt32 then Raise(UnsupportedConversion(t, d.fieldType))
        else if d.obj.JInteger? then Unsigned(d.obj.i, 2) else Raise(ClassCast)
      case Date32 =>
        if d.fieldType != KInt32 then Raise(UnsupportedConversion(t, d.fieldType))
        else if d.obj.JInteger? then Done(Int32Bytes(d.obj.i)) else Raise(ClassCast)
      case DateTime =>
        if d.fieldType != KInt64 then Raise(UnsupportedConversion(t, d.fieldType))
        else if d.obj.JLong? then Unsigned(d.obj.l, 4) else Raise(ClassCast)
      case DateTime64 =>
        if d.fieldType != KInt64 then Raise(UnsupportedConversion(t, d.fieldType))
        else if d.obj.JLong? then Done(Int64Bytes(d.obj.l)) else Raise(ClassCast)
      case _ => Done([])
  }

  // ---------------------------------------------------------------------
  // doWriteCol
  // ---------------------------------------------------------------------

  /** The elements of an Array column, each written by `doWritePrimitive`, in list order. */
  function ElementsEmit(t: ColumnType, xs: seq<JValue>, parseUuid: UuidParser): Emit
  {
    Chain(seq(|xs|, i requires 0 <= i < |xs| => PrimitiveEmit(t, xs[i], parseUuid)))
  }

  /** One map entry: its key, then its value. */
  function EntryEmit(kt: ColumnType, vt: ColumnType, e: (JValue, JValue), parseUuid: UuidParser): Emit
  {
    Then(PrimitiveEmit(kt, e.0, parseUuid), PrimitiveEmit(vt, e.1, parseUuid))
  }

  /** The entries of a Map column in iteration order. */
  function EntriesEmit(kt: ColumnType, vt: ColumnType, es: seq<(JValue, JValue)>, parseUuid: UuidParser): Emit
  {
    Chain(seq(|es|, i requires 0 <= i < |es| => EntryEmit(kt, vt, es[i], parseUuid)))
  }

  /** An Array column: the list's size as a var-int, then the elements. */
  function ArrayEmit(t: ColumnType, v: JValue, parseUuid: UuidParser): Emit
  {
    if v.JNull? then Raise(NullPointer)
    else if !v.JList? then Raise(ClassCast)
    else Then(Done(VarInt(|v.elems|)), ElementsEmit(t, v.elems, parseUuid))
  }

  /** A Map column: the map's size as a var-int, then the entries. */
  function MapEmit(kt: ColumnType, vt: ColumnType, v: JValue, parseUuid: UuidParser): Emit
  {
    if v.JNull? then Raise(NullPointer)
    else if !v.JMap? then Raise(ClassCast)
    else Then(Done(VarInt(|v.entries|)), EntriesEmit(kt, vt, v.entries, parseUuid))
  }

  /** The switch of `doWriteCol` on the column type. */
  function ValueEmit(col: Column, d: Data, parseUuid: UuidParser): Emit
  {
    match col.colType
    case MAP => MapEmit(col.mapKeyType, col.mapValueType, d.obj, parseUuid)
    case ARRAY => ArrayEmit(col.subType, d.obj, parseUuid)
    case Date | Date32 | DateTime | DateTime64 => DatesEmit(col.colType, d)
    case _ => PrimitiveEmit(col.colType, d.obj, parseUuid)
  }

  /** `doWriteCol(record, col, stream)`. */
  function ColEmit(col: Column, record: Record, parseUuid: UuidParser): Emit
  {
    if col.name !in record.jsonMap then
      if col.nullable then Done([NULL_MARKER]) else Raise(MissingField(col.name))
    else
      var d := record.jsonMap[col.name];
      if col.nullable && !d.obj.JNull? then Then(Done([NON_NULL_MARKER]), ValueEmit(col, d, parseUuid))
      else if !col.nullable && d.obj.JNull? then Raise(NullValue(col.name))
      else ValueEmit(col, d, parseUuid)
  }

  /** One record: `doWriteCol` for every column, in table order. */
  function RowEmit(columns: seq<Column>, record: Record, parseUuid: UuidParser): Emit
  {
    Chain(seq(|columns|, j requires 0 <= j < |columns| => ColEmit(columns[j], record, parseUuid)))
  }

  /** What a record contributes to the batch: nothing when its value is null. */
  function RecordEmit(columns: seq<Column>, record: Record, parseUuid: UuidParser): Emit
  {
    if record.hasValue then RowEmit(columns, record, parseUuid) else Done([])
  }

  /** The write loop of `doInsertRawBinary`. */
  function BatchEmit(columns: seq<Column>, records: seq<Record>, parseUuid: UuidParser): Emit
  {
    Chain(seq(|records|, i requires 0 <= i < |records| => RecordEmit(columns, records[i], parseUuid)))
  }

  // ---------------------------------------------------------------------
  // Layout lemmas
  // ---------------------------------------------------------------------

  /** The number of bytes a fixed-width type takes. */
  function FixedWidth(t: ColumnType): nat
  {
    match t
    case INT8 | UINT8 | BOOLEAN => 1
    case INT16 | UINT16 => 2
    case INT32 | UINT32 | FLOAT32 => 4
    case INT64 | UINT64 | FLOAT64 => 8
    case UUID => 16
    case _ => 0
  }

  /**
   * `doWritePrimitive` writes a null as the null marker alone, a value of
   * a fixed-width type in exactly that width, a string as its UTF-8 byte
   * count then its bytes, and nothing at all when it throws.
   */
  lemma PrimitiveLayout(t: ColumnType, v: JValue, parseUuid: UuidParser)
    ensures v.JNull? ==> PrimitiveEmit(t, v, parseUuid) == Done([NULL_MARKER])
    ensures PrimitiveEmit(t, v, parseUuid).fault.Some? ==> PrimitiveEmit(t, v, parseUuid).bytes == []
    ensures !v.JNull? && PrimitiveEmit(t, v, parseUuid).fault.None? && t != STRING ==>
      |PrimitiveEmit(t, v, parseUuid).bytes| == FixedWidth(t)
    ensures !v.JNull? && t == STRING && v.JString? ==>
      PrimitiveEmit(t, v, parseUuid) == Done(VarInt(|Utf8(v.str)|) + Utf8(v.str))
    ensures !v.JNull? && t in {INT8, INT16, INT32, INT64, UINT64, FLOAT32, FLOAT64, BOOLEAN, STRING} ==>
      (PrimitiveEmit(t, v, parseUuid).fault.None? <==>
        match t
        case INT8 => v.JByte?
        case INT16 => v.JShort?
        case INT32 => v.JInteger?
        case FLOAT32 => v.JFloat?
        case FLOAT64 => v.JDouble?
        case BOOLEAN => v.JBoolean?
        case STRING => v.JString?
        case _ => v.JLong?)
    ensures !v.JNull? && t == UINT8 ==> (PrimitiveEmit(t, v, parseUuid).fault.None? <==> v.JByte? && v.b >= 0)
    ensures !v.JNull? && t == UINT16 ==> (PrimitiveEmit(t, v, parseUuid).fault.None? <==> v.JShort? && v.sh >= 0)
    ensures !v.JNull? && t == UINT32 ==> (PrimitiveEmit(t, v, parseUuid).fault.None? <==> v.JInteger? && v.i >= 0)
  {
    RangeValues();
  }

  /**
   * `doWriteDates` accepts only the INT32 tag for Date and Date32 and only
   * the INT64 tag for DateTime and DateTime64, writing 2, 4, 4 and 8
   * bytes; any other tag throws before a byte is written.
   */
  lemma DatesLayout(t: ColumnType, d: Data)
    requires IsTemporal(t)
    ensures d.obj.JNull? ==> DatesEmit(t, d) == Done([NULL_MARKER])
    ensures !d.obj.JNull? && d.fieldType != (if t in {Date, Date32} then KInt32 else KInt64) ==>
      DatesEmit(t, d) == Raise(UnsupportedConversion(t, d.fieldType))
    ensures DatesEmit(t, d).fault.Some? ==> DatesEmit(t, d).bytes == []
    ensures !d.obj.JNull? && DatesEmit(t, d).fault.None? ==>
      |DatesEmit(t, d).bytes| == (match t case Date => 2 case Date32 | DateTime => 4 case _ => 8)
  {
    RangeValues();
  }

  /**
   * The outcomes of `doWriteCol`: an absent field is one null marker or a
   * MissingField error; a null value of a non-nullable column throws
   * before any byte; a nullable column's non-null value follows the
   * non-null marker; a nullable null value is one null marker, except for
   * Map and Array columns, whose size is read from the null object.
   */
  lemma ColumnLayout(col: Column, record: Record, parseUuid: UuidParser)
    ensures col.name !in record.jsonMap ==>
      ColEmit(col, record, parseUuid) == (if col.nullable then Done([NULL_MARKER]) else Raise(MissingField(col.name)))
    ensures col.name in record.jsonMap && !col.nullable && record.jsonMap[col.name].obj.JNull? ==>
      ColEmit(col, record, parseUuid) == Raise(NullValue(col.name))
    ensures col.name in record.jsonMap && col.nullable && record.jsonMap[col.name].obj.JNull? ==>
      ColEmit(col, record, parseUuid) == (if col.colType in {MAP, ARRAY} then Raise(NullPointer) else Done([NULL_MARKER]))
    ensures col.name in record.jsonMap && col.nullable && !record.jsonMap[col.name].obj.JNull? ==>
      var value := ValueEmit(col, record.jsonMap[col.name], parseUuid);
      ColEmit(col, record, parseUuid) == Emit([NON_NULL_MARKER] + value.bytes, value.fault)
    ensures col.name in record.jsonMap && !col.nullable && !record.jsonMap[col.name].obj.JNull? ==>
      ColEmit(col, record, parseUuid) == ValueEmit(col, record.jsonMap[col.name], parseUuid)
  {
  }

  /** The bytes of the elements are the bytes of each element, in list order. */
  lemma {:induction false} ElementsBytes(t: ColumnType, xs: seq<JValue>, parseUuid: UuidParser, k: nat)
    requires k <= |xs| && ElementsEmit(t, xs, parseUuid).fault.None?
    ensures ElementsEmit(t, xs[..k], parseUuid).fault.None?
    ensures ElementsEmit(t, xs, parseUuid).bytes ==
      ElementsEmit(t, xs[..k], parseUuid).bytes + ElementsEmit(t, xs[k..], parseUuid).bytes
  {
    var es := seq(|xs|, i requires 0 <= i < |xs| => PrimitiveEmit(t, xs[i], parseUuid));
    assert es[..k] == seq(k, i requires 0 <= i < k => PrimitiveEmit(t, xs[..k][i], parseUuid));
    assert es[k..] == seq(|xs| - k, i requires 0 <= i < |xs| - k => PrimitiveEmit(t, xs[k..][i], parseUuid));
    assert es == es[..k] + es[k..];
    ChainAppend(es[..k], es[k..]);
  }

  // ---------------------------------------------------------------------
  // doInsertRawBinary's write loop
  // ---------------------------------------------------------------------

  /** The records whose value is non-null, in batch order. */
  function WithValue(records: seq<Record>): (r: seq<Record>)
    ensures |r| <= |records|
    ensures forall i :: 0 <= i < |r| ==> r[i].hasValue
    decreases |records|
  {
    if |records| == 0 then []
    else if records[0].hasValue then [records[0]] + WithValue(records[1..])
    else WithValue(records[1..])
  }

  lemma {:induction false} WithValueMembers(records: seq<Record>)
    ensures forall r :: r in WithValue(records) <==> r in records && r.hasValue
    decreases |records|
  {
    if |records| > 0 {
      WithValueMembers(records[1..]);
      assert records == [records[0]] + records[1..];
    }
  }

  lemma BatchEmitCons(columns: seq<Column>, records: seq<Record>, parseUuid: UuidParser)
    requires |records| > 0
    ensures BatchEmit(columns, records, parseUuid) ==
      Then(RecordEmit(columns, records[0], parseUuid), BatchEmit(columns, records[1..], parseUuid))
  {
    var es := seq(|records|, i requires 0 <= i < |records| => RecordEmit(columns, records[i], parseUuid));
    assert es[1..] == seq(|records| - 1, i requires 0 <= i < |records| - 1 => RecordEmit(columns, records[1..][i], parseUuid));
  }

  /** Records whose value is null contribute nothing: the batch writes what its other records write. */
  lemma {:induction false} BatchSkipsNullValues(columns: seq<Column>, records: seq<Record>, parseUuid: UuidParser)
    ensures BatchEmit(columns, records, parseUuid) == BatchEmit(columns, WithValue(records), parseUuid)
    decreases |records|
  {
    if |records| > 0 {
      BatchEmitCons(columns, records, parseUuid);
      BatchSkipsNullValues(columns, records[1..], parseUuid);
      if records[0].hasValue {
        BatchEmitCons(columns, WithValue(records), parseUuid);
        assert WithValue(records)[1..] == WithValue(records[1..]);
      }
    }
  }

  // ---------------------------------------------------------------------
  // A reference RowBinary reader
  // ---------------------------------------------------------------------

  /** A decoded value: what a RowBinary reader of the column's type sees. */
  datatype Cell =
    | CNull                             // the null marker
    | CEmpty                            // a type whose writer writes nothing
    | CInt(n: int)                      // an integer, or a float's bit pattern
    | CBool(z: bool)
    | CBytes(payload: seq<byte>)        // a string's bytes
    | CUuid(msb: int, lsb: int)
    | CList(items: seq<Cell>)
    | CPairs(pairs: seq<(Cell, Cell)>)

  /** `w` bytes as an unsigned little-endian value, and what follows them. */
  function Take(bs: seq<byte>, w: nat): Option<(nat, seq<byte>)>
  {
    if |bs| < w then None else Some((ReadLE(bs[..w]), bs[w..]))
  }

  function ReadUnsigned(bs: seq<byte>, w: nat): Option<(Cell, seq<byte>)>
  {
    var r :- Take(bs, w);
    Some((CInt(r.0), r.1))
  }

  function ReadSigned(bs: seq<byte>, w: nat): Option<(Cell, seq<byte>)>
  {
    var r :- Take(bs, w);
    Some((CInt(Signed(r.0, w)), r.1))
  }

  function ReadPrimitive(t: ColumnType, bs: seq<byte>): Option<(Cell, seq<byte>)>
  {
    match t
    case INT8 => ReadSigned(bs, 1)
    case INT16 => ReadSigned(bs, 2)
    case INT32 => ReadSigned(bs, 4)
    case INT64 => ReadSigned(bs, 8)
    case UINT8 => ReadUnsigned(bs, 1)
    case UINT16 => ReadUnsigned(bs, 2)
    case UINT32 | FLOAT32 => ReadUnsigned(bs, 4)
    case UINT64 | FLOAT64 => ReadUnsigned(bs, 8)
    case BOOLEAN => if |bs| == 0 then None else Some((CBool(bs[0] != 0), bs[1..]))
    case STRING =>
      var len :- ReadVarInt(bs);
      if |len.1| < len.0 then None else Some((CBytes(len.1[..len.0]), len.1[len.0..]))
    case UUID =>
      var hi :- Take(bs, 8);
      var lo :- Take(hi.1, 8);
      Some((CUuid(Signed(hi.0, 8), Signed(lo.0, 8)), lo.1))
    case _ => Some((CEmpty, bs))
  }

  function ReadTemporal(t: ColumnType, bs: seq<byte>): Option<(Cell, seq<byte>)>
  {
    match t
    case Date => ReadUnsigned(bs, 2)
    case Date32 => ReadSigned(bs, 4)
    case DateTime => ReadUnsigned(bs, 4)
    case DateTime64 => ReadSigned(bs, 8)
    case _ => Some((CEmpty, bs))
  }

  function ReadElements(t: ColumnType, n: nat, bs: seq<byte>): Option<(seq<Cell>, seq<byte>)>
    decreases n
  {
    if n == 0 then Some(([], bs))
    else
      var first :- ReadPrimitive(t, bs);
      var others :- ReadElements(t, n - 1, first.1);
      Some(([first.0] + others.0, others.1))
  }

  function ReadEntries(kt: ColumnType, vt: ColumnType, n: nat, bs: seq<byte>): Option<(seq<(Cell, Cell)>, seq<byte>)>
    decreases n
  {
    if n == 0 then Some(([], bs))
    else
      var key :- ReadPrimitive(kt, bs);
      var value :- ReadPrimitive(vt, key.1);
      var others :- ReadEntries(kt, vt, n - 1, value.1);
      Some(([(key.0, value.0)] + others.0, others.1))
  }

  /** A var-int count, then that many elements. */
  function ReadArray(t: ColumnType, bs: seq<byte>): Option<(Cell, seq<byte>)>
  {
    var count :- ReadVarInt(bs);
    var elems :- ReadElements(t, count.0, count.1);
    Some((CList(elems.0), elems.1))
  }

  /** A var-int count, then that many key/value pairs. */
  function ReadMap(kt: ColumnType, vt: ColumnType, bs: seq<byte>): Option<(Cell, seq<byte>)>
  {
    var count :- ReadVarInt(bs);
    var entries :- ReadEntries(kt, vt, count.0, count.1);
    Some((CPairs(entries.0), entries.1))
  }

  function ReadValue(col: Column, bs: seq<byte>): Option<(Cell, seq<byte>)>
  {
    match col.colType
    case MAP => ReadMap(col.mapKeyType, col.mapValueType, bs)
    case ARRAY => ReadArray(col.subType, bs)
    case Date | Date32 | DateTime | DateTime64 => ReadTemporal(col.colType, bs)
    case _ => ReadPrimitive(col.colType, bs)
  }

  /** A Nullable column starts with a marker; a null has nothing after it. */
  function ReadColumn(col: Column, bs: seq<byte>): Option<(Cell, seq<byte>)>
  {
    if !col.nullable then ReadValue(col, bs)
    else if |bs| == 0 then None
    else if bs[0] == NULL_MARKER then Some((CNull, bs[1..]))
    else if bs[0] == NON_NULL_MARKER then ReadValue(col, bs[1..])
    else None
  }

  function ReadRow(columns: seq<Column>, bs: seq<byte>): Option<(seq<Cell>, seq<byte>)>
    decreases |columns|
  {
    if |columns| == 0 then Some(([], bs))
    else
      var first :- ReadColumn(columns[0], bs);
      var others :- ReadRow(columns[1..], first.1);
      Some(([first.0] + others.0, others.1))
  }

  function ReadRows(columns: seq<Column>, n: nat, bs: seq<byte>): Option<(seq<seq<Cell>>, seq<byte>)>
    decreases n
  {
    if n == 0 then Some(([], bs))
    else
      var first :- ReadRow(columns, bs);
      var others :- ReadRows(columns, n - 1, first.1);
      Some(([first.0] + others.0, others.1))
  }

  // ---------------------------------------------------------------------
  // What a reader should see: the record's values, not their bytes
  // ---------------------------------------------------------------------

  /** The value of a Java object as a column of type `t` holds it. */
  function PrimitiveCell(t: ColumnType, v: JValue, parseUuid: UuidParser): Cell
  {
    if v.JNull? then CNull
    else match t
      case INT8 | UINT8 => if v.JByte? then CInt(v.b) else CEmpty
      case INT16 | UINT16 => if v.JShort? then CInt(v.sh) else CEmpty
      case INT32 | UINT32 => if v.JInteger? then CInt(v.i) else CEmpty
      case INT64 => if v.JLong? then CInt(v.l) else CEmpty
      case UINT64 =>
        // a negative long is read back as its unsigned 64-bit reinterpretation
        if !v.JLong? then CEmpty
        else CInt(if v.l < 0 then v.l + 0x1_0000_0000_0000_0000 else v.l)
      case FLOAT32 => if v.JFloat? then CInt(v.floatBits) else CEmpty
      case FLOAT64 => if v.JDouble? then CInt(v.doubleBits) else CEmpty
      case BOOLEAN => if v.JBoolean? then CBool(v.z) else CEmpty
      case STRING => if v.JString? then CBytes(Utf8(v.str)) else CEmpty
      case UUID =>
        if v.JString? && parseUuid(v.str).Some? then CUuid(parseUuid(v.str).value.msb, parseUuid(v.str).value.lsb)
        else CEmpty
      case _ => CEmpty
  }

  function TemporalCell(t: ColumnType, d: Data): Cell
  {
    if d.obj.JNull? then CNull
    else match t
      case Date | Date32 => if d.obj.JInteger? then CInt(d.obj.i) else CEmpty
      case DateTime | DateTime64 => if d.obj.JLong? then CInt(d.obj.l) else CEmpty
      case _ => CEmpty
  }

  function ElementCells(t: ColumnType, xs: seq<JValue>, parseUuid: UuidParser): seq<Cell>
  {
    seq(|xs|, i requires 0 <= i < |xs| => PrimitiveCell(t, xs[i], parseUuid))
  }

  function EntryCells(kt: ColumnType, vt: ColumnType, es: seq<(JValue, JValue)>, parseUuid: UuidParser): seq<(Cell, Cell)>
  {
    seq(|es|, i requires 0 <= i < |es| => (PrimitiveCell(kt, es[i].0, parseUuid), PrimitiveCell(vt, es[i].1, parseUuid)))
  }

  function ValueCell(col: Column, d: Data, parseUuid: UuidParser): Cell
  {
    match col.colType
    case MAP => if d.obj.JMap? then CPairs(EntryCells(col.mapKeyType, col.mapValueType, d.obj.entries, parseUuid)) else CEmpty
    case ARRAY => if d.obj.JList? then CList(ElementCells(col.subType, d.obj.elems, parseUuid)) else CEmpty
    case Date | Date32 | DateTime | DateTime64 => TemporalCell(col.colType, d)
    case _ => PrimitiveCell(col.colType, d.obj, parseUuid)
  }

  /** An absent field reads back as null. */
  function ColumnCell(col: Column, record: Record, parseUuid: UuidParser): Cell
  {
    if col.name in record.jsonMap then ValueCell(col, record.jsonMap[col.name], parseUuid) else CNull
  }

  function RowCells(columns: seq<Column>, record: Record, parseUuid: UuidParser): seq<Cell>
  {
    seq(|columns|, j requires 0 <= j < |columns| => ColumnCell(columns[j], record, parseUuid))
  }

  function RowsCells(columns: seq<Column>, records: seq<Record>, parseUuid: UuidParser): seq<seq<Cell>>
  {
    seq(|records|, i requires 0 <= i < |records| => RowCells(columns, records[i], parseUuid))
  }

  /** One row per record whose value is non-null, in batch order. */
  function BatchCells(columns: seq<Column>, records: seq<Record>, parseUuid: UuidParser): seq<seq<Cell>>
  {
    RowsCells(columns, WithValue(records), parseUuid)
  }

  /**
   * No element of a list and no key or value of a map in the record is
   * null.  A null element is written as a lone null marker while a
   * non-null one gets no marker, so a reader cannot tell them apart.
   */
  predicate NullFree(v: JValue)
  {
    match v
    case JList(xs) => forall i :: 0 <= i < |xs| ==> !xs[i].JNull?
    case JMap(es) => forall i :: 0 <= i < |es| ==> !es[i].0.JNull? && !es[i].1.JNull?
    case _ => true
  }

  predicate ContainersNullFree(record: Record)
  {
    forall k :: k in record.jsonMap ==> NullFree(record.jsonMap[k].obj)
  }

  // ---------------------------------------------------------------------
  // Round trips
  // ---------------------------------------------------------------------

  lemma TakeLE(n: nat, w: nat, rest: seq<byte>)
    requires n < Range(w)
    ensures Take(LE(n, w) + rest, w) == Some((n, rest))
  {
    ReadLEOfLE(n, w);
    assert (LE(n, w) + rest)[..w] == LE(n, w);
    assert (LE(n, w) + rest)[w..] == rest;
  }

  lemma TakeSigned(v: int, w: nat, rest: seq<byte>)
    requires -(Range(w) / 2) <= v < Range(w) / 2
    ensures ReadSigned(LE(TwosComplement(v, w), w) + rest, w) == Some((CInt(v), rest))
  {
    TakeLE(TwosComplement(v, w), w, rest);
    SignedOfTwosComplement(v, w);
  }

  /** The integer and floating-point types read back their value (a float's bit pattern). */
  lemma NumberRoundTrip(t: ColumnType, v: JValue, parseUuid: UuidParser, rest: seq<byte>)
    requires t in {INT8, INT16, INT32, INT64, UINT8, UINT16, UINT32, UINT64, FLOAT32, FLOAT64}
    requires !v.JNull? && PrimitiveEmit(t, v, parseUuid).fault.None?
    ensures ReadPrimitive(t, PrimitiveEmit(t, v, parseUuid).bytes + rest) == Some((PrimitiveCell(t, v, parseUuid), rest))
  {
    RangeValues();
    match t
    case INT8 => TakeSigned(v.b, 1, rest);
    case INT16 => TakeSigned(v.sh, 2, rest);
    case INT32 => TakeSigned(v.i, 4, rest);
    case INT64 => TakeSigned(v.l, 8, rest);
    case UINT8 => TakeLE(v.b, 1, rest);
    case UINT16 => TakeLE(v.sh, 2, rest);
    case UINT32 => TakeLE(v.i, 4, rest);
    case UINT64 => TakeLE(TwosComplement(v.l, 8), 8, rest);
    case FLOAT32 => TakeLE(v.floatBits, 4, rest);
    case FLOAT64 => TakeLE(v.doubleBits, 8, rest);
  }

  lemma StringRoundTrip(s: string, rest: seq<byte>)
    ensures ReadPrimitive(STRING, StringBytes(Utf8(s)) + rest) == Some((CBytes(Utf8(s)), rest))
  {
    var u := Utf8(s);
    ReadVarIntOfVarInt(|u|, u + rest);
    assert StringBytes(u) + rest == VarInt(|u|) + (u + rest);
    assert (u + rest)[..|u|] == u;
    assert (u + rest)[|u|..] == rest;
  }

  lemma UuidRoundTrip(u: Uuid, rest: seq<byte>)
    ensures ReadPrimitive(UUID, UuidBytes(u) + rest) == Some((CUuid(u.msb, u.lsb), rest))
  {
    RangeValues();
    var lo := Int64Bytes(u.lsb);
    assert UuidBytes(u) + rest == Int64Bytes(u.msb) + (lo + rest);
    TakeSigned(u.msb, 8, lo + rest);
    TakeSigned(u.lsb, 8, rest);
  }

  /** Reading back a non-null value `doWritePrimitive` wrote gives the value and leaves what follows. */
  lemma PrimitiveRoundTrip(t: ColumnType, v: JValue, parseUuid: UuidParser, rest: seq<byte>)
    requires !v.JNull? && PrimitiveEmit(t, v, parseUuid).fault.None?
    ensures ReadPrimitive(t, PrimitiveEmit(t, v, parseUuid).bytes + rest) == Some((PrimitiveCell(t, v, parseUuid), rest))
  {
    if t in {INT8, INT16, INT32, INT64, UINT8, UINT16, UINT32, UINT64, FLOAT32, FLOAT64} {
      NumberRoundTrip(t, v, parseUuid, rest);
    } else if t == BOOLEAN {
      assert (BooleanBytes(v.z) + rest)[1..] == rest;
    } else if t == STRING {
      StringRoundTrip(v.str, rest);
    } else if t == UUID {
      UuidRoundTrip(parseUuid(v.str).value, rest);
    } else {
      assert PrimitiveEmit(t, v, parseUuid).bytes + rest == rest;
    }
  }

  lemma DatesRoundTrip(t: ColumnType, d: Data, rest: seq<byte>)
    requires !d.obj.JNull? && DatesEmit(t, d).fault.None?
    ensures ReadTemporal(t, DatesEmit(t, d).bytes + rest) == Some((TemporalCell(t, d), rest))
  {
    RangeValues();
    match t
    case Date => TakeLE(d.obj.i, 2, rest);
    case Date32 => TakeSigned(d.obj.i, 4, rest);
    case DateTime => TakeLE(d.obj.l, 4, rest);
    case DateTime64 => TakeSigned(d.obj.l, 8, rest);
    case _ => assert DatesEmit(t, d).bytes + rest == rest;
  }

  lemma ElementsNil(t: ColumnType, xs: seq<JValue>, parseUuid: UuidParser)
    requires |xs| == 0
    ensures ElementsEmit(t, xs, parseUuid) == Done([]) && ElementCells(t, xs, parseUuid) == []
  {
    assert seq(|xs|, i requires 0 <= i < |xs| => PrimitiveEmit(t, xs[i], parseUuid)) == [];
  }

  lemma EntriesNil(kt: ColumnType, vt: ColumnType, es: seq<(JValue, JValue)>, parseUuid: UuidParser)
    requires |es| == 0
    ensures EntriesEmit(kt, vt, es, parseUuid) == Done([]) && EntryCells(kt, vt, es, parseUuid) == []
  {
    assert seq(|es|, i requires 0 <= i < |es| => EntryEmit(kt, vt, es[i], parseUuid)) == [];
  }

  lemma RowNil(columns: seq<Column>, record: Record, parseUuid: UuidParser)
    requires |columns| == 0
    ensures RowEmit(columns, record, parseUuid) == Done([]) && RowCells(columns, record, parseUuid) == []
  {
    assert seq(|columns|, j requires 0 <= j < |columns| => ColEmit(columns[j], record, parseUuid)) == [];
  }

  lemma ElementsEmitCons(t: ColumnType, xs: seq<JValue>, parseUuid: UuidParser)
    requires |xs| > 0
    ensures ElementsEmit(t, xs, parseUuid) == Then(PrimitiveEmit(t, xs[0], parseUuid), ElementsEmit(t, xs[1..], parseUuid))
    ensures ElementCells(t, xs, parseUuid) == [PrimitiveCell(t, xs[0], parseUuid)] + ElementCells(t, xs[1..], parseUuid)
  {
    ElementEmitsTail(t, xs, parseUuid);
    ElementsEmitUnfold(t, xs, parseUuid);
    ElementCellsCons(t, xs, parseUuid);
  }

  lemma ElementEmitsTail(t: ColumnType, xs: seq<JValue>, parseUuid: UuidParser)
    requires |xs| > 0
    ensures seq(|xs|, i requires 0 <= i < |xs| => PrimitiveEmit(t, xs[i], parseUuid))[1..] ==
            seq(|xs| - 1, i requires 0 <= i < |xs| - 1 => PrimitiveEmit(t, xs[1..][i], parseUuid))
  {
  }

  lemma ElementsEmitUnfold(t: ColumnType, xs: seq<JValue>, parseUuid: UuidParser)
    requires |xs| > 0
    ensures ElementsEmit(t, xs, parseUuid) ==
      Then(PrimitiveEmit(t, xs[0], parseUuid), Chain(seq(|xs|, i requires 0 <= i < |xs| => PrimitiveEmit(t, xs[i], parseUuid))[1..]))
  {
  }

  lemma ElementCellsCons(t: ColumnType, xs: seq<JValue>, parseUuid: UuidParser)
    requires |xs| > 0
    ensures ElementCells(t, xs, parseUuid) == [PrimitiveCell(t, xs[0], parseUuid)] + ElementCells(t, xs[1..], parseUuid)
  {
    var cs := ElementCells(t, xs, parseUuid);
    assert cs[1..] == ElementCells(t, xs[1..], parseUuid);
    assert cs == [cs[0]] + cs[1..];
  }

  lemma EntriesEmitCons(kt: ColumnType, vt: ColumnType, es: seq<(JValue, JValue)>, parseUuid: UuidParser)
    requires |es| > 0
    ensures EntriesEmit(kt, vt, es, parseUuid) == Then(EntryEmit(kt, vt, es[0], parseUuid), EntriesEmit(kt, vt, es[1..], parseUuid))
  {
    EntryEmitsTail(kt, vt, es, parseUuid);
    EntriesEmitUnfold(kt, vt, es, parseUuid);
  }

  lemma EntryEmitsTail(kt: ColumnType, vt: ColumnType, es: seq<(JValue, JValue)>, parseUuid: UuidParser)
    requires |es| > 0
    ensures seq(|es|, i requires 0 <= i < |es| => EntryEmit(kt, vt, es[i], parseUuid))[1..] ==
            seq(|es| - 1, i requires 0 <= i < |es| - 1 => EntryEmit(kt, vt, es[1..][i], parseUuid))
  {
  }

  lemma EntriesEmitUnfold(kt: ColumnType, vt: ColumnType, es: seq<(JValue, JValue)>, parseUuid: UuidParser)
    requires |es| > 0
    ensures EntriesEmit(kt, vt, es, parseUuid) ==
      Then(EntryEmit(kt, vt, es[0], parseUuid), Chain(seq(|es|, i requires 0 <= i < |es| => EntryEmit(kt, vt, es[i], parseUuid))[1..]))
  {
  }

  lemma EntryCellsCons(kt: ColumnType, vt: ColumnType, es: seq<(JValue, JValue)>, parseUuid: UuidParser)
    requires |es| > 0
    ensures EntryCells(kt, vt, es, parseUuid) ==
      [(PrimitiveCell(kt, es[0].0, parseUuid), PrimitiveCell(vt, es[0].1, parseUuid))] + EntryCells(kt, vt, es[1..], parseUuid)
  {
    var cs := EntryCells(kt, vt, es, parseUuid);
    assert cs[1..] == EntryCells(kt, vt, es[1..], parseUuid);
    assert cs == [cs[0]] + cs[1..];
  }

  lemma RowsCellsCons(columns: seq<Column>, records: seq<Record>, parseUuid: UuidParser)
    requires |records| > 0
    ensures RowsCells(columns, records, parseUuid) == [RowCells(columns, records[0], parseUuid)] + RowsCells(columns, records[1..], parseUuid)
  {
    var rs := RowsCells(columns, records, parseUuid);
    assert rs[1..] == RowsCells(columns, records[1..], parseUuid);
    assert rs == [rs[0]] + rs[1..];
  }

  lemma RowEmitCons(columns: seq<Column>, record: Record, parseUuid: UuidParser)
    requires |columns| > 0
    ensures RowEmit(columns, record, parseUuid) == Then(ColEmit(columns[0], record, parseUuid), RowEmit(columns[1..], record, parseUuid))
    ensures RowCells(columns, record, parseUuid) == [ColumnCell(columns[0], record, parseUuid)] + RowCells(columns[1..], record, parseUuid)
  {
    ColEmitsTail(columns, record, parseUuid);
    RowEmitUnfold(columns, record, parseUuid);
    RowCellsCons(columns, record, parseUuid);
  }

  lemma ColEmitsTail(columns: seq<Column>, record: Record, parseUuid: UuidParser)
    requires |columns| > 0
    ensures seq(|columns|, j requires 0 <= j < |columns| => ColEmit(columns[j], record, parseUuid))[1..] ==
            seq(|columns| - 1, j requires 0 <= j < |columns| - 1 => ColEmit(columns[1..][j], record, parseUuid))
  {
  }

  lemma RowEmitUnfold(columns: seq<Column>, record: Record, parseUuid: UuidParser)
    requires |columns| > 0
    ensures RowEmit(columns, record, parseUuid) ==
      Then(ColEmit(columns[0], record, parseUuid), Chain(seq(|columns|, j requires 0 <= j < |columns| => ColEmit(columns[j], record, parseUuid))[1..]))
  {
  }

  lemma RowCellsCons(columns: seq<Column>, record: Record, parseUuid: UuidParser)
    requires |columns| > 0
    ensures RowCells(columns, record, parseUuid) == [ColumnCell(columns[0], record, parseUuid)] + RowCells(columns[1..], record, parseUuid)
  {
    var cs := RowCells(columns, record, parseUuid);
    assert cs[1..] == RowCells(columns[1..], record, parseUuid);
    assert cs == [cs[0]] + cs[1..];
  }

  /** Reading `a` then `b` from the bytes of `Then(a, b)`, when neither throws. */
  lemma ThenBytes(a: Emit, b: Emit, rest: seq<byte>)
    requires a.fault.None?
    ensures Then(a, b).bytes + rest == a.bytes + (b.bytes + rest)
  {
  }

  lemma ReadElementsFrom(t: ColumnType, n: nat, bs: seq<byte>, cell: Cell, after: seq<byte>, cells: seq<Cell>, rest: seq<byte>)
    requires ReadPrimitive(t, bs) == Some((cell, after))
    requires ReadElements(t, n, after) == Some((cells, rest))
    ensures ReadElements(t, n + 1, bs) == Some(([cell] + cells, rest))
  {
  }

  lemma {:induction false} ElementsRoundTrip(t: ColumnType, xs: seq<JValue>, parseUuid: UuidParser, rest: seq<byte>)
    requires forall i :: 0 <= i < |xs| ==> !xs[i].JNull?
    requires ElementsEmit(t, xs, parseUuid).fault.None?
    ensures ReadElements(t, |xs|, ElementsEmit(t, xs, parseUuid).bytes + rest) == Some((ElementCells(t, xs, parseUuid), rest))
    decreases |xs|
  {
    if |xs| > 0 {
      ElementsEmitCons(t, xs, parseUuid);
      var head := PrimitiveEmit(t, xs[0], parseUuid);
      var tail := ElementsEmit(t, xs[1..], parseUuid);
      assert head.fault.None? && tail.fault.None?;
      ThenBytes(head, tail, rest);
      ElementsRoundTrip(t, xs[1..], parseUuid, rest);
      PrimitiveRoundTrip(t, xs[0], parseUuid, tail.bytes + rest);
      ReadElementsFrom(t, |xs| - 1, head.bytes + (tail.bytes + rest), PrimitiveCell(t, xs[0], parseUuid),
                       tail.bytes + rest, ElementCells(t, xs[1..], parseUuid), rest);
    } else {
      ElementsNil(t, xs, parseUuid);
      assert ElementsEmit(t, xs, parseUuid).bytes + rest == rest;
    }
  }

  lemma ReadEntriesFrom(kt: ColumnType, vt: ColumnType, n: nat, bs: seq<byte>, key: Cell, afterKey: seq<byte>,
                        value: Cell, afterValue: seq<byte>, pairs: seq<(Cell, Cell)>, rest: seq<byte>)
    requires ReadPrimitive(kt, bs) == Some((key, afterKey))
    requires ReadPrimitive(vt, afterKey) == Some((value, afterValue))
    requires ReadEntries(kt, vt, n, afterValue) == Some((pairs, rest))
    ensures ReadEntries(kt, vt, n + 1, bs) == Some(([(key, value)] + pairs, rest))
  {
  }

  lemma {:induction false} EntriesRoundTrip(kt: ColumnType, vt: ColumnType, es: seq<(JValue, JValue)>,
                                            parseUuid: UuidParser, rest: seq<byte>)
    requires forall i :: 0 <= i < |es| ==> !es[i].0.JNull? && !es[i].1.JNull?
    requires EntriesEmit(kt, vt, es, parseUuid).fault.None?
    ensures ReadEntries(kt, vt, |es|, EntriesEmit(kt, vt, es, parseUuid).bytes + rest)
         == Some((EntryCells(kt, vt, es, parseUuid), rest))
    decreases |es|
  {
    if |es| > 0 {
      EntriesEmitCons(kt, vt, es, parseUuid);
      EntryCellsCons(kt, vt, es, parseUuid);
      var head := EntryEmit(kt, vt, es[0], parseUuid);
      var tail := EntriesEmit(kt, vt, es[1..], parseUuid);
      assert head.fault.None? && tail.fault.None?;
      forall i | 0 <= i < |es[1..]| ensures !es[1..][i].0.JNull? && !es[1..][i].1.JNull? {
        assert es[1..][i] == es[i + 1];
      }
      ThenBytes(head, tail, rest);
      EntriesRoundTrip(kt, vt, es[1..], parseUuid, rest);
      EntryRoundTrip(kt, vt, es[0], parseUuid, tail.bytes + rest);
      ReadEntriesFrom(kt, vt, |es| - 1, head.bytes + (tail.bytes + rest),
                      PrimitiveCell(kt, es[0].0, parseUuid), PrimitiveEmit(vt, es[0].1, parseUuid).bytes + (tail.bytes + rest),
                      PrimitiveCell(vt, es[0].1, parseUuid), tail.bytes + rest,
                      EntryCells(kt, vt, es[1..], parseUuid), rest);
    } else {
      EntriesNil(kt, vt, es, parseUuid);
      assert EntriesEmit(kt, vt, es, parseUuid).bytes + rest == rest;
    }
  }

  /** One entry reads back as its key cell, then its value cell. */
  lemma EntryRoundTrip(kt: ColumnType, vt: ColumnType, e: (JValue, JValue), parseUuid: UuidParser, after: seq<byte>)
    requires !e.0.JNull? && !e.1.JNull? && EntryEmit(kt, vt, e, parseUuid).fault.None?
    ensures var mid := PrimitiveEmit(vt, e.1, parseUuid).bytes + after;
      && ReadPrimitive(kt, EntryEmit(kt, vt, e, parseUuid).bytes + after) == Some((PrimitiveCell(kt, e.0, parseUuid), mid))
      && ReadPrimitive(vt, mid) == Some((PrimitiveCell(vt, e.1, parseUuid), after))
  {
    var key := PrimitiveEmit(kt, e.0, parseUuid);
    var value := PrimitiveEmit(vt, e.1, parseUuid);
    ThenBytes(key, value, after);
    PrimitiveRoundTrip(vt, e.1, parseUuid, after);
    PrimitiveRoundTrip(kt, e.0, parseUuid, value.bytes + after);
  }

  lemma ReadArrayAfterCount(t: ColumnType, bs: seq<byte>, n: nat, after: seq<byte>, cells: seq<Cell>, rest: seq<byte>)
    requires ReadVarInt(bs) == Some((n, after))
    requires ReadElements(t, n, after) == Some((cells, rest))
    ensures ReadArray(t, bs) == Some((CList(cells), rest))
  {
  }

  lemma ReadMapAfterCount(kt: ColumnType, vt: ColumnType, bs: seq<byte>, n: nat, after: seq<byte>,
                          pairs: seq<(Cell, Cell)>, rest: seq<byte>)
    requires ReadVarInt(bs) == Some((n, after))
    requires ReadEntries(kt, vt, n, after) == Some((pairs, rest))
    ensures ReadMap(kt, vt, bs) == Some((CPairs(pairs), rest))
  {
  }

  /** A var-int count followed by that many elements reads back as a list. */
  lemma ReadArrayFrom(t: ColumnType, n: nat, body: seq<byte>, cells: seq<Cell>, rest: seq<byte>)
    requires ReadElements(t, n, body + rest) == Some((cells, rest))
    ensures ReadArray(t, VarInt(n) + body + rest) == Some((CList(cells), rest))
  {
    var bs := VarInt(n) + body + rest;
    assert bs == VarInt(n) + (body + rest);
    ReadVarIntOfVarInt(n, body + rest);
    ReadArrayAfterCount(t, bs, n, body + rest, cells, rest);
  }

  /** A var-int count followed by that many entries reads back as a map. */
  lemma ReadMapFrom(kt: ColumnType, vt: ColumnType, n: nat, body: seq<byte>, pairs: seq<(Cell, Cell)>, rest: seq<byte>)
    requires ReadEntries(kt, vt, n, body + rest) == Some((pairs, rest))
    ensures ReadMap(kt, vt, VarInt(n) + body + rest) == Some((CPairs(pairs), rest))
  {
    var bs := VarInt(n) + body + rest;
    assert bs == VarInt(n) + (body + rest);
    ReadVarIntOfVarInt(n, body + rest);
    ReadMapAfterCount(kt, vt, bs, n, body + rest, pairs, rest);
  }

  lemma ArrayEmitShape(t: ColumnType, v: JValue, parseUuid: UuidParser)
    requires v.JList?
    ensures ArrayEmit(t, v, parseUuid) ==
      Emit(VarInt(|v.elems|) + ElementsEmit(t, v.elems, parseUuid).bytes, ElementsEmit(t, v.elems, parseUuid).fault)
  {
  }

  lemma MapEmitShape(kt: ColumnType, vt: ColumnType, v: JValue, parseUuid: UuidParser)
    requires v.JMap?
    ensures MapEmit(kt, vt, v, parseUuid) ==
      Emit(VarInt(|v.entries|) + EntriesEmit(kt, vt, v.entries, parseUuid).bytes, EntriesEmit(kt, vt, v.entries, parseUuid).fault)
  {
  }

  /** The count prefix of an Array is the list's size, and exactly that many elements follow, in list order. */
  lemma ArrayRoundTrip(t: ColumnType, v: JValue, parseUuid: UuidParser, rest: seq<byte>)
    requires v.JList? && NullFree(v) && ArrayEmit(t, v, parseUuid).fault.None?
    ensures ReadArray(t, ArrayEmit(t, v, parseUuid).bytes + rest) == Some((CList(ElementCells(t, v.elems, parseUuid)), rest))
  {
    ArrayEmitShape(t, v, parseUuid);
    ElementsRoundTrip(t, v.elems, parseUuid, rest);
    ReadArrayFrom(t, |v.elems|, ElementsEmit(t, v.elems, parseUuid).bytes, ElementCells(t, v.elems, parseUuid), rest);
  }

  /** The count prefix of a Map is its size, and exactly that many key/value pairs follow, in iteration order. */
  lemma MapRoundTrip(kt: ColumnType, vt: ColumnType, v: JValue, parseUuid: UuidParser, rest: seq<byte>)
    requires v.JMap? && NullFree(v) && MapEmit(kt, vt, v, parseUuid).fault.None?
    ensures ReadMap(kt, vt, MapEmit(kt, vt, v, parseUuid).bytes + rest)
         == Some((CPairs(EntryCells(kt, vt, v.entries, parseUuid)), rest))
  {
    MapEmitShape(kt, vt, v, parseUuid);
    EntriesRoundTrip(kt, vt, v.entries, parseUuid, rest);
    ReadMapFrom(kt, vt, |v.entries|, EntriesEmit(kt, vt, v.entries, parseUuid).bytes,
                EntryCells(kt, vt, v.entries, parseUuid), rest);
  }

  // ---------------------------------------------------------------------
  // Containers of types doWritePrimitive has no case for
  // ---------------------------------------------------------------------

  /**
   * `doWritePrimitive` has no case for Date, Date32, DateTime, DateTime64,
   * MAP or ARRAY: a non-null value of such a type adds no bytes.
   */
  lemma UnwrittenPrimitive(t: ColumnType, v: JValue, parseUuid: UuidParser)
    requires !IsPrimitive(t) && !v.JNull?
    ensures PrimitiveEmit(t, v, parseUuid) == Done([])
    ensures PrimitiveCell(t, v, parseUuid) == CEmpty
  {
  }

  /** The reader of this layout takes no bytes for such a type either. */
  lemma ReadUnwrittenPrimitive(t: ColumnType, bs: seq<byte>)
    requires !IsPrimitive(t)
    ensures ReadPrimitive(t, bs) == Some((CEmpty, bs))
  {
  }

  lemma {:induction false} UnwrittenElements(t: ColumnType, xs: seq<JValue>, parseUuid: UuidParser)
    requires !IsPrimitive(t)
    requires forall i :: 0 <= i < |xs| ==> !xs[i].JNull?
    ensures ElementsEmit(t, xs, parseUuid) == Done([])
    decreases |xs|
  {
    if |xs| == 0 {
      ElementsNil(t, xs, parseUuid);
    } else {
      ElementsEmitCons(t, xs, parseUuid);
      UnwrittenPrimitive(t, xs[0], parseUuid);
      UnwrittenElements(t, xs[1..], parseUuid);
    }
  }

  lemma {:induction false} UnwrittenEntries(kt: ColumnType, vt: ColumnType, es: seq<(JValue, JValue)>, parseUuid: UuidParser)
    requires !IsPrimitive(kt) && !IsPrimitive(vt)
    requires forall i :: 0 <= i < |es| ==> !es[i].0.JNull? && !es[i].1.JNull?
    ensures EntriesEmit(kt, vt, es, parseUuid) == Done([])
    decreases |es|
  {
    if |es| == 0 {
      EntriesNil(kt, vt, es, parseUuid);
    } else {
      EntriesEmitCons(kt, vt, es, parseUuid);
      UnwrittenPrimitive(kt, es[0].0, parseUuid);
      UnwrittenPrimitive(vt, es[0].1, parseUuid);
      UnwrittenEntries(kt, vt, es[1..], parseUuid);
    }
  }

  /** `n` cells holding no value. */
  function Empties(n: nat): (r: seq<Cell>)
    ensures |r| == n && forall i :: 0 <= i < n ==> r[i] == CEmpty
  {
    if n == 0 then [] else [CEmpty] + Empties(n - 1)
  }

  /** `n` pairs of cells holding no value. */
  function EmptyPairs(n: nat): (r: seq<(Cell, Cell)>)
    ensures |r| == n && forall i :: 0 <= i < n ==> r[i] == (CEmpty, CEmpty)
  {
    if n == 0 then [] else [(CEmpty, CEmpty)] + EmptyPairs(n - 1)
  }

  /** The reader takes no bytes for any of `n` elements of such a type. */
  lemma {:induction false} ReadUnwrittenElements(t: ColumnType, n: nat, bs: seq<byte>)
    requires !IsPrimitive(t)
    ensures ReadElements(t, n, bs) == Some((Empties(n), bs))
    decreases n
  {
    if n > 0 {
      ReadUnwrittenPrimitive(t, bs);
      ReadUnwrittenElements(t, n - 1, bs);
    }
  }

  lemma {:induction false} ReadUnwrittenEntries(kt: ColumnType, vt: ColumnType, n: nat, bs: seq<byte>)
    requires !IsPrimitive(kt) && !IsPrimitive(vt)
    ensures ReadEntries(kt, vt, n, bs) == Some((EmptyPairs(n), bs))
    decreases n
  {
    if n > 0 {
      ReadUnwrittenPrimitive(kt, bs);
      ReadUnwrittenPrimitive(vt, bs);
      ReadUnwrittenEntries(kt, vt, n - 1, bs);
    }
  }

  /**
   * An Array of Date, Date32, DateTime, DateTime64, MAP or ARRAY elements
   * writes its count and nothing else: the elements are lost, and the
   * round trip above holds only because this reader skips them the same way.
   */
  lemma ArrayOfUnwrittenType(t: ColumnType, v: JValue, parseUuid: UuidParser, rest: seq<byte>)
    requires v.JList? && NullFree(v) && !IsPrimitive(t)
    ensures ArrayEmit(t, v, parseUuid) == Done(VarInt(|v.elems|))
    ensures ReadArray(t, VarInt(|v.elems|) + rest) == Some((CList(Empties(|v.elems|)), rest))
  {
    UnwrittenElements(t, v.elems, parseUuid);
    ReadUnwrittenElements(t, |v.elems|, rest);
    assert [] + rest == rest && VarInt(|v.elems|) + [] + rest == VarInt(|v.elems|) + rest;
    ReadArrayFrom(t, |v.elems|, [], Empties(|v.elems|), rest);
  }

  /** A Map whose key and value types `doWritePrimitive` has no case for writes its count and nothing else. */
  lemma MapOfUnwrittenTypes(kt: ColumnType, vt: ColumnType, v: JValue, parseUuid: UuidParser, rest: seq<byte>)
    requires v.JMap? && NullFree(v) && !IsPrimitive(kt) && !IsPrimitive(vt)
    ensures MapEmit(kt, vt, v, parseUuid) == Done(VarInt(|v.entries|))
    ensures ReadMap(kt, vt, VarInt(|v.entries|) + rest) == Some((CPairs(EmptyPairs(|v.entries|)), rest))
  {
    UnwrittenEntries(kt, vt, v.entries, parseUuid);
    ReadUnwrittenEntries(kt, vt, |v.entries|, rest);
    assert [] + rest == rest && VarInt(|v.entries|) + [] + rest == VarInt(|v.entries|) + rest;
    ReadMapFrom(kt, vt, |v.entries|, [], EmptyPairs(|v.entries|), rest);
  }

  /** Reading back a non-null value of a column gives the record's value. */
  lemma ValueRoundTrip(col: Column, d: Data, parseUuid: UuidParser, rest: seq<byte>)
    requires !d.obj.JNull? && NullFree(d.obj)
    requires ValueEmit(col, d, parseUuid).fault.None?
    ensures ReadValue(col, ValueEmit(col, d, parseUuid).bytes + rest) == Some((ValueCell(col, d, parseUuid), rest))
  {
    match col.colType
    case MAP => MapRoundTrip(col.mapKeyType, col.mapValueType, d.obj, parseUuid, rest);
    case ARRAY => ArrayRoundTrip(col.subType, d.obj, parseUuid, rest);
    case Date | Date32 | DateTime | DateTime64 => DatesRoundTrip(col.colType, d, rest);
    case _ => PrimitiveRoundTrip(col.colType, d.obj, parseUuid, rest);
  }

  /** A column whose field is absent or null writes, when it does not throw, the null marker alone. */
  lemma NullColumn(col: Column, record: Record, parseUuid: UuidParser)
    requires col.name !in record.jsonMap || record.jsonMap[col.name].obj.JNull?
    requires ColEmit(col, record, parseUuid).fault.None?
    ensures ColEmit(col, record, parseUuid) == Done([NULL_MARKER])
    ensures col.nullable && ColumnCell(col, record, parseUuid) == CNull
  {
  }

  /** A non-null value, behind the non-null marker when the column is nullable. */
  lemma PresentColumn(col: Column, record: Record, parseUuid: UuidParser)
    requires col.name in record.jsonMap && !record.jsonMap[col.name].obj.JNull?
    requires ColEmit(col, record, parseUuid).fault.None?
    ensures var value := ValueEmit(col, record.jsonMap[col.name], parseUuid);
      value.fault.None? &&
      ColEmit(col, record, parseUuid).bytes == (if col.nullable then [NON_NULL_MARKER] else []) + value.bytes
    ensures ColumnCell(col, record, parseUuid) == ValueCell(col, record.jsonMap[col.name], parseUuid)
  {
  }

  lemma ReadNullFrom(col: Column, rest: seq<byte>)
    requires col.nullable
    ensures ReadColumn(col, [NULL_MARKER] + rest) == Some((CNull, rest))
  {
    assert ([NULL_MARKER] + rest)[1..] == rest;
  }

  lemma ReadMarkedFrom(col: Column, value: seq<byte>, cell: Cell, rest: seq<byte>)
    requires col.nullable && ReadValue(col, value + rest) == Some((cell, rest))
    ensures ReadColumn(col, [NON_NULL_MARKER] + value + rest) == Some((cell, rest))
  {
    assert ([NON_NULL_MARKER] + value + rest)[1..] == value + rest;
  }

  /** Reading back what `doWriteCol` wrote gives the column's value, or null for an absent field. */
  lemma ColumnRoundTrip(col: Column, record: Record, parseUuid: UuidParser, rest: seq<byte>)
    requires ContainersNullFree(record)
    requires ColEmit(col, record, parseUuid).fault.None?
    ensures ReadColumn(col, ColEmit(col, record, parseUuid).bytes + rest) == Some((ColumnCell(col, record, parseUuid), rest))
  {
    if col.name !in record.jsonMap || record.jsonMap[col.name].obj.JNull? {
      NullColumn(col, record, parseUuid);
      ReadNullFrom(col, rest);
    } else {
      var d := record.jsonMap[col.name];
      var value := ValueEmit(col, d, parseUuid);
      PresentColumn(col, record, parseUuid);
      ValueRoundTrip(col, d, parseUuid, rest);
      if col.nullable {
        ReadMarkedFrom(col, value.bytes, ValueCell(col, d, parseUuid), rest);
      } else {
        assert ColEmit(col, record, parseUuid).bytes == value.bytes;
      }
    }
  }

  lemma ReadRowFrom(columns: seq<Column>, bs: seq<byte>, cell: Cell, after: seq<byte>, cells: seq<Cell>, rest: seq<byte>)
    requires |columns| > 0
    requires ReadColumn(columns[0], bs) == Some((cell, after))
    requires ReadRow(columns[1..], after) == Some((cells, rest))
    ensures ReadRow(columns, bs) == Some(([cell] + cells, rest))
  {
  }

  lemma {:induction false} RowRoundTrip(columns: seq<Column>, record: Record, parseUuid: UuidParser, rest: seq<byte>)
    requires ContainersNullFree(record)
    requires RowEmit(columns, record, parseUuid).fault.None?
    ensures ReadRow(columns, RowEmit(columns, record, parseUuid).bytes + rest) == Some((RowCells(columns, record, parseUuid), rest))
    decreases |columns|
  {
    if |columns| > 0 {
      RowEmitCons(columns, record, parseUuid);
      var head := ColEmit(columns[0], record, parseUuid);
      var tail := RowEmit(columns[1..], record, parseUuid);
      ThenBytes(head, tail, rest);
      RowRoundTrip(columns[1..], record, parseUuid, rest);
      ColumnRoundTrip(columns[0], record, parseUuid, tail.bytes + rest);
      ReadRowFrom(columns, head.bytes + (tail.bytes + rest), ColumnCell(columns[0], record, parseUuid),
                  tail.bytes + rest, RowCells(columns[1..], record, parseUuid), rest);
    } else {
      RowNil(columns, record, parseUuid);
      assert RowEmit(columns, record, parseUuid).bytes + rest == rest;
    }
  }

  lemma BatchEmitNil(columns: seq<Column>, records: seq<Record>, parseUuid: UuidParser)
    requires |records| == 0
    ensures BatchEmit(columns, records, parseUuid) == Done([])
    ensures RowsCells(columns, records, parseUuid) == []
  {
    assert seq(|records|, i requires 0 <= i < |records| => RecordEmit(columns, records[i], parseUuid)) == [];
  }

  lemma ReadRowsStep(columns: seq<Column>, n: nat, bs: seq<byte>, afterRow: seq<byte>)
    requires ReadRow(columns, bs).Some? && ReadRow(columns, bs).value.1 == afterRow
    requires ReadRows(columns, n, afterRow).Some?
    ensures ReadRows(columns, n + 1, bs) ==
      Some(([ReadRow(columns, bs).value.0] + ReadRows(columns, n, afterRow).value.0, ReadRows(columns, n, afterRow).value.1))
  {
  }

  lemma {:induction false} RowsRoundTrip(columns: seq<Column>, records: seq<Record>, parseUuid: UuidParser, rest: seq<byte>)
    requires forall i :: 0 <= i < |records| ==> records[i].hasValue && ContainersNullFree(records[i])
    requires BatchEmit(columns, records, parseUuid).fault.None?
    ensures ReadRows(columns, |records|, BatchEmit(columns, records, parseUuid).bytes + rest)
         == Some((RowsCells(columns, records, parseUuid), rest))
    decreases |records|
  {
    if |records| > 0 {
      BatchEmitCons(columns, records, parseUuid);
      RowsCellsCons(columns, records, parseUuid);
      var head := RowEmit(columns, records[0], parseUuid);
      var tail := BatchEmit(columns, records[1..], parseUuid);
      assert RecordEmit(columns, records[0], parseUuid) == head;
      assert head.fault.None? && tail.fault.None?;
      ThenBytes(head, tail, rest);
      RowsRoundTrip(columns, records[1..], parseUuid, rest);
      RowRoundTrip(columns, records[0], parseUuid, tail.bytes + rest);
      ReadRowsStep(columns, |records| - 1, head.bytes + (tail.bytes + rest), tail.bytes + rest);
    } else {
      BatchEmitNil(columns, records, parseUuid);
      assert BatchEmit(columns, records, parseUuid).bytes + rest == rest;
    }
  }

  /**
   * Reading the whole stream back gives one row per record whose value is
   * non-null, in batch order, each holding the record's values in table
   * column order, and nothing is left over.
   */
  lemma BatchRoundTrip(columns: seq<Column>, records: seq<Record>, parseUuid: UuidParser)
    requires forall i :: 0 <= i < |records| ==> ContainersNullFree(records[i])
    requires BatchEmit(columns, records, parseUuid).fault.None?
    ensures ReadRows(columns, |WithValue(records)|, BatchEmit(columns, records, parseUuid).bytes)
         == Some((BatchCells(columns, records, parseUuid), []))
  {
    var kept := WithValue(records);
    BatchSkipsNullValues(columns, records, parseUuid);
    WithValueMembers(records);
    forall i | 0 <= i < |kept| ensures kept[i].hasValue && ContainersNullFree(kept[i]) {
      assert kept[i] in records;
    }
    RowsRoundTrip(columns, kept, parseUuid, []);
    assert BatchEmit(columns, records, parseUuid).bytes + [] == BatchEmit(columns, records, parseUuid).bytes;
  }
}
