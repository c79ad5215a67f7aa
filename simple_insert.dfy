/**
 * The SQL text `doInsertSimple` builds: an INSERT statement naming the
 * first record's fields, then one parenthesised tuple of quoted values
 * per record.
 */
module SimpleInsert {
  import opened Wrappers
  import opened Mapping
  import opened JavaStrings

  /** Every item wrapped in `q` on both sides, in order. */
  function Quoted(items: seq<string>, q: string): (r: seq<string>)
    ensures |r| == |items|
    ensures forall i :: 0 <= i < |items| ==> r[i] == q + items[i] + q
  {
    seq(|items|, i requires 0 <= i < |items| => q + items[i] + q)
  }

  /** `extractFields(fields, prefix, suffix, delimiter, trimChar)`, on the field names. */
  function ExtractFields(fields: seq<string>, prefix: string, suffix: string, delimiter: string, trimChar: string): string
  {
    Joining(Quoted(fields, trimChar), delimiter, prefix, suffix)
  }

  /**
   * `convertHelper(v)`: the value's `toString()`.  A missing field is a
   * null reference, and `toString` on it raises a NullPointerException.
   * The method's List branch never applies: every value is a `Data`.
   */
  function ConvertHelper(v: Option<Data>, dataToString: Data -> string): (r: Result<string, Error>)
    ensures r.Success? <==> v.Some?
    ensures r.Success? ==> r.value == dataToString(v.value)
    ensures r.Failure? ==> r.error == NullPointer
  {
    match v
    case None => Failure(NullPointer)
    case Some(d) => Success(dataToString(d))
  }

  /** `convertHelper` on every value in order, stopping at the first that throws. */
  function ConvertAll(values: seq<Option<Data>>, dataToString: Data -> string): Result<seq<string>, Error>
    decreases |values|
  {
    if |values| == 0 then Success([])
    else
      var init :- ConvertAll(values[..|values| - 1], dataToString);
      var last :- ConvertHelper(values[|values| - 1], dataToString);
      Success(init + [last])
  }

  /** `convertWithStream(values, prefix, suffix, delimiter, trimChar)`. */
  function ConvertWithStream(values: seq<Option<Data>>, prefix: string, suffix: string, delimiter: string,
                             trimChar: string, dataToString: Data -> string): Result<string, Error>
  {
    var strs :- ConvertAll(values, dataToString);
    Success(Joining(Quoted(strs, trimChar), delimiter, prefix, suffix))
  }

  /** The values of a record's declared fields, looked up by name in its field map. */
  function RecordValues(record: Record): (r: seq<Option<Data>>)
    ensures |r| == |record.fields|
  {
    seq(|record.fields|, i requires 0 <= i < |record.fields| =>
      if record.fields[i] in record.jsonMap then Some(record.jsonMap[record.fields[i]]) else None)
  }

  /** One record's tuple: its values quoted in single quotes, comma separated, in parentheses. */
  function RowText(record: Record, dataToString: Data -> string): Result<string, Error>
  {
    ConvertWithStream(RecordValues(record), "(", ")", ",", "'", dataToString)
  }

  /** Every record's tuple in batch order, or the first failure. */
  function RowsText(records: seq<Record>, dataToString: Data -> string): Result<seq<string>, Error>
    decreases |records|
  {
    if |records| == 0 then Success([])
    else
      var init :- RowsText(records[..|records| - 1], dataToString);
      var last :- RowText(records[|records| - 1], dataToString);
      Success(init + [last])
  }

  /** The statement text up to the first tuple. */
  function Header(escapedTopic: string, first: Record): string
  {
    "INSERT INTO " + escapedTopic + " " + ExtractFields(first.fields, "(", ")", ",", "") + " VALUES "
  }

  /** What `doInsertSimple` does with a batch: nothing, a statement, or an exception. */
  datatype SimpleOutcome = NoQuery | Query(sql: string) | Failed(error: Error)

  /** The statement for a batch: the header, then the tuples separated by commas. */
  function InsertStatement(escapeTopicName: string -> string, records: seq<Record>, dataToString: Data -> string): SimpleOutcome
  {
    if |records| == 0 then NoQuery
    else match RowsText(records, dataToString)
      case Failure(e) => Failed(e)
      case Success(rows) => Query(Header(escapeTopicName(records[0].topic), records[0]) + Join(rows, ","))
  }

  /** Each piece followed by `sep`: what appending `piece + sep` in a loop accumulates. */
  function Terminated(pieces: seq<string>, sep: string): string
    decreases |pieces|
  {
    if |pieces| == 0 then "" else Terminated(pieces[..|pieces| - 1], sep) + pieces[|pieces| - 1] + sep
  }

  // ---------------------------------------------------------------------
  // Properties
  // ---------------------------------------------------------------------

  /** The conversion succeeds exactly when every value is present, and then yields their strings in order. */
  lemma {:induction false} ConvertAllSucceeds(values: seq<Option<Data>>, dataToString: Data -> string)
    ensures ConvertAll(values, dataToString).Success? <==> forall i :: 0 <= i < |values| ==> values[i].Some?
    ensures ConvertAll(values, dataToString).Success? ==>
      var strs := ConvertAll(values, dataToString).value;
      |strs| == |values| && forall i :: 0 <= i < |values| ==> strs[i] == dataToString(values[i].value)
    ensures ConvertAll(values, dataToString).Failure? ==> ConvertAll(values, dataToString).error == NullPointer
    decreases |values|
  {
    if |values| > 0 {
      var init := values[..|values| - 1];
      ConvertAllSucceeds(init, dataToString);
      assert forall i :: 0 <= i < |init| ==> init[i] == values[i];
    }
  }

  /** A record's tuple is built exactly when every declared field is in its field map. */
  lemma RowTextSucceeds(record: Record, dataToString: Data -> string)
    ensures RowText(record, dataToString).Success? <==> forall i :: 0 <= i < |record.fields| ==> record.fields[i] in record.jsonMap
    ensures RowText(record, dataToString).Failure? ==> RowText(record, dataToString).error == NullPointer
  {
    var values := RecordValues(record);
    ConvertAllSucceeds(values, dataToString);
    assert forall i :: 0 <= i < |values| ==> (values[i].Some? <==> record.fields[i] in record.jsonMap);
  }

  /** The batch's tuples are built exactly when every record's are. */
  lemma {:induction false} RowsTextSucceeds(records: seq<Record>, dataToString: Data -> string)
    ensures RowsText(records, dataToString).Success? <==>
      forall i :: 0 <= i < |records| ==> RowText(records[i], dataToString).Success?
    decreases |records|
  {
    if |records| > 0 {
      var init := records[..|records| - 1];
      RowsTextSucceeds(init, dataToString);
      if RowsText(records, dataToString).Success? {
        forall i | 0 <= i < |records| ensures RowText(records[i], dataToString).Success? {
          if i < |init| {
            assert records[i] == init[i];
          }
        }
      } else if RowsText(init, dataToString).Failure? {
        var i :| 0 <= i < |init| && !RowText(init[i], dataToString).Success?;
        assert records[i] == init[i];
      }
    }
  }

  /** A built batch holds one tuple per record, in order. */
  lemma {:induction false} RowsTextValues(records: seq<Record>, dataToString: Data -> string)
    requires RowsText(records, dataToString).Success?
    ensures var rows := RowsText(records, dataToString).value;
      && |rows| == |records|
      && forall i :: 0 <= i < |records| ==>
           RowText(records[i], dataToString).Success? && rows[i] == RowText(records[i], dataToString).value
    decreases |records|
  {
    if |records| > 0 {
      var init := records[..|records| - 1];
      var last := RowText(records[|records| - 1], dataToString);
      assert RowsText(init, dataToString).Success? && last.Success?;
      RowsTextValues(init, dataToString);
      var rows := RowsText(records, dataToString).value;
      assert rows == RowsText(init, dataToString).value + [last.value];
      forall i | 0 <= i < |records|
        ensures RowText(records[i], dataToString).Success? && rows[i] == RowText(records[i], dataToString).value
      {
        if i < |init| {
          assert records[i] == init[i];
        }
      }
    }
  }

  /** Once the tuples of a prefix of the batch fail, so do the batch's, with the same error. */
  lemma {:induction false} RowsTextPrefixFailure(records: seq<Record>, dataToString: Data -> string, k: nat)
    requires k <= |records| && RowsText(records[..k], dataToString).Failure?
    ensures RowsText(records, dataToString) == RowsText(records[..k], dataToString)
    decreases |records|
  {
    if k < |records| {
      var init := records[..|records| - 1];
      assert init[..k] == records[..k];
      RowsTextPrefixFailure(init, dataToString, k);
    } else {
      assert records[..k] == records;
    }
  }

  lemma {:induction false} JoinSnoc(pieces: seq<string>, x: string, sep: string)
    requires |pieces| > 0
    ensures Join(pieces + [x], sep) == Join(pieces, sep) + sep + x
    decreases |pieces|
  {
    if |pieces| > 1 {
      assert (pieces + [x])[1..] == pieces[1..] + [x];
      JoinSnoc(pieces[1..], x, sep);
    } else {
      assert pieces + [x] == [pieces[0], x];
      assert [pieces[0], x][1..] == [x];
    }
  }

  /**
   * Deleting the last character of what the loop accumulated leaves the
   * pieces joined by the separator: the trailing comma `deleteCharAt`
   * removes is the only one too many.
   */
  lemma {:induction false} TerminatedDropLast(pieces: seq<string>, sep: char)
    requires |pieces| > 0
    ensures |Terminated(pieces, [sep])| > 0
    ensures Terminated(pieces, [sep]) == Join(pieces, [sep]) + [sep]
    decreases |pieces|
  {
    var init := pieces[..|pieces| - 1];
    var last := pieces[|pieces| - 1];
    if |init| > 0 {
      TerminatedDropLast(init, sep);
      JoinSnoc(init, last, [sep]);
      assert pieces == init + [last];
    } else {
      assert pieces == [last];
    }
  }

  /** Joining and then splitting on a separator no item contains gives the items back. */
  lemma JoiningSplit(items: seq<string>, c: char, prefix: string, suffix: string)
    requires |items| > 0
    requires forall i :: 0 <= i < |items| ==> c !in items[i]
    ensures var s := Joining(items, [c], prefix, suffix);
      |prefix| + |suffix| <= |s| && s[..|prefix|] == prefix && s[|s| - |suffix|..] == suffix
      && SplitAll(s[|prefix|..|s| - |suffix|], c) == items
  {
    var inner := Join(items, [c]);
    var s := prefix + inner + suffix;
    assert s[|prefix|..|s| - |suffix|] == inner;
    SplitAllJoin(items, c);
  }

  /** The column list names the first record's fields in order; with comma-free names it splits back into them. */
  lemma ColumnListRoundTrip(fields: seq<string>)
    requires |fields| > 0
    requires forall i :: 0 <= i < |fields| ==> ',' !in fields[i]
    ensures var s := ExtractFields(fields, "(", ")", ",", "");
      2 <= |s| && s[0] == '(' && s[|s| - 1] == ')' && SplitAll(s[1..|s| - 1], ',') == fields
  {
    var names := Quoted(fields, "");
    assert names == fields by {
      forall i | 0 <= i < |fields| ensures names[i] == fields[i] {
        assert "" + fields[i] + "" == fields[i];
      }
    }
    JoiningSplit(fields, ',', "(", ")");
  }

  /**
   * A tuple holds every value's string between single quotes, in field
   * order; when no string contains a comma it splits back into them.
   */
  lemma RowTextRoundTrip(record: Record, dataToString: Data -> string)
    requires |record.fields| > 0
    requires forall i :: 0 <= i < |record.fields| ==> record.fields[i] in record.jsonMap
    requires forall i :: 0 <= i < |record.fields| ==> ',' !in dataToString(record.jsonMap[record.fields[i]])
    ensures RowText(record, dataToString).Success?
    ensures var s := RowText(record, dataToString).value;
      2 <= |s| && s[0] == '(' && s[|s| - 1] == ')'
      && var pieces := SplitAll(s[1..|s| - 1], ',');
         |pieces| == |record.fields|
         && forall i :: 0 <= i < |pieces| ==>
              pieces[i] == "'" + dataToString(record.jsonMap[record.fields[i]]) + "'"
  {
    var values := RecordValues(record);
    ConvertAllSucceeds(values, dataToString);
    var strs := ConvertAll(values, dataToString).value;
    var quoted := Quoted(strs, "'");
    forall i | 0 <= i < |quoted| ensures ',' !in quoted[i] {
      assert quoted[i] == "'" + strs[i] + "'";
      assert strs[i] == dataToString(record.jsonMap[record.fields[i]]);
    }
    JoiningSplit(quoted, ',', "(", ")");
  }

  // ---------------------------------------------------------------------
  // The statement-building loop
  // ---------------------------------------------------------------------

  /** After `i` records the buffer holds the header and each tuple so far followed by a comma. */
  predicate BuiltSoFar(records: seq<Record>, dataToString: Data -> string, i: nat, header: string,
                       rows: seq<string>, sb: string)
    requires i <= |records|
  {
    RowsText(records[..i], dataToString) == Success(rows) && sb == header + Terminated(rows, ",")
  }

  lemma BuiltNil(records: seq<Record>, dataToString: Data -> string, header: string)
    ensures BuiltSoFar(records, dataToString, 0, header, [], header)
  {
    assert records[..0] == [];
  }

  lemma RowsTextSnoc(records: seq<Record>, dataToString: Data -> string, i: nat, rows: seq<string>)
    requires i < |records| && RowsText(records[..i], dataToString) == Success(rows)
    ensures RowText(records[i], dataToString).Success? ==>
      RowsText(records[..i + 1], dataToString) == Success(rows + [RowText(records[i], dataToString).value])
    ensures RowText(records[i], dataToString).Failure? ==>
      RowsText(records[..i + 1], dataToString) == Failure(RowText(records[i], dataToString).error)
  {
    var next := records[..i + 1];
    assert next[..|next| - 1] == records[..i];
    assert next[|next| - 1] == records[i];
  }

  lemma TerminatedSnoc(rows: seq<string>, x: string, sep: string)
    ensures Terminated(rows + [x], sep) == Terminated(rows, sep) + x + sep
  {
    var longer := rows + [x];
    assert longer[..|rows|] == rows;
  }

  /** One more record: either its tuple and a comma are appended, or the batch fails with its error. */
  lemma BuiltStep(records: seq<Record>, dataToString: Data -> string, i: nat, header: string,
                  rows: seq<string>, sb: string, v: Result<string, Error>)
    requires i < |records| && BuiltSoFar(records, dataToString, i, header, rows, sb)
    requires v == RowText(records[i], dataToString)
    ensures v.Success? ==> BuiltSoFar(records, dataToString, i + 1, header, rows + [v.value], sb + v.value + ",")
    ensures v.Failure? ==> RowsText(records, dataToString) == Failure(v.error)
  {
    RowsTextSnoc(records, dataToString, i, rows);
    if v.Success? {
      var t := Terminated(rows, ",");
      TerminatedSnoc(rows, v.value, ",");
      AppendAssoc(header, t, v.value);
      AppendAssoc(header, t + v.value, ",");
    } else {
      RowsTextPrefixFailure(records, dataToString, i + 1);
    }
  }

  /** Deleting the last comma leaves the header and the tuples joined by commas. */
  lemma BuiltDone(records: seq<Record>, dataToString: Data -> string, header: string, rows: seq<string>, sb: string)
    requires |records| > 0 && BuiltSoFar(records, dataToString, |records|, header, rows, sb)
    ensures RowsText(records, dataToString) == Success(rows)
    ensures |sb| > 0 && sb[..|sb| - 1] == header + Join(rows, ",")
  {
    assert records[..|records|] == records;
    RowsTextValues(records, dataToString);
    TerminatedDropLast(rows, ',');
    AppendAssoc(header, Join(rows, ","), ",");
    var j := header + Join(rows, ",");
    assert sb == j + ",";
    assert sb[..|sb| - 1] == j;
  }
}
