/** `process_raw_data` (process_storage_api_data.py): turn a downloaded Storage API archive, one JSON
    record per line, into a two-column table of packet number and gateway RSSI. Reading one record's
    fields (JSON, then base64 for the packet number) is given as a function from a line to the two
    printed values. */
module StorageExport {
  import opened Wrappers
  import opened PyText
  import opened RunFiles

  const ExportHeader: seq<string> := ["id", "GW rssi"]

  /** `str(id)` and `str(rssi)` of one stored uplink record. */
  datatype Uplink = Uplink(id: string, rssi: string)

  /** The lines of the archive that are not empty, in order. */
  function NonEmptyLines(lines: seq<string>): seq<string>
    decreases |lines|
  {
    if lines == [] then [] else (if lines[0] != "" then [lines[0]] else []) + NonEmptyLines(lines[1..])
  }

  /** Filtering a concatenation filters each part in turn: the order of lines is kept. */
  lemma {:induction false} NonEmptyLinesAppend(a: seq<string>, b: seq<string>)
    ensures NonEmptyLines(a + b) == NonEmptyLines(a) + NonEmptyLines(b)
    decreases |a|
  {
    if a == [] {
      assert a + b == b;
    } else {
      assert (a + b)[0] == a[0];
      assert (a + b)[1..] == a[1..] + b;
      NonEmptyLinesAppend(a[1..], b);
    }
  }

  /** Exactly the non-empty lines are kept, and no more lines than there were. */
  lemma {:induction false} NonEmptyLinesMembers(lines: seq<string>)
    ensures |NonEmptyLines(lines)| <= |lines|
    ensures forall l :: l in NonEmptyLines(lines) <==> l in lines && l != ""
    decreases |lines|
  {
    if lines != [] {
      NonEmptyLinesMembers(lines[1..]);
      assert lines == [lines[0]] + lines[1..];
    }
  }

  /** The table row of one record. */
  function RecordRow(u: Uplink): seq<string> { [u.id, u.rssi] }

  /** The first loop of `process_raw_data`: keep the lines that are not empty. */
  method KeepRecords(dList: seq<string>) returns (jList: seq<string>)
    ensures jList == NonEmptyLines(dList)
  {
    jList := [];
    for i := 0 to |dList|
      invariant jList == NonEmptyLines(dList[..i])
    {
      NonEmptyLinesAppend(dList[..i], [dList[i]]);
      assert dList[..i + 1] == dList[..i] + [dList[i]];
      if dList[i] != "" {
        jList := jList + [dList[i]];
      }
    }
    assert dList[..|dList|] == dList;
  }

  /** The second loop of `process_raw_data`: the header, then one row per record, in order. */
  method TableRows(jList: seq<string>, decode: string -> Uplink) returns (rows: seq<seq<string>>)
    ensures |rows| == |jList| + 1 && rows[0] == ExportHeader
    ensures forall k :: 0 <= k < |jList| ==> rows[k + 1] == [decode(jList[k]).id, decode(jList[k]).rssi]
  {
    rows := [ExportHeader];
    for i := 0 to |jList|
      invariant |rows| == i + 1 && rows[0] == ExportHeader
      invariant forall k :: 0 <= k < i ==> rows[k + 1] == RecordRow(decode(jList[k]))
    {
      rows := rows + [RecordRow(decode(jList[i]))];
    }
  }

  /** `process_raw_data(data, fileNameToSave)`: on success, the decoded table; a name without `_`
      fails with IndexError before anything is written. */
  method ProcessRawData(data: string, fileNameToSave: string, decode: string -> Uplink)
    returns (out: Result<CsvFile, NameError>)
    ensures out.Failure? <==> '_' !in fileNameToSave
    ensures out.Success? ==> DecodedName(fileNameToSave) == Success(out.value.name)
    ensures out.Success? ==>
              var records := NonEmptyLines(SplitLines(data));
              var rows := out.value.rows;
              |rows| == |records| + 1 && rows[0] == ExportHeader &&
              forall k :: 0 <= k < |records| ==> rows[k + 1] == [decode(records[k]).id, decode(records[k]).rssi]
  {
    var jList := KeepRecords(SplitLines(data));
    DeriveNameFailsIff(fileNameToSave, DecodedSuffix);
    var name := DecodedName(fileNameToSave);
    if name.Failure? {
      return Failure(IndexError);
    }
    var rows := TableRows(jList, decode);
    out := Success(CsvFile(name.value, rows));
  }
}
