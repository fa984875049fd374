/** Names of the files a field run produces: the run's CSV log, named after the start time, and the
    files derived from it by keeping its first two `_`-separated fields (send_control_packets.py
    and process_storage_api_data.py). */
module RunFiles {
  import opened Wrappers
  import opened PyText

  type Year = y: int | 1 <= y <= 9999 witness 1
  type Month = m: int | 1 <= m <= 12 witness 1
  type Day = d: int | 1 <= d <= 31 witness 1
  type Hour = h: int | 0 <= h < 24
  type Minute = m: int | 0 <= m < 60
  type Second = s: int | 0 <= s < 60

  /** A reading of `datetime.now()`. */
  datatype DateTime = DateTime(year: Year, month: Month, day: Day, hour: Hour, minute: Minute, second: Second)

  /** A file as the scripts write it: its name and its rows, each row a list of fields. */
  datatype CsvFile = CsvFile(name: string, rows: seq<seq<string>>)

  /** The only error name derivation can raise: `parts[1]` on a name without `_`. */
  datatype NameError = IndexError

  const RunLogSuffix := "_LoRa-Deice-GPS-RSSI-data.csv"
  const StorageApiSuffix := "_Storage-API-data.txt"
  const DecodedSuffix := "_LoRa-RSSI-GW-decoded.csv"

  // ---------------------------------------------------------------- str.split(sep)

  /** Python's `s.split(sep)` for a one-character separator: always at least one part, and the
      separator occurs in none of them. */
  function Split(s: string, sep: char): (parts: seq<string>)
    ensures |parts| >= 1
    ensures forall k :: 0 <= k < |parts| ==> sep !in parts[k]
    decreases |s|
  {
    if s == [] then [""]
    else if s[0] == sep then [""] + Split(s[1..], sep)
    else
      var rest := Split(s[1..], sep);
      [[s[0]] + rest[0]] + rest[1..]
  }

  /** `sep.join(parts)`. */
  function Join(parts: seq<string>, sep: char): string
    requires |parts| >= 1
    decreases |parts|
  {
    if |parts| == 1 then parts[0] else parts[0] + [sep] + Join(parts[1..], sep)
  }

  /** Joining the parts back with the separator gives the original text. */
  lemma {:induction false} JoinSplit(s: string, sep: char)
    ensures Join(Split(s, sep), sep) == s
    decreases |s|
  {
    if s != [] {
      var rest := Split(s[1..], sep);
      JoinSplit(s[1..], sep);
      if s[0] == sep {
        assert Split(s, sep) == [""] + rest;
        assert ([""] + rest)[1..] == rest;
      } else {
        var parts := Split(s, sep);
        assert parts[0] == [s[0]] + rest[0];
        if |rest| == 1 {
          assert s == [s[0]] + s[1..];
        } else {
          assert parts[1..] == rest[1..];
          assert Join(rest, sep) == rest[0] + [sep] + Join(rest[1..], sep);
          assert s == [s[0]] + s[1..];
        }
      }
    }
  }

  /** A text splits into more than one part exactly when it contains the separator. */
  lemma {:induction false} SplitSinglePartIff(s: string, sep: char)
    ensures |Split(s, sep)| == 1 <==> sep !in s
    decreases |s|
  {
    if s != [] {
      SplitSinglePartIff(s[1..], sep);
      assert s == [s[0]] + s[1..];
      assert sep in s <==> s[0] == sep || sep in s[1..];
    }
  }

  /** A field without the separator, followed by the separator, splits off as the first part. */
  lemma {:induction false} SplitLeadingField(a: string, t: string, sep: char)
    requires sep !in a
    ensures Split(a + [sep] + t, sep) == [a] + Split(t, sep)
    decreases |a|
  {
    if a == [] {
      assert a + [sep] + t == [sep] + t;
      assert ([sep] + t)[1..] == t;
    } else {
      var s := a + [sep] + t;
      assert s[0] == a[0] && s[0] != sep;
      assert s[1..] == a[1..] + [sep] + t;
      SplitLeadingField(a[1..], t, sep);
      assert [a[0]] + a[1..] == a;
    }
  }

  /** A text without the separator is a single part. */
  lemma SplitWithoutSeparator(a: string, sep: char)
    requires sep !in a
    ensures Split(a, sep) == [a]
  {
    SplitSinglePartIff(a, sep);
    JoinSplit(a, sep);
  }

  // ---------------------------------------------------------------- names

  /** `f"{Y}-{M}-{D}_{h}-{m}-{s}"`, without zero padding. */
  function DatePart(t: DateTime): string
  {
    NatToDecimal(t.year) + "-" + NatToDecimal(t.month) + "-" + NatToDecimal(t.day)
  }

  function TimePart(t: DateTime): string
  {
    NatToDecimal(t.hour) + "-" + NatToDecimal(t.minute) + "-" + NatToDecimal(t.second)
  }

  function Stamp(t: DateTime): string { DatePart(t) + "_" + TimePart(t) }

  /** `prepare_CSV_file_save`: the run log is named after the run's start time. */
  function RunLogName(t: DateTime): string { Stamp(t) + RunLogSuffix }

  /** `parts = name.split('_'); parts[0] + '_' + parts[1] + suffix`. */
  function DeriveName(name: string, suffix: string): Result<string, NameError>
  {
    var parts := Split(name, '_');
    if |parts| < 2 then Failure(IndexError) else Success(parts[0] + "_" + parts[1] + suffix)
  }

  /** `call_storage_API`: the name of the downloaded Storage API archive. */
  function StorageApiName(runLog: string): Result<string, NameError>
  {
    DeriveName(runLog, StorageApiSuffix)
  }

  /** `process_raw_data`: the name of the decoded table. */
  function DecodedName(archive: string): Result<string, NameError>
  {
    DeriveName(archive, DecodedSuffix)
  }

  /** Derivation fails (IndexError) exactly when the name has no `_`. */
  lemma DeriveNameFailsIff(name: string, suffix: string)
    ensures DeriveName(name, suffix).Failure? <==> '_' !in name
  {
    SplitSinglePartIff(name, '_');
  }

  /** Derivation keeps the first two fields whatever follows them, and attaches the new suffix. */
  lemma DeriveNameKeepsTwoFields(a: string, b: string, rest: string, suffix: string)
    requires '_' !in a && '_' !in b
    requires rest == [] || rest[0] == '_'
    ensures DeriveName(a + "_" + b + rest, suffix) == Success(a + "_" + b + suffix)
  {
    var s := a + "_" + b + rest;
    assert s == a + ['_'] + (b + rest);
    SplitLeadingField(a, b + rest, '_');
    if rest == [] {
      assert b + rest == b;
      SplitWithoutSeparator(b, '_');
    } else {
      assert b + rest == b + ['_'] + rest[1..];
      SplitLeadingField(b, rest[1..], '_');
    }
  }

  /** Deriving twice is deriving once: a derived name keeps the fields it was derived from. */
  lemma DeriveNameTwice(name: string, first: string, second: string)
    requires DeriveName(name, first).Success?
    requires first == [] || first[0] == '_'
    ensures DeriveName(DeriveName(name, first).value, second) == DeriveName(name, second)
  {
    var parts := Split(name, '_');
    assert '_' !in parts[0] && '_' !in parts[1];
    DeriveNameKeepsTwoFields(parts[0], parts[1], first, second);
  }

  lemma StampFields(t: DateTime)
    ensures '_' !in DatePart(t) && '_' !in TimePart(t)
  {
    var y, mo, d := NatToDecimal(t.year), NatToDecimal(t.month), NatToDecimal(t.day);
    var h, mi, s := NatToDecimal(t.hour), NatToDecimal(t.minute), NatToDecimal(t.second);
    assert '_' !in y && '_' !in mo && '_' !in d && '_' !in h && '_' !in mi && '_' !in s;
  }

  /** The run log, the Storage API archive named from it and the decoded table named from that all
      carry the run's start time `Y-M-D_h-m-s`. */
  lemma NameChain(t: DateTime)
    ensures StorageApiName(RunLogName(t)) == Success(Stamp(t) + StorageApiSuffix)
    ensures DecodedName(Stamp(t) + StorageApiSuffix) == Success(Stamp(t) + DecodedSuffix)
    ensures DecodedName(RunLogName(t)) == Success(Stamp(t) + DecodedSuffix)
  {
    StampFields(t);
    DeriveNameKeepsTwoFields(DatePart(t), TimePart(t), RunLogSuffix, StorageApiSuffix);
    DeriveNameKeepsTwoFields(DatePart(t), TimePart(t), StorageApiSuffix, DecodedSuffix);
    DeriveNameKeepsTwoFields(DatePart(t), TimePart(t), RunLogSuffix, DecodedSuffix);
  }
}
