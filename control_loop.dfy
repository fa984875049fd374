/** The packet loop of `send_control_packets` (send_control_packets.py): read a GPS chunk, pick its
    first GGA sentence, send the uplink numbered `id`, query the RSSI, append one row, and only then
    advance `id`. The GPS socket is given as the chunk each attempt reads, the clock as the time each
    attempt starts, and the NMEA parser as a function from a sentence to its fix fields. */
module ControlLoop {
  import opened Wrappers
  import opened PyText
  import opened RunFiles
  import opened LoraDevice

  const Header: seq<string> :=
    ["Time", "Packet #", "Latitude", "Longitude", "Altitude", "GPS Precision", "# Satellites", "ED RSSI"]

  /** The fields the NMEA parser reads from a GGA sentence, as the CSV writer prints them. */
  datatype Fix = Fix(latitude: string, longitude: string, altitude: string, quality: string, satellites: string)

  // ---------------------------------------------------------------- rows

  /** Two zero-padded digits, as `strftime` writes hours, minutes and seconds. */
  function TwoDigits(n: nat): string
    requires n < 100
  {
    [DigitChar(n / 10), DigitChar(n % 10)]
  }

  /** `now.strftime("%H:%M:%S")`. */
  function TimeOfDay(t: DateTime): string
  {
    TwoDigits(t.hour) + ":" + TwoDigits(t.minute) + ":" + TwoDigits(t.second)
  }

  lemma TwoDigitsValue(n: nat)
    requires n < 100
    ensures AllDigits(TwoDigits(n)) && DecimalValue(TwoDigits(n)) == n
  {
    var s := TwoDigits(n);
    assert s[..1] == [DigitChar(n / 10)];
    assert s[..1][..0] == [];
    assert DecimalValue(s[..1]) == n / 10;
  }

  /** The time column is fixed-width and reads back as the hour, minute and second it was made from. */
  lemma TimeOfDayReadsBack(t: DateTime)
    ensures var s := TimeOfDay(t);
            |s| == 8 && s[2] == ':' && s[5] == ':' &&
            AllDigits(s[0..2]) && DecimalValue(s[0..2]) == t.hour &&
            AllDigits(s[3..5]) && DecimalValue(s[3..5]) == t.minute &&
            AllDigits(s[6..8]) && DecimalValue(s[6..8]) == t.second
  {
    var s := TimeOfDay(t);
    assert s[0..2] == TwoDigits(t.hour);
    assert s[3..5] == TwoDigits(t.minute);
    assert s[6..8] == TwoDigits(t.second);
    TwoDigitsValue(t.hour);
    TwoDigitsValue(t.minute);
    TwoDigitsValue(t.second);
  }

  /** `[time_hour, id, latitude, longitude, altitude, precision, satellites, lastRSSI]`. */
  function DataRow(now: DateTime, id: nat, fix: Fix, rssi: int): seq<string>
  {
    [TimeOfDay(now), NatToDecimal(id), fix.latitude, fix.longitude, fix.altitude, fix.quality, fix.satellites,
     IntToDecimal(rssi)]
  }

  /** A data row has one field per header column, in header order; its packet number and RSSI
      columns read back as the values written. */
  lemma DataRowFields(now: DateTime, id: nat, fix: Fix, rssi: int)
    ensures var row := DataRow(now, id, fix, rssi);
            |row| == |Header| && row[0] == TimeOfDay(now) &&
            ParsePyInt(row[1]) == Some(id) &&
            row[2] == fix.latitude && row[3] == fix.longitude && row[4] == fix.altitude &&
            row[5] == fix.quality && row[6] == fix.satellites &&
            ParsePyInt(row[7]) == Some(rssi)
  {
    var row := DataRow(now, id, fix, rssi);
    assert ParsePyInt(row[1]) == Some(id) by {
      assert row[1] == NatToDecimal(id);
      ParsePyIntOfNatural(id);
    }
    assert ParsePyInt(row[7]) == Some(rssi) by {
      assert row[7] == IntToDecimal(rssi);
      ParsePyIntOfDecimal(rssi);
    }
  }

  /** A data row of packet `id`: one field per column, the packet number in the second. */
  predicate RowOfPacket(row: seq<string>, id: nat)
  {
    |row| == |Header| && row[1] == NatToDecimal(id)
  }

  /** The run log: the header, then the row of packet `k - 1` at position `k`. */
  predicate RowsNumbered(rows: seq<seq<string>>)
  {
    |rows| >= 1 && rows[0] == Header && forall k :: 1 <= k < |rows| ==> RowOfPacket(rows[k], k - 1)
  }

  lemma RowsNumberedAppend(rows: seq<seq<string>>, row: seq<string>)
    requires RowsNumbered(rows) && RowOfPacket(row, |rows| - 1)
    ensures RowsNumbered(rows + [row])
  {
    var rows' := rows + [row];
    forall k | 1 <= k < |rows'| ensures RowOfPacket(rows'[k], k - 1) {
      if k < |rows| {
        assert rows'[k] == rows[k];
      } else {
        assert rows'[k] == row;
      }
    }
  }

  /** The uplinks of packets 0 .. n-1 are all among the commands sent. */
  predicate UplinksSent(sent: seq<string>, n: nat)
  {
    forall k :: 0 <= k < n ==> Command(UplinkText(k)) in sent
  }

  /** Sending more commands keeps the earlier uplinks sent; sending the uplink of packet n adds it. */
  lemma UplinksKept(before: seq<string>, after: seq<string>, n: nat)
    requires before <= after && UplinksSent(before, n)
    ensures UplinksSent(after, n)
    ensures Command(UplinkText(n)) in after ==> UplinksSent(after, n + 1)
  {
    forall k | 0 <= k < n ensures Command(UplinkText(k)) in after {
      var i :| 0 <= i < |before| && before[i] == Command(UplinkText(k));
      assert after[i] == before[i];
    }
  }

  /** In a numbered log the packet numbers read back as 0, 1, ..., in order, each exactly once. */
  lemma NumberedRowIds(rows: seq<seq<string>>)
    requires RowsNumbered(rows)
    ensures forall k :: 1 <= k < |rows| ==> ParsePyInt(rows[k][1]) == Some(k - 1)
    ensures forall j, k :: 1 <= j < k < |rows| ==> rows[j][1] != rows[k][1]
  {
    forall k | 1 <= k < |rows| ensures ParsePyInt(rows[k][1]) == Some(k - 1) {
      assert RowOfPacket(rows[k], k - 1);
      ParsePyIntOfNatural(k - 1);
    }
    forall j, k | 1 <= j < k < |rows| ensures rows[j][1] != rows[k][1] {
      assert RowOfPacket(rows[j], j - 1) && RowOfPacket(rows[k], k - 1);
      NatToDecimalInjective(j - 1, k - 1);
    }
  }

  // ---------------------------------------------------------------- GPS sentences

  /** `re.match(".GPGGA*", line)`: one character other than a newline, then `GPGG` (the trailing
      `A*` also matches nothing, and `re.match` only anchors at the start). */
  predicate MatchesGga(line: string)
  {
    |line| >= 5 && line[0] != '\n' && line[1..5] == "GPGG"
  }

  /** `[x for x in lines if re.match(".GPGGA*", x)]`. */
  function GgaLines(lines: seq<string>): seq<string>
    decreases |lines|
  {
    if lines == [] then [] else (if MatchesGga(lines[0]) then [lines[0]] else []) + GgaLines(lines[1..])
  }

  /** No sentence is selected exactly when no line matches. */
  lemma {:induction false} GgaLinesEmptyIff(lines: seq<string>)
    ensures GgaLines(lines) == [] <==> forall k :: 0 <= k < |lines| ==> !MatchesGga(lines[k])
    decreases |lines|
  {
    if lines != [] {
      GgaLinesEmptyIff(lines[1..]);
      if forall k :: 0 <= k < |lines| ==> !MatchesGga(lines[k]) {
        forall k | 0 <= k < |lines[1..]| ensures !MatchesGga(lines[1..][k]) {
          assert lines[1..][k] == lines[k + 1];
        }
      }
      if !MatchesGga(lines[0]) && forall k :: 0 <= k < |lines[1..]| ==> !MatchesGga(lines[1..][k]) {
        forall k | 0 <= k < |lines| ensures !MatchesGga(lines[k]) {
          if k > 0 {
            assert lines[k] == lines[1..][k - 1];
          }
        }
      }
    }
  }

  /** The position used is the first matching line. */
  lemma {:induction false} FirstGgaLine(lines: seq<string>, i: nat)
    requires i < |lines| && MatchesGga(lines[i])
    requires forall k :: 0 <= k < i ==> !MatchesGga(lines[k])
    ensures GgaLines(lines) != [] && GgaLines(lines)[0] == lines[i]
    decreases i
  {
    if i > 0 {
      FirstGgaLine(lines[1..], i - 1);
      assert lines[1..][i - 1] == lines[i];
    }
  }

  /** The pattern takes any first character but only the `GP` talker: GPS GGA sentences match,
      other sentence types and GGA sentences of other talkers (`$GNGGA`) do not. */
  lemma GgaSentenceKinds(rest: string)
    ensures MatchesGga("$GPGGA" + rest)
    ensures !MatchesGga("$GPRMC" + rest) && !MatchesGga("$GPGSV" + rest) && !MatchesGga("$GNGGA" + rest)
  {
    assert ("$GPGGA" + rest)[1..5] == "GPGG";
    assert ("$GPRMC" + rest)[3] == 'R';
    assert ("$GPGSV" + rest)[4] == 'S';
    assert ("$GNGGA" + rest)[2] == 'N';
  }

  // ---------------------------------------------------------------- one attempt and the loop

  /** How a run ends. */
  datatype RunEnd =
    | Completed         // all packets sent; the port is closed and the Storage API menu follows
    | GpsRefused        // ConnectionRefusedError: killScript before the log exists
    | NoGgaLine         // IndexError on `filtered_GPS_data[0]`: killScript
    | NoRssiValue       // IndexError on `RSSIFullData[0]`: killScript
    | ReconnectFailed   // `open_serial_port` could not reopen the port: killScript
    | SerialFault       // the RSSI reset could not reopen the port: SerialException escapes

  /** One pass through the body of the `try` block. */
  datatype Step = Recorded(row: seq<string>) | Reconnected | Halted(end: RunEnd)

  /** The answer `AT+RSSI` gets when it follows an uplink: the reset dropped whatever the uplink's
      reply left unread. */
  function RssiAnswer(replies: seq<string>): string
  {
    Take(NextReply(LaterReplies(replies)), ReadSize)
  }

  /** The replies still queued once the first `n` have been consumed. */
  function Skip(replies: seq<string>, n: nat): seq<string>
  {
    if n <= |replies| then replies[n..] else []
  }

  /** The commands an attempt writes to the radio: the uplink once the port is open, then the RSSI
      query when the reset reopened the port. */
  function CommandsSent(step: Step, id: nat): seq<string>
  {
    match step
    case Recorded(_) => [Command(UplinkText(id)), Command(RssiText)]
    case Halted(NoRssiValue) => [Command(UplinkText(id)), Command(RssiText)]
    case Halted(SerialFault) => [Command(UplinkText(id))]
    case _ => []
  }

  /** One attempt at packet `id`, started at `now`, reading `chunk` from the GPS socket while the
      radio has `replies` queued; `isOpen` is the port's state and `available` whether it can be
      (re)opened. Without a GGA sentence the run halts; on a closed port the uplink is skipped and
      the port reopened; a reset that cannot reopen the port halts; otherwise the row is recorded,
      unless the RSSI answer holds no number. */
  function AttemptStep(isOpen: bool, available: bool, now: DateTime, id: nat, chunk: string,
                       parseFix: string -> Fix, replies: seq<string>): Step
  {
    var gga := GgaLines(SplitLines(chunk));
    if gga == [] then Halted(NoGgaLine)
    else if !isOpen then (if available then Reconnected else Halted(ReconnectFailed))
    else if !available then Halted(SerialFault)
    else
      var answer := RssiOf(RssiAnswer(replies));
      if answer.Rssi? then Recorded(DataRow(now, id, parseFix(gga[0]), answer.value)) else Halted(NoRssiValue)
  }

  /** A row is recorded exactly when the chunk has a GGA sentence, the port is open and stays usable
      and the RSSI answer has a digit; the row then reads back as the packet number and the first
      number of the answer. */
  lemma AttemptStepRecords(isOpen: bool, available: bool, now: DateTime, id: nat, chunk: string,
                           parseFix: string -> Fix, replies: seq<string>)
    ensures var step := AttemptStep(isOpen, available, now, id, chunk, parseFix, replies);
            var gga := GgaLines(SplitLines(chunk));
            (step.Recorded? <==> gga != [] && isOpen && available && HasDigit(RssiAnswer(replies))) &&
            (step.Recorded? ==>
               |step.row| == |Header| && step.row[0] == TimeOfDay(now) && ParsePyInt(step.row[1]) == Some(id) &&
               ParsePyInt(step.row[7]) == Some(RssiOf(RssiAnswer(replies)).value))
  {
    var step := AttemptStep(isOpen, available, now, id, chunk, parseFix, replies);
    var gga := GgaLines(SplitLines(chunk));
    var answer := RssiOf(RssiAnswer(replies));
    IntTokensEmptyIff(RssiAnswer(replies));
    if gga != [] && isOpen && available && answer.Rssi? {
      assert step == Recorded(DataRow(now, id, parseFix(gga[0]), answer.value));
      DataRowFields(now, id, parseFix(gga[0]), answer.value);
    } else {
      assert !step.Recorded?;
    }
  }

  /** The uplink goes out exactly when the chunk has a GGA sentence and the port is open. */
  lemma AttemptStepUplink(isOpen: bool, available: bool, now: DateTime, id: nat, chunk: string,
                          parseFix: string -> Fix, replies: seq<string>)
    ensures var step := AttemptStep(isOpen, available, now, id, chunk, parseFix, replies);
            Command(UplinkText(id)) in CommandsSent(step, id) <==> GgaLines(SplitLines(chunk)) != [] && isOpen
  {
    var step := AttemptStep(isOpen, available, now, id, chunk, parseFix, replies);
    if GgaLines(SplitLines(chunk)) == [] {
      assert step == Halted(NoGgaLine);
    } else if !isOpen {
      assert step == Reconnected || step == Halted(ReconnectFailed);
    } else {
      assert step.Recorded? || step == Halted(SerialFault) || step == Halted(NoRssiValue);
      assert CommandsSent(step, id)[0] == Command(UplinkText(id));
    }
  }

  /** A recorded row holds the fix of line `i`, the first line of the chunk that matches the GGA
      pattern, and as its RSSI the number at `j`, the first digit of the RSSI answer, negative when a
      minus sign stands right before it. */
  lemma RecordedRow(isOpen: bool, available: bool, now: DateTime, id: nat, chunk: string, parseFix: string -> Fix,
                    replies: seq<string>, row: seq<string>, i: nat, j: nat)
    requires AttemptStep(isOpen, available, now, id, chunk, parseFix, replies) == Recorded(row)
    requires i < |SplitLines(chunk)| && MatchesGga(SplitLines(chunk)[i])
    requires forall k :: 0 <= k < i ==> !MatchesGga(SplitLines(chunk)[k])
    requires j < |RssiAnswer(replies)| && IsDigit(RssiAnswer(replies)[j])
    requires forall k :: 0 <= k < j ==> !IsDigit(RssiAnswer(replies)[k])
    ensures var fix := parseFix(SplitLines(chunk)[i]);
            var answer := RssiAnswer(replies);
            |row| == |Header| &&
            row[2] == fix.latitude && row[3] == fix.longitude && row[4] == fix.altitude &&
            row[5] == fix.quality && row[6] == fix.satellites &&
            ParsePyInt(row[7]) == Some((if j > 0 && answer[j - 1] == '-' then -1 else 1) *
                                       DecimalValue(answer[j..][..LeadingDigits(answer[j..])]))
  {
    var lines := SplitLines(chunk);
    var answer := RssiAnswer(replies);
    FirstGgaLine(lines, i);
    RssiIsFirstNumber(answer);
    var gga := GgaLines(lines);
    var rssi := RssiOf(answer);
    assert gga != [] && rssi.Rssi? && row == DataRow(now, id, parseFix(gga[0]), rssi.value);
    DataRowFields(now, id, parseFix(gga[0]), rssi.value);
  }

  /** A row is recorded only on an open port that stays usable, and a reconnection happens only on a
      closed one that can be reopened; an attempt that halts the run leaves the reason in its
      inputs. */
  lemma StepConditions(isOpen: bool, available: bool, now: DateTime, id: nat, chunk: string, parseFix: string -> Fix,
                       replies: seq<string>)
    ensures var step := AttemptStep(isOpen, available, now, id, chunk, parseFix, replies);
            (step.Recorded? ==> isOpen && available) &&
            (step.Reconnected? ==> !isOpen && available) &&
            (step == Halted(NoGgaLine) ==> GgaLines(SplitLines(chunk)) == []) &&
            (step == Halted(NoRssiValue) ==> !HasDigit(RssiAnswer(replies))) &&
            (step == Halted(ReconnectFailed) || step == Halted(SerialFault) ==> !available) &&
            step != Halted(GpsRefused) && step != Halted(Completed)
  {
    IntTokensEmptyIff(RssiAnswer(replies));
  }

  /** One attempt as the loop sees it: from the port's state, the attempt number, the packet number
      and the radio's queued replies, the step the attempt takes. */
  type Attempt = (bool, nat, nat, seq<string>) -> Step

  /** The attempts of the packet loop: attempt `a` starts at `clock(a)` and reads `chunks(a)` from the
      GPS socket; `available` says whether the port can be (re)opened. */
  function Attempts(available: bool, clock: nat -> DateTime, chunks: nat -> string, parseFix: string -> Fix): Attempt
  {
    (isOpen: bool, a: nat, id: nat, replies: seq<string>) =>
      AttemptStep(isOpen, available, clock(a), id, chunks(a), parseFix, replies)
  }

  /** What the loop relies on from a step: a row is recorded on an open port and carries the packet
      number, a reconnection happens on a closed port, and a halt is neither a completion nor a
      refusal of the GPS server. */
  predicate StepFits(isOpen: bool, id: nat, step: Step)
  {
    (step.Recorded? ==> isOpen && RowOfPacket(step.row, id)) &&
    (step.Reconnected? ==> !isOpen) &&
    (step.Halted? ==> step.end != Completed && step.end != GpsRefused)
  }

  ghost predicate AttemptsFit(attempt: Attempt)
  {
    forall isOpen, a, id, replies :: StepFits(isOpen, id, attempt(isOpen, a, id, replies))
  }

  /** Every attempt of the packet loop fits. */
  lemma AttemptStepsFit(available: bool, clock: nat -> DateTime, chunks: nat -> string, parseFix: string -> Fix)
    ensures AttemptsFit(Attempts(available, clock, chunks, parseFix))
  {
    var attempt := Attempts(available, clock, chunks, parseFix);
    forall isOpen: bool, a: nat, id: nat, replies: seq<string>
      ensures StepFits(isOpen, id, attempt(isOpen, a, id, replies))
    {
      assert attempt(isOpen, a, id, replies) == AttemptStep(isOpen, available, clock(a), id, chunks(a), parseFix, replies);
      AttemptStepFits(isOpen, available, clock(a), id, chunks(a), parseFix, replies);
    }
  }

  lemma AttemptStepFits(isOpen: bool, available: bool, now: DateTime, id: nat, chunk: string,
                        parseFix: string -> Fix, replies: seq<string>)
    ensures StepFits(isOpen, id, AttemptStep(isOpen, available, now, id, chunk, parseFix, replies))
  {
    var step := AttemptStep(isOpen, available, now, id, chunk, parseFix, replies);
    var gga := GgaLines(SplitLines(chunk));
    if gga != [] && isOpen && available {
      var answer := RssiOf(RssiAnswer(replies));
      if answer.Rssi? {
        assert step == Recorded(DataRow(now, id, parseFix(gga[0]), answer.value));
      } else {
        assert step == Halted(NoRssiValue);
      }
    } else {
      assert step == Halted(NoGgaLine) || step == Reconnected || step == Halted(ReconnectFailed) ||
             step == Halted(SerialFault);
    }
  }

  /** What the loop carries from one attempt to the next: the packet number, the attempt number, the
      reconnections so far, the port's state, the radio's queued replies and the commands written
      to it, the rows of the log and how the run stands. */
  datatype Progress = Progress(id: nat, attempt: nat, reconnects: nat, isOpen: bool, replies: seq<string>,
                               sent: seq<string>, rows: seq<seq<string>>, end: RunEnd)

  /** Before the first attempt: packet 0, only the header written. */
  function Start(isOpen: bool, replies: seq<string>, sent: seq<string>): Progress
  {
    Progress(0, 0, 0, isOpen, replies, sent, [Header], Completed)
  }

  /** The state after an attempt that took `step`; every command written takes one of the queued
      replies. */
  function Advance(p: Progress, step: Step): Progress
  {
    var commands := CommandsSent(step, p.id);
    var q := p.(attempt := p.attempt + 1, sent := p.sent + commands, replies := Skip(p.replies, |commands|));
    match step
    case Recorded(row) => q.(id := p.id + 1, isOpen := true, rows := p.rows + [row])
    case Reconnected => q.(reconnects := p.reconnects + 1, isOpen := true)
    case Halted(e) => q.(isOpen := false, end := e)
  }

  /** The state after one more attempt. */
  function Next(attempt: Attempt, p: Progress): Progress
  {
    Advance(p, attempt(p.isOpen, p.attempt, p.id, p.replies))
  }

  /** `while id < numPacketsToSend`: attempt after attempt until `n` packets are recorded or an
      attempt halts the run. */
  function Run(n: int, attempt: Attempt, p: Progress): Progress
    requires AttemptsFit(attempt)
    decreases n - p.id, if p.end == Completed then 1 else 0, if p.isOpen then 0 else 1
  {
    if p.id >= n || p.end != Completed then p else Run(n, attempt, Next(attempt, p))
  }

  /** The packet loop of `send_control_packets`, over the attempts of the radio and the GPS feed. */
  ghost function PacketLoop(n: int, available: bool, clock: nat -> DateTime, chunks: nat -> string,
                            parseFix: string -> Fix, p: Progress): Progress
  {
    AttemptStepsFit(available, clock, chunks, parseFix);
    Run(n, Attempts(available, clock, chunks, parseFix), p)
  }

  /** The log stays numbered: one row per recorded packet after the header, packet `k - 1` in row
      `k`, and rows once written are kept. */
  lemma {:induction false} RunNumbersRows(n: int, attempt: Attempt, p: Progress)
    requires AttemptsFit(attempt) && RowsNumbered(p.rows) && |p.rows| == p.id + 1
    ensures var r := Run(n, attempt, p);
            RowsNumbered(r.rows) && |r.rows| == r.id + 1 && p.rows <= r.rows
    decreases n - p.id, if p.end == Completed then 1 else 0, if p.isOpen then 0 else 1
  {
    if p.id < n && p.end == Completed {
      var step := attempt(p.isOpen, p.attempt, p.id, p.replies);
      AdvanceNumbersRows(p, step);
      RunNumbersRows(n, attempt, Advance(p, step));
    }
  }

  /** An attempt keeps the log numbered when the row it records carries the next packet number. */
  lemma AdvanceNumbersRows(p: Progress, step: Step)
    requires RowsNumbered(p.rows) && |p.rows| == p.id + 1
    requires step.Recorded? ==> RowOfPacket(step.row, p.id)
    ensures var q := Advance(p, step);
            RowsNumbered(q.rows) && |q.rows| == q.id + 1 && p.rows <= q.rows
  {
    if step.Recorded? {
      RowsNumberedAppend(p.rows, step.row);
    }
  }

  /** A run that is still going stops either with all `n` packets recorded, as completed, or halted
      early by an attempt; it never records more than `n`. */
  lemma {:induction false} RunCompletesIff(n: int, attempt: Attempt, p: Progress)
    requires AttemptsFit(attempt)
    requires p.end == Completed && p.id <= if n < 0 then 0 else n
    ensures var r := Run(n, attempt, p);
            r.id <= (if n < 0 then 0 else n) && r.end != GpsRefused &&
            (r.end == Completed <==> r.id == if n < 0 then 0 else n)
    decreases n - p.id, if p.end == Completed then 1 else 0, if p.isOpen then 0 else 1
  {
    if p.id < n {
      var q := Next(attempt, p);
      if q.end == Completed {
        RunCompletesIff(n, attempt, q);
      }
    }
  }

  /** A run reconnects at most once, and never when it started on an open port: a successful attempt
      leaves the port open, a failed one ends the run. */
  lemma {:induction false} RunReconnectsOnce(n: int, attempt: Attempt, p: Progress)
    requires AttemptsFit(attempt)
    requires p.end != Completed ==> !p.isOpen
    ensures var r := Run(n, attempt, p);
            r.reconnects <= p.reconnects + (if p.isOpen then 0 else 1) &&
            (r.end != Completed ==> !r.isOpen)
    decreases n - p.id, if p.end == Completed then 1 else 0, if p.isOpen then 0 else 1
  {
    if p.id < n && p.end == Completed {
      RunReconnectsOnce(n, attempt, Next(attempt, p));
    }
  }

  /** The uplink of every recorded packet was written to the radio, and commands once written stay
      written. */
  lemma {:induction false} RunSendsUplinks(n: int, attempt: Attempt, p: Progress)
    requires AttemptsFit(attempt) && UplinksSent(p.sent, p.id)
    ensures var r := Run(n, attempt, p);
            UplinksSent(r.sent, r.id) && p.sent <= r.sent
    decreases n - p.id, if p.end == Completed then 1 else 0, if p.isOpen then 0 else 1
  {
    if p.id < n && p.end == Completed {
      var q := Next(attempt, p);
      UplinksKept(p.sent, q.sent, p.id);
      RunSendsUplinks(n, attempt, q);
    }
  }

  /** After the header, row `k` is what the attempt of packet `k - 1` recorded on an open port: that
      attempt is number `k - 1 + offset` (`offset` counts the reconnecting attempts before it) and
      finds the radio's replies from position `2 * (k - 1)` on, since an uplink and an RSSI query
      each take one. */
  predicate RowsMatch(rows: seq<seq<string>>, attempt: Attempt, offset: nat, replies: seq<string>)
  {
    forall k :: 1 <= k < |rows| ==>
      attempt(true, k - 1 + offset, k - 1, Skip(replies, 2 * (k - 1))) == Recorded(rows[k])
  }

  lemma RowsMatchAppend(rows: seq<seq<string>>, row: seq<string>, attempt: Attempt, offset: nat,
                        replies: seq<string>)
    requires |rows| >= 1 && RowsMatch(rows, attempt, offset, replies)
    requires attempt(true, |rows| - 1 + offset, |rows| - 1, Skip(replies, 2 * (|rows| - 1))) == Recorded(row)
    ensures RowsMatch(rows + [row], attempt, offset, replies)
  {
  }

  lemma SkipFurther(replies: seq<string>, n: nat, m: nat)
    ensures Skip(Skip(replies, n), m) == Skip(replies, n + m)
  {
  }

  /** A run still going has made one attempt per recorded packet plus one per reconnection, has
      consumed two replies per recorded packet, has one row per packet after the header, and has the
      port open once it made an attempt (`isOpen` is the port's state at the start). */
  predicate Aligned(p: Progress, isOpen: bool, replies: seq<string>)
  {
    p.attempt == p.id + p.reconnects && p.replies == Skip(replies, 2 * p.id) && |p.rows| == p.id + 1 &&
    p.isOpen == (isOpen || p.attempt > 0)
  }

  /** A run that stopped early was stopped by its last attempt, number `id + reconnects`, made at
      packet `id` with the replies left after two per recorded packet. */
  predicate EndExplained(r: Progress, attempt: Attempt, isOpen: bool, replies: seq<string>)
  {
    r.end != Completed ==>
      attempt(isOpen || r.id + r.reconnects > 0, r.id + r.reconnects, r.id, Skip(replies, 2 * r.id)) ==
        Halted(r.end)
  }

  /** One more attempt keeps the rows tied to their attempts and the run aligned, or explains the
      halt. */
  lemma NextRecordsInputs(attempt: Attempt, p: Progress, isOpen: bool, replies: seq<string>)
    requires AttemptsFit(attempt) && p.end == Completed && Aligned(p, isOpen, replies)
    requires RowsMatch(p.rows, attempt, p.reconnects, replies)
    ensures var q := Next(attempt, p);
            RowsMatch(q.rows, attempt, q.reconnects, replies) &&
            (q.end == Completed ==> Aligned(q, isOpen, replies)) && EndExplained(q, attempt, isOpen, replies)
  {
    var step := attempt(p.isOpen, p.attempt, p.id, p.replies);
    assert Next(attempt, p) == Advance(p, step);
    assert StepFits(p.isOpen, p.id, step);
    if step.Recorded? {
      assert |p.rows| - 1 == p.id && p.attempt == p.id + p.reconnects && p.isOpen;
      SkipFurther(replies, 2 * p.id, 2);
      RowsMatchAppend(p.rows, step.row, attempt, p.reconnects, replies);
    }
  }

  /** Each recorded row comes from its own attempt's inputs, and a run that stops early says which
      attempt stopped it. */
  lemma {:induction false} RunRecordsInputs(n: int, attempt: Attempt, p: Progress, isOpen: bool,
                                            replies: seq<string>)
    requires AttemptsFit(attempt) && RowsMatch(p.rows, attempt, p.reconnects, replies)
    requires p.end == Completed ==> Aligned(p, isOpen, replies)
    requires EndExplained(p, attempt, isOpen, replies)
    ensures var r := Run(n, attempt, p);
            RowsMatch(r.rows, attempt, r.reconnects, replies) && EndExplained(r, attempt, isOpen, replies)
    decreases n - p.id, if p.end == Completed then 1 else 0, if p.isOpen then 0 else 1
  {
    if p.id < n && p.end == Completed {
      NextRecordsInputs(attempt, p, isOpen, replies);
      RunRecordsInputs(n, attempt, Next(attempt, p), isOpen, replies);
    }
  }

  /** Everything a run from the start promises: a numbered log of at most `n` packets, complete exactly
      when all `n` were recorded; every recorded packet's uplink written; at most one reconnection,
      none on a port that was open; each row taken from its own attempt; and the attempt that
      stopped an early end. */
  lemma RunFromStart(n: int, attempt: Attempt, isOpen: bool, replies: seq<string>, sent: seq<string>)
    requires AttemptsFit(attempt)
    ensures var r := Run(n, attempt, Start(isOpen, replies, sent));
            var packets := |r.rows| - 1;
            RowsNumbered(r.rows) &&
            (r.end == Completed <==> packets == if n < 0 then 0 else n) && r.end != GpsRefused &&
            UplinksSent(r.sent, packets) && sent <= r.sent &&
            r.reconnects <= 1 && (isOpen ==> r.reconnects == 0) && (r.end != Completed ==> !r.isOpen) &&
            RowsMatch(r.rows, attempt, r.reconnects, replies) && EndExplained(r, attempt, isOpen, replies)
  {
    var p := Start(isOpen, replies, sent);
    RunNumbersRows(n, attempt, p);
    RunCompletesIff(n, attempt, p);
    RunSendsUplinks(n, attempt, p);
    RunReconnectsOnce(n, attempt, p);
    RunRecordsInputs(n, attempt, p, isOpen, replies);
  }

  /** `killScript`: close the radio's port; the caller then leaves with `SystemExit(0)`. */
  method KillScript(dev: LoraEndDevice)
    modifies dev`isOpen, dev`inbox
    ensures !dev.isOpen && dev.inbox == []
  {
    dev.CloseSerialPort();
  }

  /** `open_serial_port`: any SerialException (also "already open") ends in killScript. */
  method OpenSerialPortOrKill(dev: LoraEndDevice) returns (ok: bool)
    modifies dev`isOpen, dev`inbox
    ensures ok == (!old(dev.isOpen) && dev.available)
    ensures dev.isOpen == ok
    ensures ok ==> dev.inbox == old(dev.inbox)
    ensures !ok ==> dev.inbox == []
  {
    var r := dev.OpenSerialPort();
    ok := r == Opened;
    if !ok {
      KillScript(dev);
    }
  }

  /** One attempt at packet `id`: the body of the loop's `try` block and its exception handlers. */
  method PacketAttempt(dev: LoraEndDevice, id: nat, now: DateTime, chunk: string, parseFix: string -> Fix)
    returns (step: Step)
    modifies dev`sent, dev`inbox, dev`replies, dev`lastAtCmdRx, dev`isOpen
    ensures step == AttemptStep(old(dev.isOpen), dev.available, now, id, chunk, parseFix, old(dev.replies))
    ensures dev.isOpen <==> step.Recorded? || step.Reconnected?
    ensures dev.sent == old(dev.sent) + CommandsSent(step, id)
    ensures dev.replies == Skip(old(dev.replies), |CommandsSent(step, id)|)
    ensures step.Reconnected? ==> !old(dev.isOpen)
    ensures step.Halted? ==> step.end != Completed
    ensures step.Halted? ==> dev.inbox == []
    ensures step.Reconnected? ==> dev.inbox == old(dev.inbox)
    ensures step.Recorded? ==> NextReply(LaterReplies(old(dev.replies))) == dev.lastAtCmdRx + dev.inbox
    ensures step.Recorded? || step == Halted(NoRssiValue) ==> dev.lastAtCmdRx == RssiAnswer(old(dev.replies))
    ensures step == Halted(SerialFault) ==>
              dev.lastAtCmdRx == Take(old(dev.inbox) + NextReply(old(dev.replies)), ReadSize)
    ensures step.Reconnected? || step == Halted(NoGgaLine) || step == Halted(ReconnectFailed) ==>
              dev.lastAtCmdRx == old(dev.lastAtCmdRx)
  {
    var gga := GgaLines(SplitLines(chunk));
    if gga == [] {
      KillScript(dev);
      return Halted(NoGgaLine);
    }
    var fix := parseFix(gga[0]);
    var sentUplink := dev.SendPacketToGateway(id);
    if !sentUplink {
      var reopened := OpenSerialPortOrKill(dev);
      return if reopened then Reconnected else Halted(ReconnectFailed);
    }
    var rssi := dev.GetUpdatedRssi();
    match rssi {
      case ResetFailed =>
        return Halted(SerialFault);
      case NoRssiToken =>
        KillScript(dev);
        return Halted(NoRssiValue);
      case Rssi(v) =>
        return Recorded(DataRow(now, id, fix, v));
    }
  }

  /** One pass through the body of the packet loop: the attempt, then the bookkeeping of the packet
      number, the attempt count, the reconnections, the rows and how the run ends. */
  method LoopPass(dev: LoraEndDevice, clock: nat -> DateTime, chunks: nat -> string, parseFix: string -> Fix,
                  id: nat, attempt: nat, ghost reconnects: nat, rows: seq<seq<string>>)
    returns (id': nat, attempt': nat, ghost reconnects': nat, rows': seq<seq<string>>, end': RunEnd)
    modifies dev`sent, dev`inbox, dev`replies, dev`lastAtCmdRx, dev`isOpen
    ensures Progress(id', attempt', reconnects', dev.isOpen, dev.replies, dev.sent, rows', end') ==
            Next(Attempts(dev.available, clock, chunks, parseFix),
                 Progress(id, attempt, reconnects, old(dev.isOpen), old(dev.replies), old(dev.sent), rows, Completed))
    ensures id' == id + 1 || end' != Completed || (id' == id && !old(dev.isOpen) && dev.isOpen)
    ensures end' != Completed ==> dev.inbox == []
  {
    ghost var p := Progress(id, attempt, reconnects, dev.isOpen, dev.replies, dev.sent, rows, Completed);
    var step := PacketAttempt(dev, id, clock(attempt), chunks(attempt), parseFix);
    id', attempt', reconnects', rows', end' := id, attempt + 1, reconnects, rows, Completed;
    match step {
      case Recorded(row) =>
        rows' := rows + [row];
        id' := id + 1;
      case Reconnected =>
        reconnects' := reconnects + 1;
      case Halted(e) =>
        end' := e;
    }
    assert Progress(id', attempt', reconnects', dev.isOpen, dev.replies, dev.sent, rows', end') == Advance(p, step);
  }

  /** The `while id < numPacketsToSend` loop of `send_control_packets`: attempt number `a` starts at
      `clock(a)` and reads `chunks(a)` from the GPS socket; it ends as `Run` describes. */
  method SendPackets(dev: LoraEndDevice, numPacketsToSend: int, clock: nat -> DateTime, chunks: nat -> string,
                     parseFix: string -> Fix)
    returns (rows: seq<seq<string>>, end: RunEnd, ghost reconnects: nat)
    modifies dev`sent, dev`inbox, dev`replies, dev`lastAtCmdRx, dev`isOpen
    ensures var r := PacketLoop(numPacketsToSend, dev.available, clock, chunks, parseFix,
                                Start(old(dev.isOpen), old(dev.replies), old(dev.sent)));
            rows == r.rows && end == r.end && dev.sent == r.sent && dev.replies == r.replies &&
            reconnects == r.reconnects && dev.isOpen == r.isOpen
    ensures end != Completed ==> dev.inbox == []
  {
    AttemptStepsFit(dev.available, clock, chunks, parseFix);
    ghost var attempts := Attempts(dev.available, clock, chunks, parseFix);
    ghost var final := Run(numPacketsToSend, attempts, Start(dev.isOpen, dev.replies, dev.sent));
    var id: nat := 0;
    var attempt: nat := 0;
    reconnects := 0;
    rows := [Header];
    end := Completed;
    while id < numPacketsToSend && end == Completed
      invariant Run(numPacketsToSend, attempts, Progress(id, attempt, reconnects, dev.isOpen, dev.replies, dev.sent,
                                                         rows, end)) == final
      invariant end != Completed ==> dev.inbox == []
      decreases numPacketsToSend - id, if end == Completed then 1 else 0, if dev.isOpen then 0 else 1
    {
      id, attempt, reconnects, rows, end := LoopPass(dev, clock, chunks, parseFix, id, attempt, reconnects, rows);
    }
  }

  /** `send_control_packets(numPacketsToSend)`: without the GPS server the run stops before the log
      exists; otherwise the packet loop runs, the port is closed when it completes, and the log is
      named after the start time. */
  method SendControlPackets(dev: LoraEndDevice, numPacketsToSend: int, gpsReachable: bool, start: DateTime,
                            clock: nat -> DateTime, chunks: nat -> string, parseFix: string -> Fix)
    returns (log: Option<CsvFile>, end: RunEnd, ghost reconnects: nat)
    modifies dev`sent, dev`inbox, dev`replies, dev`lastAtCmdRx, dev`isOpen
    ensures !dev.isOpen && dev.inbox == []
    ensures log.None? <==> end == GpsRefused
    ensures log.None? ==> dev.sent == old(dev.sent) && dev.replies == old(dev.replies)
    ensures log.Some? ==>
              var r := PacketLoop(numPacketsToSend, dev.available, clock, chunks, parseFix,
                                  Start(old(dev.isOpen), old(dev.replies), old(dev.sent)));
              log.value == CsvFile(RunLogName(start), r.rows) && end == r.end && dev.sent == r.sent &&
              dev.replies == r.replies && reconnects == r.reconnects
  {
    if !gpsReachable {
      KillScript(dev);
      return None, GpsRefused, 0;
    }
    ghost var p := Start(dev.isOpen, dev.replies, dev.sent);
    AttemptStepsFit(dev.available, clock, chunks, parseFix);
    ghost var attempts := Attempts(dev.available, clock, chunks, parseFix);
    RunCompletesIff(numPacketsToSend, attempts, p);
    RunReconnectsOnce(numPacketsToSend, attempts, p);
    var rows;
    rows, end, reconnects := SendPackets(dev, numPacketsToSend, clock, chunks, parseFix);
    if end == Completed {
      dev.CloseSerialPort();
    }
    log := Some(CsvFile(RunLogName(start), rows));
  }
}
