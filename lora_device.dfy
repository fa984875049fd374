/** The radio end device and its AT command protocol (`LoraEndDevice` and `returnFilteredINTs` in
    send_control_packets.py).

    The serial port is the object's state: whether it is open, the bytes the radio sent that were
    not read yet, the commands written to it, and the last answer read. What the radio answers is
    given up front as `replies`, one reply per command it receives. */
module LoraDevice {
  import opened Wrappers
  import opened PyText

  // ---------------------------------------------------------------- commands

  const JoinText := "AT+JOIN"
  const JoinStatusText := "AT+NJS?"
  const RssiText := "AT+RSSI"
  const UplinkPrefix := "AT+SEND="

  /** Bytes taken by one read of the port. */
  const ReadSize := 100

  /** `'{}\r\n'.format(msg)`: every command goes out as one CR-LF terminated line. */
  function Command(text: string): string { text + "\r\n" }

  /** `'AT+SEND=' + str(message)`. */
  function UplinkText(id: nat): string { UplinkPrefix + NatToDecimal(id) }

  /** How the radio reads an uplink command: the prefix, the decimal payload, CR-LF. */
  function ParseUplink(cmd: string): Option<nat>
  {
    var n := |UplinkPrefix|;
    if |cmd| > n + 2 && cmd[..n] == UplinkPrefix && cmd[|cmd| - 2..] == "\r\n" && AllDigits(cmd[n..|cmd| - 2])
    then Some(DecimalValue(cmd[n..|cmd| - 2]))
    else None
  }

  /** The radio reads the packet number back out of the uplink command. */
  lemma UplinkRoundTrip(id: nat)
    ensures ParseUplink(Command(UplinkText(id))) == Some(id)
  {
    var cmd := Command(UplinkText(id));
    var d := NatToDecimal(id);
    assert cmd == UplinkPrefix + d + "\r\n";
    assert cmd[..|UplinkPrefix|] == UplinkPrefix;
    assert cmd[|UplinkPrefix|..|cmd| - 2] == d;
    assert cmd[|cmd| - 2..] == "\r\n";
    DecimalRoundTrip(id);
  }

  /** Uplinks for different packets are different commands. */
  lemma UplinkCommandsDistinct(a: nat, b: nat)
    ensures a != b ==> Command(UplinkText(a)) != Command(UplinkText(b))
  {
    UplinkRoundTrip(a);
    UplinkRoundTrip(b);
  }

  /** A command whose text holds no line break reaches the radio as exactly that one line. */
  lemma CommandIsOneLine(text: string)
    requires NoLineBreak(text)
    ensures SplitLines(Command(text)) == [text]
  {
    assert CrLfTerminated([text]) == Command(text);
    SplitLinesOfCrLfTerminated([text]);
  }

  // ---------------------------------------------------------------- answers

  /** `returnFilteredINTs` on already split lines: the value of every line `int()` accepts, in order. */
  function FilteredInts(lines: seq<string>): seq<int>
    decreases |lines|
  {
    if lines == [] then []
    else (match ParsePyInt(lines[0]) case Some(v) => [v] case None => []) + FilteredInts(lines[1..])
  }

  /** Filtering a concatenation filters each part in turn: the order of lines is kept. */
  lemma {:induction false} FilteredIntsAppend(a: seq<string>, b: seq<string>)
    ensures FilteredInts(a + b) == FilteredInts(a) + FilteredInts(b)
    decreases |a|
  {
    if a != [] {
      var head := match ParsePyInt(a[0]) case Some(v) => [v] case None => [];
      assert (a + b)[0] == a[0];
      assert (a + b)[1..] == a[1..] + b;
      assert FilteredInts(a + b) == head + FilteredInts(a[1..] + b);
      FilteredIntsAppend(a[1..], b);
      assert FilteredInts(a) == head + FilteredInts(a[1..]);
    } else {
      assert a + b == b;
    }
  }

  /** A value is kept exactly when some line parses to it. */
  lemma {:induction false} FilteredIntsMembers(lines: seq<string>, v: int)
    ensures v in FilteredInts(lines) <==> exists k :: 0 <= k < |lines| && ParsePyInt(lines[k]) == Some(v)
    decreases |lines|
  {
    if lines != [] {
      FilteredIntsMembers(lines[1..], v);
      if exists k :: 0 <= k < |lines[1..]| && ParsePyInt(lines[1..][k]) == Some(v) {
        var k :| 0 <= k < |lines[1..]| && ParsePyInt(lines[1..][k]) == Some(v);
        assert lines[k + 1] == lines[1..][k];
      }
      if exists k :: 0 <= k < |lines| && ParsePyInt(lines[k]) == Some(v) {
        var k :| 0 <= k < |lines| && ParsePyInt(lines[k]) == Some(v);
        if k > 0 {
          assert lines[1..][k - 1] == lines[k];
        }
      }
    }
  }

  /** Nothing is kept exactly when no line is an integer; that is never an error. */
  lemma {:induction false} FilteredIntsEmptyIff(lines: seq<string>)
    ensures FilteredInts(lines) == [] <==> forall k :: 0 <= k < |lines| ==> ParsePyInt(lines[k]).None?
    decreases |lines|
  {
    if lines != [] {
      FilteredIntsEmptyIff(lines[1..]);
      if forall k :: 0 <= k < |lines| ==> ParsePyInt(lines[k]).None? {
        assert forall k :: 0 <= k < |lines[1..]| ==> ParsePyInt(lines[1..][k]).None? by {
          forall k | 0 <= k < |lines[1..]| ensures ParsePyInt(lines[1..][k]).None? {
            assert lines[1..][k] == lines[k + 1];
          }
        }
      }
      if ParsePyInt(lines[0]).None? && forall k :: 0 <= k < |lines[1..]| ==> ParsePyInt(lines[1..][k]).None? {
        forall k | 0 <= k < |lines| ensures ParsePyInt(lines[k]).None? {
          if k > 0 {
            assert lines[k] == lines[1..][k - 1];
          }
        }
      }
    }
  }

  /** The first value kept is the value of the first integer line. */
  lemma {:induction false} FilteredIntsHead(lines: seq<string>, i: nat)
    requires i < |lines| && ParsePyInt(lines[i]).Some?
    requires forall k :: 0 <= k < i ==> ParsePyInt(lines[k]).None?
    ensures FilteredInts(lines) != [] && FilteredInts(lines)[0] == ParsePyInt(lines[i]).value
    decreases i
  {
    if i > 0 {
      FilteredIntsHead(lines[1..], i - 1);
      assert lines[1..][i - 1] == lines[i];
    }
  }

  /** What `checkJoinStatus` makes of the integers it found. */
  datatype JoinStatus =
    | NotJoined      // first integer 0: returns False
    | Joined         // first integer 1: returns True
    | Undecided      // any other first integer: falls through and returns None
    | ScriptExit     // no integer: IndexError, the port is closed and the script exits
    | PortNotOpen    // the port was closed: reading the answer raises PortNotOpenError

  function DecideJoin(ints: seq<int>): JoinStatus
  {
    if ints == [] then ScriptExit
    else if ints[0] == 0 then NotJoined
    else if ints[0] == 1 then Joined
    else Undecided
  }

  /** The join status follows the first line of the answer that is an integer. */
  lemma JoinStatusFromFirstIntLine(answer: string, i: nat)
    requires i < |SplitLines(answer)| && ParsePyInt(SplitLines(answer)[i]).Some?
    requires forall k :: 0 <= k < i ==> ParsePyInt(SplitLines(answer)[k]).None?
    ensures var v := ParsePyInt(SplitLines(answer)[i]).value;
            DecideJoin(FilteredInts(SplitLines(answer))) ==
              if v == 0 then NotJoined else if v == 1 then Joined else Undecided
  {
    FilteredIntsHead(SplitLines(answer), i);
  }

  /** The script exits exactly when no line of the answer is an integer. */
  lemma JoinExitIffNoIntLine(answer: string)
    ensures DecideJoin(FilteredInts(SplitLines(answer))) == ScriptExit <==>
            forall k :: 0 <= k < |SplitLines(answer)| ==> ParsePyInt(SplitLines(answer)[k]).None?
  {
    FilteredIntsEmptyIff(SplitLines(answer));
  }

  /** What `getUpdatedRSSI` makes of its answer, or why it fails. */
  datatype RssiResult =
    | Rssi(value: int)   // the first integer token of the answer
    | NoRssiToken        // no token: IndexError
    | ResetFailed        // the port could not be reopened: SerialException

  function RssiOf(answer: string): RssiResult
  {
    var tokens := IntTokens(answer);
    if tokens == [] then NoRssiToken else Rssi(tokens[0])
  }

  /** The RSSI is the number at the first digit of the answer, negative when a minus sign stands
      right before that digit; there is none exactly when the answer has no digit. */
  lemma RssiIsFirstNumber(answer: string)
    ensures RssiOf(answer) == NoRssiToken <==> !HasDigit(answer)
    ensures forall i :: 0 <= i < |answer| && IsDigit(answer[i]) && (forall j :: 0 <= j < i ==> !IsDigit(answer[j])) ==>
              RssiOf(answer) == Rssi((if i > 0 && answer[i - 1] == '-' then -1 else 1) *
                                     DecimalValue(answer[i..][..LeadingDigits(answer[i..])]))
  {
    IntTokensEmptyIff(answer);
    forall i | 0 <= i < |answer| && IsDigit(answer[i]) && (forall j :: 0 <= j < i ==> !IsDigit(answer[j]))
      ensures RssiOf(answer) == Rssi((if i > 0 && answer[i - 1] == '-' then -1 else 1) *
                                     DecimalValue(answer[i..][..LeadingDigits(answer[i..])]))
    {
      FirstIntToken(answer, i);
    }
  }

  // ---------------------------------------------------------------- the serial port

  /** What the radio sends back to its next command: nothing when it has no more replies. */
  function NextReply(replies: seq<string>): string { if replies == [] then "" else replies[0] }

  function LaterReplies(replies: seq<string>): seq<string> { if replies == [] then [] else replies[1..] }

  /** One `read(100)`: at most 100 bytes of what is waiting. */
  function Take(s: string, n: nat): (r: string)
    ensures |r| <= n && r <= s
    ensures |s| <= n ==> r == s
  {
    if |s| <= n then s else s[..n]
  }

  datatype SerialConfig = SerialConfig(
    baudrate: nat, bytesize: nat, parity: char, stopbits: nat, timeout: nat, rtscts: bool, xonxoff: bool)

  const DefaultPort := "/dev/ttyUSB0"
  const DefaultConfig := SerialConfig(115200, 8, 'N', 1, 2, false, false)

  datatype OpenResult = Opened | AlreadyOpen | OpenFailed

  class LoraEndDevice {
    var port: string
    const config: SerialConfig
    /** Whether the operating system lets the script open the port. */
    const available: bool
    var isOpen: bool
    /** Bytes the radio sent that have not been read yet. */
    var inbox: string
    /** What the radio will answer, one reply per command it receives. */
    var replies: seq<string>
    /** Every command written to the port, in order. */
    var sent: seq<string>
    var lastAtCmdRx: string

    /** `__init__`: a closed port with the fixed line settings. */
    constructor (available: bool, replies: seq<string>)
      ensures port == DefaultPort && config == DefaultConfig
      ensures this.available == available && this.replies == replies
      ensures !isOpen && inbox == [] && sent == [] && lastAtCmdRx == []
    {
      port := DefaultPort;
      config := DefaultConfig;
      this.available := available;
      isOpen := false;
      inbox := [];
      this.replies := replies;
      sent := [];
      lastAtCmdRx := [];
    }

    /** `setPortCom`: pyserial's `port` setter closes an open port and opens it again under the new
        name; `ok` is false where that reopening raises SerialException. */
    method SetPortCom(newPort: string) returns (ok: bool)
      modifies this`port, this`isOpen, this`inbox
      ensures port == newPort
      ensures old(isOpen) ==> ok == available && isOpen == available && inbox == []
      ensures !old(isOpen) ==> ok && !isOpen && inbox == old(inbox)
    {
      ok := true;
      if isOpen {
        CloseSerialPort();
        port := newPort;
        var r := OpenSerialPort();
        ok := r == Opened;
      } else {
        port := newPort;
      }
    }

    /** `openSerialPort`: opening an open port or an unavailable one raises SerialException. */
    method OpenSerialPort() returns (r: OpenResult)
      modifies this`isOpen
      ensures r == (if old(isOpen) then AlreadyOpen else if available then Opened else OpenFailed)
      ensures isOpen == (old(isOpen) || available)
    {
      if isOpen {
        r := AlreadyOpen;
      } else if available {
        isOpen := true;
        r := Opened;
      } else {
        r := OpenFailed;
      }
    }

    /** `closeSerialPort`: unread input is dropped with the connection. */
    method CloseSerialPort()
      modifies this`isOpen, this`inbox
      ensures !isOpen && inbox == []
    {
      isOpen := false;
      inbox := [];
    }

    /** `resetSerialPort`: close, then open again; afterwards nothing stale is waiting. */
    method ResetSerialPort() returns (r: OpenResult)
      modifies this`isOpen, this`inbox
      ensures r == (if available then Opened else OpenFailed)
      ensures isOpen == available && inbox == []
    {
      CloseSerialPort();
      r := OpenSerialPort();
    }

    /** `sendCmdAt`: writes only to an open port; the radio then queues its reply. */
    method SendCmdAt(cmd: string)
      modifies this`sent, this`inbox, this`replies
      ensures old(isOpen) ==> sent == old(sent) + [cmd] && inbox == old(inbox) + NextReply(old(replies)) &&
                              replies == LaterReplies(old(replies))
      ensures !old(isOpen) ==> sent == old(sent) && inbox == old(inbox) && replies == old(replies)
    {
      if isOpen {
        sent := sent + [cmd];
        inbox := inbox + NextReply(replies);
        replies := LaterReplies(replies);
      }
    }

    /** `getAtAnswer`: `ok` is false where reading a closed port raises PortNotOpenError. */
    method GetAtAnswer() returns (ok: bool)
      modifies this`lastAtCmdRx, this`inbox
      ensures ok == isOpen
      ensures ok ==> lastAtCmdRx == Take(old(inbox), ReadSize) && old(inbox) == lastAtCmdRx + inbox
      ensures !ok ==> lastAtCmdRx == old(lastAtCmdRx) && inbox == old(inbox)
    {
      ok := isOpen;
      if ok {
        lastAtCmdRx := Take(inbox, ReadSize);
        inbox := inbox[|lastAtCmdRx|..];
      }
    }

    /** `sendMessage`: write the command line, then read the answer. */
    method SendMessage(msg: string) returns (ok: bool)
      modifies this`sent, this`inbox, this`replies, this`lastAtCmdRx
      ensures ok == isOpen
      ensures ok ==> sent == old(sent) + [Command(msg)] && replies == LaterReplies(old(replies)) &&
                     lastAtCmdRx == Take(old(inbox) + NextReply(old(replies)), ReadSize) &&
                     old(inbox) + NextReply(old(replies)) == lastAtCmdRx + inbox
      ensures !ok ==> sent == old(sent) && replies == old(replies) &&
                      lastAtCmdRx == old(lastAtCmdRx) && inbox == old(inbox)
    {
      SendCmdAt(Command(msg));
      ok := GetAtAnswer();
    }

    /** `sendPacketToGateway`: the uplink carrying the packet number. */
    method SendPacketToGateway(id: nat) returns (ok: bool)
      modifies this`sent, this`inbox, this`replies, this`lastAtCmdRx
      ensures ok == isOpen
      ensures ok ==> sent == old(sent) + [Command(UplinkText(id))] && replies == LaterReplies(old(replies)) &&
                     lastAtCmdRx == Take(old(inbox) + NextReply(old(replies)), ReadSize) &&
                     old(inbox) + NextReply(old(replies)) == lastAtCmdRx + inbox
      ensures !ok ==> sent == old(sent) && replies == old(replies) &&
                      lastAtCmdRx == old(lastAtCmdRx) && inbox == old(inbox)
    {
      ok := SendMessage(UplinkText(id));
    }

    /** `sendJoinRequest`: the answer is read but not interpreted. */
    method SendJoinRequest() returns (ok: bool)
      modifies this`sent, this`inbox, this`replies, this`lastAtCmdRx
      ensures ok == isOpen
      ensures ok ==> sent == old(sent) + [Command(JoinText)] && replies == LaterReplies(old(replies)) &&
                     lastAtCmdRx == Take(old(inbox) + NextReply(old(replies)), ReadSize) &&
                     old(inbox) + NextReply(old(replies)) == lastAtCmdRx + inbox
      ensures !ok ==> sent == old(sent) && replies == old(replies) &&
                      lastAtCmdRx == old(lastAtCmdRx) && inbox == old(inbox)
    {
      ok := SendMessage(JoinText);
    }

    /** `checkJoinStatus`: query, then decide on the first integer line of the answer. */
    method CheckJoinStatus() returns (status: JoinStatus)
      modifies this`sent, this`inbox, this`replies, this`lastAtCmdRx, this`isOpen
      ensures !old(isOpen) ==> status == PortNotOpen && !isOpen && sent == old(sent) &&
                               replies == old(replies) && inbox == old(inbox) && lastAtCmdRx == old(lastAtCmdRx)
      ensures old(isOpen) ==> sent == old(sent) + [Command(JoinStatusText)] &&
                              replies == LaterReplies(old(replies)) &&
                              lastAtCmdRx == Take(old(inbox) + NextReply(old(replies)), ReadSize) &&
                              status == DecideJoin(FilteredInts(SplitLines(lastAtCmdRx))) &&
                              isOpen == (status != ScriptExit)
      ensures old(isOpen) && status == ScriptExit ==> inbox == []
      ensures old(isOpen) && status != ScriptExit ==> old(inbox) + NextReply(old(replies)) == lastAtCmdRx + inbox
    {
      var ok := SendMessage(JoinStatusText);
      if !ok {
        return PortNotOpen;
      }
      var data := ReturnFilteredInts(lastAtCmdRx);
      status := DecideJoin(data);
      if status == ScriptExit {
        CloseSerialPort();
      }
    }

    /** `getUpdatedRSSI`: reset the port so that only the reply to `AT+RSSI` is read, then take
        the first integer of that reply. */
    method GetUpdatedRssi() returns (r: RssiResult)
      modifies this`sent, this`inbox, this`replies, this`lastAtCmdRx, this`isOpen
      ensures isOpen == available
      ensures !available ==> r == ResetFailed && inbox == [] && sent == old(sent) && replies == old(replies) &&
                             lastAtCmdRx == old(lastAtCmdRx)
      ensures available ==> sent == old(sent) + [Command(RssiText)] && replies == LaterReplies(old(replies)) &&
                            lastAtCmdRx == Take(NextReply(old(replies)), ReadSize) &&
                            NextReply(old(replies)) == lastAtCmdRx + inbox && r == RssiOf(lastAtCmdRx)
    {
      var reopened := ResetSerialPort();
      if reopened != Opened {
        return ResetFailed;
      }
      var ok := SendMessage(RssiText);
      assert ok;
      r := RssiOf(lastAtCmdRx);
    }
  }

  /** `returnFilteredINTs`: split the answer into lines and keep, in order, the value of every
      line `int()` accepts; the other lines are skipped. */
  method ReturnFilteredInts(dataStream: string) returns (filtered: seq<int>)
    ensures filtered == FilteredInts(SplitLines(dataStream))
  {
    var lines := SplitLines(dataStream);
    filtered := [];
    for i := 0 to |lines|
      invariant filtered == FilteredInts(lines[..i])
    {
      FilteredIntsAppend(lines[..i], [lines[i]]);
      assert lines[..i + 1] == lines[..i] + [lines[i]];
      match ParsePyInt(lines[i]) {
        case Some(v) => filtered := filtered + [v];
        case None =>
      }
    }
    assert lines[..|lines|] == lines;
  }
}
