# LoRa control packets: a Dafny model

LoRaLTA is a field tool for measuring LoRa link quality. It drives a LoRa end device over a serial
port with AT commands and reads the position from a phone's GPS feed over a TCP socket. For each
packet number `0, 1, …, n-1` it sends an uplink carrying that number, asks the radio for the RSSI it
last measured, and appends one row to a CSV log named after the run's start time. After the run it
offers to fetch the gateway side from The Things Network Storage API into a text archive named after
the run log. A second script turns such an archive, one JSON record per line, into a two-column
table of packet number and gateway RSSI.

This project models that core in Dafny:

- `PyText` (`py_text.dfy`): the Python text rules the scripts rely on:
  - `str(n)` for integers;
  - `int(line)` on one line (ASCII digits, an optional sign, `_` between digits, surrounding
    space and `\t` .. `\r`);
  - `str.splitlines()`;
  - `re.findall('-?\d+', s)` with `\d` read as an ASCII digit.
- `RunFiles` (`run_files.dfy`): the run log's name `Y-M-D_h-m-s_LoRa-Deice-GPS-RSSI-data.csv`,
  without zero padding. It also models `str.split('_')` and the two names derived from the run log
  by keeping its first two `_`-separated fields.
- `LoraDevice` (`lora_device.dfy`): the class `LoraEndDevice` and `returnFilteredINTs`.
  - The serial port is the object's state:
    - `isOpen`: whether the port is open;
    - `inbox`: the bytes the radio sent and the script has not read;
    - `sent`: the commands written;
    - `lastAtCmdRx`: the last answer read.
  - What the radio answers is the field `replies`, one reply per command it receives.
  - Whether the operating system lets the port open is the constant `available`.
- `ControlLoop` (`control_loop.dfy`): the packet loop of `send_control_packets`.
  - `AttemptStep` is one pass through the loop's `try` block and its handlers, as a function.
  - `Run` is the loop as a function.
  - `PacketAttempt`, `LoopPass`, `SendPackets` and `SendControlPackets` are the imperative loop over
    a `LoraEndDevice`. Each is proved equal to those functions.
  - The lemmas about `Run` state what a run promises:
    - the log's packet numbers are `0 … k-1`, in order, each once;
    - a run completes exactly when all `n` packets were recorded;
    - there is at most one reconnection;
    - every recorded packet's uplink was written;
    - each row comes from the inputs of its own attempt;
    - an early end is explained by the attempt that caused it.
- `StorageExport` (`storage_export.dfy`): `process_raw_data`. It keeps the non-empty lines of the
  archive, derives the output name and writes the header and then one row per record.

Inputs the scripts take from the outside world are parameters of the model:

- the GPS chunk read by each attempt (`chunks`);
- the time each attempt starts (`clock`) and the run's start time;
- whether the GPS server accepts the connection (`gpsReachable`);
- the NMEA parser (`parseFix`);
- the JSON and base64 decoding of one archive line (`decode`);
- the radio's replies.

Facts about the code that the model keeps:

- `killScript` exits with status 0, a success status, on every path that calls it, even after a
  failure.
- A retry after reconnecting reads a fresh chunk from the GPS socket. It does not reuse the position
  it had already parsed. Attempt `a` reads `chunks(a)`.
- The 120 s duty-cycle delay is declared but never used. The code sleeps 2 s and 5 s. No pacing
  property is claimed.
- `checkJoinStatus` returns `None` for a first integer other than 0 or 1. The model reports this as
  `Undecided`. It does not read it as "not joined".

## Model

| member | source | states |
|---|---|---|
| PyText.NatToDecimal | send_control_packets.py:73 | `str(n)` of a natural number: its decimal digits, without leading zeros |
| PyText.IntToDecimal | send_control_packets.py:294 | `str(i)` of an integer: a minus sign before the digits of a negative one |
| PyText.ParsePyInt | send_control_packets.py:155 | `int(line)`: `None` where Python raises ValueError, otherwise the signed value of the digit groups between whitespace |
| PyText.SplitLines | send_control_packets.py:150 | `str.splitlines()`: the lines between Python's line boundaries, a CR-LF pair counting as one |
| PyText.IntTokens | send_control_packets.py:102-103 | the values of `re.findall('-?\d+', s)`, in text order |
| PyText.DecimalRoundTrip | send_control_packets.py:73 | `str(n)` is a non-empty digit string that reads back as `n` |
| PyText.ParsePyIntOfDecimal | send_control_packets.py:294 | `int(str(i)) == i` for every integer, negative ones included, so every number column of a row reads back |
| PyText.ParsePyIntIgnoresPadding | send_control_packets.py:155 | `int()` accepts a line whatever space or `\t` .. `\r` surrounds it and gives the value of the trimmed text |
| PyText.ParsePyIntRejectsLeadingSeparator | send_control_packets.py:155 | a line that starts with one of `\x1c` .. `\x1f` is never an integer: `int()` does not skip them as whitespace |
| PyText.SplitLinesOfCrLfTerminated | send_control_packets.py:150 | `splitlines` of lines that each end in CR-LF and hold no break gives back exactly those lines |
| PyText.IntTokensEmptyIff | send_control_packets.py:102 | `re.findall('-?\d+', s)` finds no token exactly when `s` has no digit |
| PyText.FirstIntToken | send_control_packets.py:102-107 | the first token is the maximal digit run at the first digit, negated when a `-` stands right before it |
| RunFiles.RunLogName | send_control_packets.py:121-124 | the run log's name: the unpadded start time `Y-M-D_h-m-s` and `_LoRa-Deice-GPS-RSSI-data.csv` |
| RunFiles.DeriveName | send_control_packets.py:210-211 | the first two `_`-separated fields of a name and a new suffix, or IndexError |
| RunFiles.StorageApiName | send_control_packets.py:210-211 | the archive's name: the run log's first two fields and `_Storage-API-data.txt` |
| RunFiles.DecodedName | process_storage_api_data.py:21-22 | the table's name: the archive's first two fields and `_LoRa-RSSI-GW-decoded.csv` |
| RunFiles.Split | send_control_packets.py:210 | `split('_')` gives at least one part and no part contains `_` |
| RunFiles.JoinSplit | send_control_packets.py:210 | joining the parts with `_` gives back the name |
| RunFiles.SplitSinglePartIff | process_storage_api_data.py:21 | the name splits into one part exactly when it has no `_` |
| RunFiles.DeriveNameFailsIff | process_storage_api_data.py:21-22 | taking `parts[1]` raises IndexError exactly when the name has no `_` |
| RunFiles.DeriveNameKeepsTwoFields | send_control_packets.py:210-211 | for a name `a_b` followed by nothing or by `_…`, the derived name is `a_b` plus the new suffix |
| RunFiles.DeriveNameTwice | process_storage_api_data.py:21-22 | deriving from a derived name equals deriving from the original |
| RunFiles.NameChain | send_control_packets.py:121-124 | run log, then Storage API archive, then decoded table: all three names carry the same `Y-M-D_h-m-s` |
| LoraDevice.Command | send_control_packets.py:67-68 | the line written for a command: its text and CR-LF |
| LoraDevice.UplinkText | send_control_packets.py:72-73 | `AT+SEND=` and the packet number in decimal |
| LoraDevice.FilteredInts | send_control_packets.py:149-158 | the value of every line `int()` accepts, in order, the other lines skipped |
| LoraDevice.DecideJoin | send_control_packets.py:86-95 | False for a first integer 0, True for 1, None for any other, killScript when there is none |
| LoraDevice.RssiOf | send_control_packets.py:102-107 | the first `-?\d+` value of the answer, or IndexError when there is none |
| LoraDevice.UplinkRoundTrip | send_control_packets.py:72-74 | the uplink command is `AT+SEND=`, the decimal id and CR-LF, and the id reads back from it |
| LoraDevice.UplinkCommandsDistinct | send_control_packets.py:72-74 | uplinks of different packets are different commands |
| LoraDevice.CommandIsOneLine | send_control_packets.py:67-68 | a command text without line breaks goes out as exactly one line |
| LoraDevice.FilteredIntsAppend | send_control_packets.py:149-158 | filtering a concatenation is filtering each part in turn, so line order is kept |
| LoraDevice.FilteredIntsMembers | send_control_packets.py:149-158 | a value is kept exactly when some line parses to it |
| LoraDevice.FilteredIntsEmptyIff | send_control_packets.py:149-158 | nothing is kept exactly when no line is an integer, and that is not an error |
| LoraDevice.FilteredIntsHead | send_control_packets.py:149-158 | the first value kept is the value of the first integer line |
| LoraDevice.ReturnFilteredInts | send_control_packets.py:149-158 | the loop returns the integer value of every line `int()` accepts, in order |
| LoraDevice.JoinStatusFromFirstIntLine | send_control_packets.py:81-95 | the join status is False for a first integer line 0, True for 1, and None for any other |
| LoraDevice.JoinExitIffNoIntLine | send_control_packets.py:86-95 | the script exits exactly when no line of the answer is an integer |
| LoraDevice.RssiIsFirstNumber | send_control_packets.py:98-111 | there is no RSSI (IndexError) exactly when the answer has no digit; otherwise the RSSI is the signed number at the first digit |
| LoraDevice.LoraEndDevice.constructor | send_control_packets.py:16-29 | the port `/dev/ttyUSB0` at 115200 8N1, timeout 2, no flow control, closed, nothing read or written |
| LoraDevice.LoraEndDevice.SetPortCom | send_control_packets.py:31-32 | the port name is replaced; an open port is closed, dropping unread input, and opened again, failing as SerialException when it cannot be |
| LoraDevice.LoraEndDevice.OpenSerialPort | send_control_packets.py:34-35 | opens a closed port when the system allows it; an open or unavailable port raises SerialException |
| LoraDevice.LoraEndDevice.CloseSerialPort | send_control_packets.py:37-38 | the port is closed and unread input is dropped |
| LoraDevice.LoraEndDevice.ResetSerialPort | send_control_packets.py:40-45 | close then open: the port is open exactly when available, and nothing stale is waiting |
| LoraDevice.LoraEndDevice.SendCmdAt | send_control_packets.py:47-52 | an open port gets the command and the radio queues its reply; a closed port gets nothing |
| LoraDevice.LoraEndDevice.GetAtAnswer | send_control_packets.py:54-55 | reads at most 100 bytes of the waiting input, in order; a closed port raises PortNotOpenError |
| LoraDevice.LoraEndDevice.SendMessage | send_control_packets.py:66-70 | writes the CR-LF terminated command, then reads the first 100 bytes of the input plus the reply |
| LoraDevice.LoraEndDevice.SendPacketToGateway | send_control_packets.py:72-74 | writes `AT+SEND=<id>`, reads the first 100 bytes of the input plus the reply, and leaves the rest unread |
| LoraDevice.LoraEndDevice.SendJoinRequest | send_control_packets.py:77-78 | writes `AT+JOIN`, reads the first 100 bytes of the input plus the reply, and leaves the rest unread for the next command |
| LoraDevice.LoraEndDevice.CheckJoinStatus | send_control_packets.py:81-95 | writes `AT+NJS?` and decides on the first integer line of the answer, leaving the rest unread; with none the port is closed and the input dropped (killScript); a closed port changes nothing |
| LoraDevice.LoraEndDevice.GetUpdatedRssi | send_control_packets.py:98-111 | resets the port, writes `AT+RSSI` and takes the first `-?\d+` token of only that reply, leaving its rest unread; a reset that cannot reopen the port reads nothing |
| ControlLoop.TimeOfDay | send_control_packets.py:267-268 | `strftime("%H:%M:%S")`: hour, minute and second as two digits each |
| ControlLoop.DataRow | send_control_packets.py:294 | the row `[time, id, latitude, longitude, altitude, precision, satellites, rssi]` |
| ControlLoop.MatchesGga | send_control_packets.py:273-274 | `re.match(".GPGGA*", line)`: any character but a newline, then `GPGG` |
| ControlLoop.GgaLines | send_control_packets.py:274 | the lines that match, in order |
| ControlLoop.AttemptStep | send_control_packets.py:266-312 | one pass of the `try` block: no GGA line halts; a closed port reconnects or halts; a failed reset halts; otherwise the row, or a halt when the RSSI answer has no number |
| ControlLoop.Advance | send_control_packets.py:285-312 | the loop's state after a step: a recorded row appended and `id` advanced, a reconnection counted, or the run ended with the port closed; each command written takes one reply |
| ControlLoop.Next | send_control_packets.py:265-312 | the loop's state after one more attempt |
| ControlLoop.Run | send_control_packets.py:265-312 | `while id < numPacketsToSend`: attempts until `n` rows are recorded or an attempt halts the run |
| ControlLoop.TimeOfDayReadsBack | send_control_packets.py:267-268 | `%H:%M:%S` is eight characters that read back as the hour, minute and second |
| ControlLoop.DataRowFields | send_control_packets.py:294 | a row has the eight header columns in order; the packet number and RSSI read back as written |
| ControlLoop.NumberedRowIds | send_control_packets.py:261-297 | in the log the packet numbers read back as 0, 1, … in order, and no two rows share one |
| ControlLoop.GgaLinesEmptyIff | send_control_packets.py:273-276 | no position line is found exactly when no line matches `.GPGGA*` |
| ControlLoop.FirstGgaLine | send_control_packets.py:274-276 | the position used is the first matching line of the chunk |
| ControlLoop.GgaSentenceKinds | send_control_packets.py:273-274 | `$GPGGA` sentences match; `$GPRMC`, `$GPGSV` and the GGA sentences of another talker (`$GNGGA`) do not |
| ControlLoop.AttemptStepRecords | send_control_packets.py:266-297 | a row is recorded exactly when there is a GGA line, the port is open and reopens, and the RSSI answer has a digit; the row carries the id and that RSSI |
| ControlLoop.AttemptStepUplink | send_control_packets.py:276-285 | the uplink goes out exactly when there is a GGA line and the port is open |
| ControlLoop.RecordedRow | send_control_packets.py:276-294 | a recorded row holds the fix fields of the first line of the chunk that matches `.GPGGA*`, and as RSSI the signed number at the first digit of the answer |
| ControlLoop.StepConditions | send_control_packets.py:266-312 | what each outcome of an attempt says about its inputs |
| ControlLoop.AttemptStepsFit | send_control_packets.py:266-312 | every attempt records rows only on an open port with the current id, and reconnects only on a closed port |
| ControlLoop.RunNumbersRows | send_control_packets.py:261-297 | the log stays header plus rows numbered 0, 1, …, and rows once written are kept |
| ControlLoop.RunCompletesIff | send_control_packets.py:265-307 | a run never records more than `n` packets, and completes exactly when it recorded `n` |
| ControlLoop.RunReconnectsOnce | send_control_packets.py:309-312 | at most one reconnection, none when the port was open; a halted run leaves the port closed |
| ControlLoop.RunSendsUplinks | send_control_packets.py:285-297 | every recorded packet's uplink was written to the radio |
| ControlLoop.RunRecordsInputs | send_control_packets.py:265-312 | row `k` comes from the attempt of packet `k-1` with its own replies; an early end comes from the last attempt |
| ControlLoop.RunFromStart | send_control_packets.py:261-312 | all of the run's promises, from the start of the loop |
| ControlLoop.KillScript | send_control_packets.py:115-118 | closes the radio's port |
| ControlLoop.OpenSerialPortOrKill | send_control_packets.py:140-147 | the port is open afterwards exactly when it was closed and available; otherwise killScript closed it |
| ControlLoop.PacketAttempt | send_control_packets.py:266-312 | one pass of the `try` block and its handlers equals `AttemptStep`, with the commands written and the replies consumed |
| ControlLoop.LoopPass | send_control_packets.py:265-312 | one loop pass moves the loop's state as `Next` says; `id` grows only when a row was appended |
| ControlLoop.SendPackets | send_control_packets.py:265-312 | the loop's rows, end, commands and port state are those of `Run` from the start |
| ControlLoop.SendControlPackets | send_control_packets.py:244-320 | a refused GPS connection writes no log; otherwise the log is named after the start time and holds the rows of `Run`; the port ends closed |
| StorageExport.NonEmptyLines | process_storage_api_data.py:16-18 | the lines that are not empty, in order |
| StorageExport.NonEmptyLinesAppend | process_storage_api_data.py:16-18 | filtering a concatenation is filtering each part in turn, so line order is kept |
| StorageExport.NonEmptyLinesMembers | process_storage_api_data.py:16-18 | exactly the non-empty lines are kept, and there are no more of them than lines |
| StorageExport.KeepRecords | process_storage_api_data.py:13-18 | the first loop keeps exactly the non-empty lines, in order |
| StorageExport.TableRows | process_storage_api_data.py:20-37 | the header, then one row `[id, rssi]` per record, in order |
| StorageExport.ProcessRawData | process_storage_api_data.py:12-39 | fails with IndexError exactly when the name has no `_`; otherwise the table is named from the first two fields and holds the header and one row per non-empty line |

## Left out

- Serial, socket and HTTP I/O (pyserial, `socket`, `requests`) are not modelled directly:
  - the radio is the `replies` field of `LoraEndDevice`, one reply per command it receives;
  - the GPS feed is the chunk each attempt reads;
  - the Storage API download in `call_storage_API` is left out, except for the file name it writes.
- Radio disconnects beyond what `available` says are not modelled. The port opens exactly when
  `available` holds, for the whole run.
- The bytes-to-text step is not modelled. `getLstAnswer` and the socket read decode UTF-8, and the
  model takes both as text already. `UnicodeDecodeError` is not modelled.
- `pynmea2` parsing is not modelled. The fix fields are `parseFix` of the first GGA line, printed as
  strings, and its `ParseError` is not modelled.
- `json.loads` and `base64.b64decode` in `process_raw_data` are not modelled. Each line's id and RSSI
  come from the parameter `decode`. A decoding error or a missing key is not modelled.
- Python `int()` and `\d` are read over ASCII only. Unicode digits and whitespace are not accepted.
- CSV quoting and the `'a+'`/`'w+'` file modes are not modelled. A file is its name and its rows.
  Fields hold no commas or quotes.
- `time.sleep` and the unused duty-cycle delay are left out. `datetime.now()` is an input (`clock`
  and `start`).
- `KeyboardInterrupt` is left out, because it is driven by a signal.
- The interactive menus are left out: `main_menu`, `print_menu_options` and `storage_API_menu` in
  send_control_packets.py, and `menu` and `main` in process_storage_api_data.py. So is the global
  `endDevice`: every operation takes the device as a parameter.
- `printLstAnswer`, every `print` and the traceback output are left out.
- `getLstAnswer` has no member of its own: the model reads `lastAtCmdRx` directly.
- `get_file_binary_data`, `write_CSV_content` and `write_TXT_content` are left out, because they are
  plain file I/O.
- ControlLoop.SendControlPackets: the process exit is not modelled.
  - On every path that calls `killScript`, the model returns the reason (`RunEnd`) once the port is
    closed. The script instead raises `SystemExit(0)` there.
  - The `SerialException` of a reset that cannot reopen the port ends the run as `SerialFault`. In
    the script it escapes uncaught.
  - The Storage API menu after a completed run is not modelled.
- LoraDevice.LoraEndDevice.SetPortCom: the new port is taken to be as available as the old one,
  because the model has one `available` flag per device. The scripts never call `setPortCom`.
- The Storage API download is never saved as written. `call_storage_API` passes the `requests`
  response object to `write_TXT_content` (send_control_packets.py:221). There `output.write`
  (send_control_packets.py:138) raises TypeError after `open(..., 'w')` has created the empty file.
  The model derives only the archive's name (`StorageApiName`), and `ProcessRawData` takes the
  archive's text as its input.
