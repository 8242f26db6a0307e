# GRBL client, serial transport and SDK error helpers

This project models, in Dafny, the machine-control half of a camera-rig REST server. A
`GrblController` drives a GRBL 1.1 CNC controller over a serial line. It opens one session,
either on a named device or on the first `/dev/ttyUSB*` / `/dev/ttyACM*` device that answers
a soft reset with the "Grbl" banner and then opens a second time. It then sends queued G-code and `$` commands,
waiting for the machine's `ok`/`error`/`ALARM` answer. It also sends real-time bytes
(`?`, `!`, `~`, Ctrl-X, jog cancel), parses `<...>` status reports and the `$$` settings
listing, and reports what it did to an event handler. Beneath it, a `SerialPort` opens and
configures a POSIX tty and writes newline-framed text or single bytes. It reads lines or
bursts against a millisecond deadline. Beside the controller sit the REST layer's
camera-SDK helpers: the SDK-error to HTTP-status mapping, the error and property name
tables, the display text of property values, and the body of an error reply.

How the model is built:

- **The operating system is a scripted environment.** `Serial.Env` holds a steady clock
  in milliseconds and the endpoints successive `open` calls reach (`Serial.Link`: the
  descriptor, whether configuration succeeds, the timed bursts of bytes the device will
  send, and the results of its `write` calls). It also holds the log of opened paths and
  the entries of `/dev`.
- **Time passes only when the client waits.** A read that waits for data moves the clock
  to the next arrival or to the deadline. `sleep_for` advances the clock.
- **Each read loop has a function beside it.** `readLine`, `readAll`, `waitForOk`, the
  `$$` loop and auto-detection are each a `method` with a `while` loop. Each is proved
  equal to a function that unfolds the same loop one step at a time. Lemmas about those
  functions state what the source promises: framing, CR stripping, terminal lines,
  timeout text, probe order.
- **State is kept where the source keeps it.** The controller and the port are
  classes whose fields the methods update. The session's events are an appended
  `seq<Event>`.
- **Parsing is pure.** The status report, the settings listing and the command text
  are functions on strings. Number text is read by explicit scanners (`Numerals.ScanInt`,
  `Numerals.ScanReal`) modelling `sscanf`, `std::stod`, `std::stoi` and stream extraction.
- **Round trips give the parsers their partners.** A status printed in GRBL form parses
  back to itself, rounded to three decimals (`StatusFrames.ParseStatusFrame`). The text
  `setSetting` sends reads back through the `$$` line parser (`Settings.SettingTextRead`,
  `Settings.ListingRead`). Every move and jog command reads back as its words
  (`Commands.G0CommandRead` and its two companions).

Quirks of the code the model keeps:

- `readLine` drops a carriage return only together with the newline that ends the line.
  A line cut short by the deadline keeps a trailing `\r`.
- After a failed connect to a named device whose open succeeded, the client still
  reports that device as its port. The code records the port before reading the banner
  and does not clear it on failure.
- The version line keeps the `\r` of a `\r\n` banner, because `std::getline` splits on
  `\n` only.
- A status report that starts with `|` yields as its state all the text after the first
  character. The length `stateEnd - 1` given to `substr` wraps around to `npos`.

## Model

| member | source | states |
|---|---|---|
| JsonHelpers.Category | src/api/JsonHelpers.cpp:66 | the category keeps bits 8-15 of the error in place and nothing else |
| JsonHelpers.MapSdkErrorToHttp | src/api/JsonHelpers.cpp:64-105 | the status is one of 200/400/403/409/500/503/504; 200 exactly for category 0, 400 exactly for the API category, 503 exactly for the memory category, 504 exactly for 0x8201, 403 exactly for 0x8204 and 0x8207, 409 exactly for 0x8205 and 0x8702 |
| JsonHelpers.ServerErrorOtherwise | src/api/JsonHelpers.cpp:81-103 | every other error, the generic, file, device and unknown categories included, maps to 500 |
| JsonHelpers.SdkErrorName | src/api/JsonHelpers.cpp:107-164 | a listed code gets its table name; any other gets "CrError_0x" and its upper-case hexadecimal digits without leading zeros, which read back as the code |
| JsonHelpers.SdkErrorFallbackInjective | src/api/JsonHelpers.cpp:158-162 | a fallback error name identifies its code, and no table name equals a fallback name |
| JsonHelpers.PropertyName | src/api/JsonHelpers.cpp:166-209 | a listed property gets its table name; any other gets "Property_0x" and its upper-case hexadecimal code |
| JsonHelpers.PropertyFallbackInjective | src/api/JsonHelpers.cpp:203-207 | a fallback property name identifies its code, and no table name equals a fallback name |
| JsonHelpers.ShutterNumerator | src/api/JsonHelpers.cpp:222 | the numerator fits in 16 bits |
| JsonHelpers.ShutterDenominator | src/api/JsonHelpers.cpp:223 | the denominator fits in 16 bits and differs from the value by a multiple of 2^16, so it is the low 16 bits |
| JsonHelpers.ShutterFields | src/api/JsonHelpers.cpp:222-223 | the numerator times 2^16 plus the denominator is the value's low 32 bits: the two fields are its upper and lower 16-bit halves |
| JsonHelpers.FNumberText | src/api/JsonHelpers.cpp:213-219 | "F" followed by a number that reads back as the value divided by 100, rounded to one decimal |
| JsonHelpers.ShutterText | src/api/JsonHelpers.cpp:220-229 | denominator 1 gives the numerator's decimal digits and "s"; any other gives "1/", the denominator's decimal digits and "s" |
| JsonHelpers.IsoText | src/api/JsonHelpers.cpp:230-232 | "ISO " followed by decimal digits whose value is the raw value |
| JsonHelpers.FormatPropertyValue | src/api/JsonHelpers.cpp:211-236 | the f-number, shutter and ISO codes get their own forms; every other code gets the value's decimal digits |
| JsonHelpers.JsonError | src/api/JsonHelpers.cpp:42-53 | the body carries the code, its name and its HTTP status; the message is the name alone exactly when there is no context, and otherwise is exactly the context, ": " and the name |
| Numerals.ScanIntToString | src/grbl/GrblController.cpp:283 | an integer printed in decimal is read back whole by the `%d` scanner |
| Numerals.ScanFixed | src/grbl/GrblController.cpp:294 | a number printed with `p` decimals reads back as the number rounded to `p` decimals, the scan stopping at the end of the printed text |
| Text.FindFrom | src/grbl/GrblController.cpp:254 | the result is the first position at or after the start where the pattern occurs, and none exactly when it occurs nowhere there |
| Text.FindFirstOf | src/grbl/GrblController.cpp:322-325 | the result is the first position at or after the start that holds one of the characters, and none exactly when none does |
| Text.LinesOfJoined | src/grbl/GrblController.cpp:477 | lines joined each with its "\n" split back into the same lines |
| Ordering.Sort | src/grbl/SerialPort.cpp:259 | the result is sorted lexicographically and holds the same multiset of strings |
| Ordering.SortedUnique | src/grbl/SerialPort.cpp:259 | two sorted orderings of the same multiset are equal |
| Ordering.SortOrderIndependent | src/grbl/SerialPort.cpp:259 | sorting gives the same list whatever the order of the input |
| Serial.Env.Connect | src/grbl/SerialPort.cpp:29 | an open reaches the next scripted endpoint and logs the path; the clock does not move |
| Serial.Env.Sleep | src/grbl/GrblController.cpp:62 | sleeping advances the clock by exactly the time asked for |
| Serial.BaudSpeed | src/grbl/SerialPort.cpp:61-69 | the speed is always a supported one; it equals the requested rate exactly when that rate is 9600, 19200, 38400, 57600, 115200 or 230400, and is 115200 otherwise |
| Serial.Framed | src/grbl/SerialPort.cpp:123-126 | empty data stays empty; other data is kept as a prefix and ends with '\n'; exactly one byte is added when the data did not already end in '\n' |
| Serial.FramedIdempotent | src/grbl/SerialPort.cpp:123-126 | framing framed data changes nothing |
| Serial.Flushed | src/grbl/SerialPort.cpp:96-97 | the flush drops exactly the leading arrivals that had come by the moment of the flush: the first arrival kept comes after it |
| Serial.ReadLineFrom | src/grbl/SerialPort.cpp:159-192 | the line-read loop; its meaning is stated by the Serial.ReadLine* lemmas below and by Serial.SerialPort.ReadLine |
| Serial.ReadLineTimely | src/grbl/SerialPort.cpp:168-175 | a read that timed out left no byte that arrived before the deadline, so a line that arrives in time is returned; a read begun at or after its deadline reads nothing |
| Serial.ReadLineNoNewline | src/grbl/SerialPort.cpp:180-188 | a line read never holds '\n' |
| Serial.ReadLineBytes | src/grbl/SerialPort.cpp:168-189 | the bytes consumed are exactly the line followed by the "\n" or "\r\n" that ended it, or by nothing when it was cut short |
| Serial.ReadLineCr | src/grbl/SerialPort.cpp:180-185 | a carriage return is removed only together with the newline: a line ended by a bare newline does not end in '\r' |
| Serial.ReadLinePartial | src/grbl/SerialPort.cpp:172-178 | a read cut short by the deadline or by a failed read returns everything accumulated |
| Serial.ReadLineSize | src/grbl/SerialPort.cpp:168-189 | a read consumes input unless it timed out having read nothing |
| Serial.ReadLineClock | src/grbl/SerialPort.cpp:169-175 | the clock only moves forwards, and a read that timed out has reached its deadline |
| Serial.ReadAllFrom | src/grbl/SerialPort.cpp:194-221 | the chunked read loop; its meaning is stated by Serial.ReadAllFacts and Serial.SerialPort.ReadAll |
| Serial.CString | src/grbl/SerialPort.cpp:216-217 | a buffer appended as a C string contributes its bytes up to its first NUL, all of them when it has none |
| Serial.ReadAllTimely | src/grbl/SerialPort.cpp:204-211 | a read that ran into its deadline left no burst that arrived before the deadline |
| Serial.ReadAllFacts | src/grbl/SerialPort.cpp:194-221 | the result is the chunks read, each cut at its first NUL; the chunks are the bytes consumed, in order, each 1 to 255 bytes; without NUL bytes the result is exactly the bytes consumed; the clock only moves on |
| Serial.Delivered | src/grbl/SerialPort.cpp:128-135 | the device receives a prefix of the framed bytes, all of them when the write accepted them all |
| Serial.SerialPort.constructor | src/grbl/SerialPort.cpp:15-16 | a new port is closed, with no device name |
| Serial.SerialPort.IsOpen | src/grbl/SerialPort.cpp:113-116 | a port is open exactly when its descriptor is not negative; Serial.SerialPort.Open ties success to that |
| Serial.SerialPort.Open | src/grbl/SerialPort.cpp:22-48 | the open succeeds exactly when the endpoint opens and configures; on success the descriptor, device, speed and flushed input are set; on failure the port is closed and the device name unchanged |
| Serial.SerialPort.Close | src/grbl/SerialPort.cpp:102-111 | the port ends closed; an open port forgets its device name, a closed one keeps it |
| Serial.SerialPort.Write | src/grbl/SerialPort.cpp:118-136 | on a closed port nothing is sent and the result is false; otherwise the framed data is written, the device receives what the write accepted, and the result is whether all of it was |
| Serial.SerialPort.WriteByte | src/grbl/SerialPort.cpp:138-145 | on a closed port false and nothing sent; otherwise one byte is written unframed and the result is whether it was accepted |
| Serial.SerialPort.ReadLine | src/grbl/SerialPort.cpp:159-192 | on a closed port the empty line and nothing consumed; otherwise the line, remaining input and clock of the read loop with deadline now + timeout |
| Serial.SerialPort.ReadAll | src/grbl/SerialPort.cpp:194-221 | on a closed port the empty text and nothing consumed; otherwise the text, remaining input and clock of the chunked read loop with deadline now + timeout |
| Serial.DevicePaths | src/grbl/SerialPort.cpp:247-255 | a path is listed exactly when it is "/dev/" followed by a directory entry starting with "ttyUSB" or "ttyACM" |
| Serial.DevicePathCount | src/grbl/SerialPort.cpp:247-255 | each candidate path is listed as often as its entry appears in the directory, and other paths never |
| Serial.PortListFacts | src/grbl/SerialPort.cpp:239-261 | the listing is sorted; it is empty when /dev cannot be opened, and otherwise holds exactly the ttyUSB*/ttyACM* device paths |
| Serial.PortListOrderIndependent | src/grbl/SerialPort.cpp:248-259 | the listing does not depend on the order in which the directory yields its entries |
| Serial.ListPorts | src/grbl/SerialPort.cpp:239-261 | the directory scan followed by the sort yields the port listing |
| GrblTypes.Event.Kind | src/grbl/GrblController.cpp:599-614 | every event type name the client emits starts with "grbl_" |
| GrblTypes.KindsDistinct | src/grbl/GrblController.cpp:82-542 | two events get the same type name exactly when they are of the same kind |
| StatusReport.ExtractReal | src/grbl/GrblController.cpp:260-262 | a successful extraction consumes a non-empty prefix; a failed one yields 0 |
| StatusReport.ExtractChar | src/grbl/GrblController.cpp:260-262 | a char extraction skips white space and takes one non-space character; it fails only on all-white-space text |
| StatusReport.ReadReals | src/grbl/GrblController.cpp:260-262 | exactly k values are read, all 0 once the stream has failed |
| StatusReport.ScanInts | src/grbl/GrblController.cpp:283 | a successful comma-separated integer scan yields exactly k integers |
| StatusReport.ScanReals | src/grbl/GrblController.cpp:294 | a successful comma-separated number scan yields exactly k numbers |
| StatusReport.AfterKey | src/grbl/GrblController.cpp:279-281 | the text after the first occurrence of the key, none exactly when the key is absent |
| StatusReport.StateOf | src/grbl/GrblController.cpp:245-251 | the state is empty without a '\|'; it is the text between '<' and the first '\|'; and it is all text after the first character when the report starts with '\|' |
| StatusReport.MachinePosText | src/grbl/GrblController.cpp:253-258 | the machine position text runs from after "MPos:" to the next '\|' or the end, and is absent exactly when the key is |
| StatusReport.WorkPosText | src/grbl/GrblController.cpp:265-271 | the work position text runs from after "WPos:" to the next '\|', or to the next '>' when no '\|' follows |
| StatusReport.PinsText | src/grbl/GrblController.cpp:321-327 | the pins text runs from after "Pn:" to the first '\|' or '>' |
| StatusReport.ParseStatus | src/grbl/GrblController.cpp:243-330 | every field is parsed on its own; a missing key leaves its field at the default (origin, 0, 100, empty), and the pins are the text after "Pn:" |
| StatusReport.KeylessReport | include/grbl/GrblController.h:31-43 | a report with no '\|' and no key parses to a fresh status: zero positions and speeds, empty buffers, overrides at 100, empty state and pins |
| StatusFrames.PositionRead | src/grbl/GrblController.cpp:255-262 | a position printed as "x,y,z" with three decimals is read back by the stream extractions, rounded |
| StatusFrames.ParseStatusFrame | src/grbl/GrblController.cpp:243-330 | a status printed as a full GRBL 1.1 report parses back to the same status, positions and speeds rounded to three decimals |
| StatusFrames.BuffersNeedBoth | src/grbl/GrblController.cpp:278-287 | a "Bf:" field with only one counter sets neither counter |
| StatusFrames.FeedSpindleNeedBoth | src/grbl/GrblController.cpp:289-298 | an "FS:" field with only the feed sets neither feed nor spindle speed |
| StatusFrames.LegacyFeedRead | src/grbl/GrblController.cpp:300-307 | with the feed still 0, the older "\|F:" field gives the feed rate |
| StatusFrames.LegacyFeedIgnored | src/grbl/GrblController.cpp:289-307 | a non-zero feed from "FS:" is kept whatever "\|F:" says, and the spindle speed comes from "FS:" |
| StatusFrames.OverridesNeedAll | src/grbl/GrblController.cpp:309-319 | an "Ov:" field with fewer than three values leaves all three overrides at 100 |
| Settings.DescriptionsListed | src/grbl/GrblController.cpp:616-652 | the description table lists exactly settings 0-6, 10-13, 20-27, 30-32 and 100-102, 110-112, 120-122, 130-132 |
| Settings.Description | src/grbl/GrblController.cpp:616-660 | the description lookup; its meaning is stated by Settings.DescriptionsListed, Settings.UnknownExactly and Settings.AxisDescriptions |
| Settings.UnknownExactly | src/grbl/GrblController.cpp:654-659 | the description is "Unknown setting" exactly for the numbers the table does not list |
| Settings.AxisDescriptions | src/grbl/GrblController.cpp:640-651 | each per-axis setting's description starts with its axis letter, X, Y or Z by the last digit |
| Settings.ValueEnd | src/grbl/GrblController.cpp:512 | the value class [0-9.] is taken greedily: every character before the end is in it, the one at the end is not |
| Settings.MatchAt | src/grbl/GrblController.cpp:512 | the match at a start is "$", digits, "=" and at least one of [0-9.]; its '=' is the only one possible and its end is the longest |
| Settings.SearchFrom | src/grbl/GrblController.cpp:516 | the search finds the leftmost start where the pattern matches, none exactly when it matches nowhere |
| Settings.ReadsOf | src/grbl/GrblController.cpp:514-516 | every line is searched on its own |
| Settings.SettingsOfAppend | src/grbl/GrblController.cpp:514-523 | the settings of two runs of lines are those of the first followed by those of the second: one entry per matching line, in line order |
| Settings.SettingsThrow | src/grbl/GrblController.cpp:518-519 | the parse throws exactly when the numbers of some matched line do not convert |
| Settings.ParseSettings | src/grbl/GrblController.cpp:505-526 | the settings are those of the response's lines, in order, or none when a conversion throws |
| Settings.SettingText | src/grbl/GrblController.cpp:533-534 | the text setSetting sends; its meaning is stated by Settings.SettingTextRead and Settings.SettingTextNegative |
| Settings.SettingTextRead | src/grbl/GrblController.cpp:533-534 | the text that sets a setting, with a number and value that are not negative, reads back as that setting with the value rounded to three decimals and its description |
| Settings.SettingTextNegative | src/grbl/GrblController.cpp:533-534 | a negative number or value gives text the listing pattern does not read as a setting |
| Settings.ListingRead | src/grbl/GrblController.cpp:505-526 | a `$$` listing of setting lines ending in "ok" parses to the settings listed, values rounded, in order |
| Commands.G0Command | src/grbl/GrblController.cpp:354-360 | the rapid move text; what it says is stated by Commands.G0CommandRead |
| Commands.G1Command | src/grbl/GrblController.cpp:373-380 | the linear move text; what it says is stated by Commands.G1CommandRead |
| Commands.JogCommand | src/grbl/GrblController.cpp:394-397 | the jog text; what it says is stated by Commands.JogCommandRead |
| Commands.G0CommandRead | src/grbl/GrblController.cpp:354-360 | a rapid move reads back as "G0" followed by exactly the supplied axes, in X, Y, Z order, values rounded to three decimals |
| Commands.G1CommandRead | src/grbl/GrblController.cpp:373-380 | a linear move reads back as "G1", the supplied axes in X, Y, Z order, then "F" and the feed, values rounded |
| Commands.JogCommandRead | src/grbl/GrblController.cpp:394-397 | a jog reads back as "$J=G91", the axis letter with its distance, then "F" and the feed, values rounded |
| Protocol.WaitFrom | src/grbl/GrblController.cpp:568-597 | the answer loop; its meaning is stated by Protocol.WaitStep, Protocol.WaitShape, Protocol.AnswerOk and Protocol.WaitOk |
| Protocol.NextLine | src/grbl/GrblController.cpp:575 | a line read with the 500 ms allowance holds no '\n'; the clock only moves on; a read that consumed nothing timed out with the empty line |
| Protocol.WaitStep | src/grbl/GrblController.cpp:574-594 | one round of the wait: a terminal line ends the answer; otherwise the wait gives up once the timeout has passed since the start, and continues if it has not; empty lines are not kept |
| Protocol.WaitShape | src/grbl/GrblController.cpp:568-597 | every answer holds non-empty lines without '\n'; only the last can be terminal, and it is unless the wait gave up, which happens only at or after the deadline |
| Protocol.AnswerOk | src/grbl/GrblController.cpp:451 | the answer text holds "ok" exactly when the wait did not give up and its last line holds "ok" |
| Protocol.WaitOk | src/grbl/GrblController.cpp:568-597 | an answer acknowledges the command exactly when its text holds "ok" |
| Protocol.DumpFrom | src/grbl/GrblController.cpp:473-485 | the listing loop; its meaning is stated by Protocol.DumpStep, Protocol.DumpLines and Protocol.DumpText |
| Protocol.DumpStep | src/grbl/GrblController.cpp:473-485 | one round of the listing loop: an empty line ends it unkept; a line with "ok", or read after more than 5000 ms, is the last; any other is kept and the loop goes on |
| Protocol.DumpLines | src/grbl/GrblController.cpp:473-485 | the listing's lines are non-empty, hold no '\n', and only the last can hold "ok" |
| Protocol.DumpText | src/grbl/GrblController.cpp:477 | splitting the accumulated listing text gives back the lines read |
| Controller.BannerLine | src/grbl/GrblController.cpp:70-77 | the version is the first line holding "Grbl", none exactly when no line holds it |
| Controller.BannerFound | src/grbl/GrblController.cpp:68-77 | the response holds "Grbl" exactly when one of its lines does, so a recognised banner always yields a version line |
| Controller.VersionOf | src/grbl/GrblController.cpp:70-77 | the getline loop finds the first line holding "Grbl" |
| Controller.Restart | src/grbl/GrblController.cpp:61-65 | the reset byte is written, the clock moves 2 s, and the port reads for the given time after that |
| Controller.ResetPulse | src/grbl/GrblController.cpp:61-62 | the reset byte is written and the clock moves exactly 2 s; nothing is read |
| Controller.ReadBanner | src/grbl/GrblController.cpp:110-117 | a probe's banner is what it reads for 1 s after the 2 s restart |
| Controller.DetectAdvance | src/grbl/GrblController.cpp:101-152 | a port passed over hands the detection to the next port, after its opens |
| Controller.DetectDone | src/grbl/GrblController.cpp:116-148 | a port adopted ends the detection |
| Controller.TriedCalls | src/grbl/GrblController.cpp:104-126 | a probe opens its port once, or twice exactly when its banner holds "Grbl"; it adopts the port exactly when the banner holds "Grbl" and the second open succeeds; the banner is what the reset handshake read from the port, and empty when the port did not open |
| Controller.Trace | src/grbl/GrblController.cpp:101-152 | the probes of the loop, one per port, up to the adopted one; its meaning is stated by Controller.DetectOrder |
| Controller.DetectOrder | src/grbl/GrblController.cpp:96-155 | auto-detection probes the listed ports one after another in list order, each opened once or twice, its opens being those probes' opens in that order; every probe before the last passed its port over, so each of those ports lacked the banner or failed the second open, and the adopted port is the first that had the banner and reopened; with nothing found every port was probed; an adopted port is the last probed, opened twice, on a banner holding "Grbl" and a second open that succeeded |
| Controller.Reported | src/grbl/GrblController.cpp:187-205 | a line starting with '<' is parsed as a report; any other line gives state "Unknown" with every other field fresh |
| Controller.GrblController.constructor | include/grbl/GrblController.h:102-105 | a new client has no session, no port or version, and no events |
| Controller.GrblController.IsConnected | include/grbl/GrblController.h:53 | in a valid client, the client is connected exactly when it holds a session port |
| Controller.GrblController.GetPort | src/grbl/GrblController.cpp:174-177 | the device of the last session opened, set and cleared as Connect and Disconnect state |
| Controller.GrblController.GetVersion | src/grbl/GrblController.cpp:179-182 | the banner line of the session, set and cleared as Connect and Disconnect state |
| Controller.GrblController.ListPorts | src/grbl/GrblController.cpp:21-23 | the client lists the transport's candidate ports |
| Controller.GrblController.Connect | src/grbl/GrblController.cpp:25-94 | while connected: true, nothing changes. Empty name: auto-detection, success exactly when it adopts a port. Named port: success exactly when it opens and its banner holds "Grbl"; a port that opened is recorded even when the banner is missing; success emits one event with port and version; a failed connect leaves the client disconnected with no session port |
| Controller.GrblController.Attach | src/grbl/GrblController.cpp:51-93 | the named port is opened, reset and read; a banner with "Grbl" starts the session on it with its first such line as the version; otherwise the port is closed and the session dropped |
| Controller.GrblController.Greet | src/grbl/GrblController.cpp:67-87 | the version becomes the first line holding "Grbl", the client is connected, and one event names the port and version |
| Controller.GrblController.Probe | src/grbl/GrblController.cpp:104-117 | a probe opens its own port and returns the banner read after a reset, or nothing when the open fails |
| Controller.GrblController.Adopt | src/grbl/GrblController.cpp:122-128 | the session port is reopened on the probed device; the port is recorded only when that open succeeds |
| Controller.GrblController.Settle | src/grbl/GrblController.cpp:122-148 | a successful second open starts the session with the probe's banner as its source of version |
| Controller.GrblController.TryPort | src/grbl/GrblController.cpp:101-152 | one iteration of the detection loop matches one step of the detection function |
| Controller.GrblController.AutoDetectPort | src/grbl/GrblController.cpp:96-155 | the loop's result, opens, clock and adopted session are those of the detection function; on failure the client is unchanged |
| Controller.GrblController.Disconnect | src/grbl/GrblController.cpp:157-172 | with a session: the port is closed, one event names it, and port and version are cleared; without one nothing changes |
| Controller.GrblController.ReadReply | src/grbl/GrblController.cpp:575 | one line read with the 500 ms allowance |
| Controller.GrblController.WaitForOk | src/grbl/GrblController.cpp:568-597 | the loop returns the text, remaining input and clock of the answer function: kept lines each with "\n", then "timeout" when it gave up |
| Controller.GrblController.Exchange | src/grbl/GrblController.cpp:556-557 | the command is written framed, then the answer is collected |
| Controller.GrblController.Acknowledge | src/grbl/GrblController.cpp:339-340 | a command succeeds exactly when its answer is acknowledged |
| Controller.GrblController.Home | src/grbl/GrblController.cpp:332-347 | "$H" is sent and succeeds exactly when acknowledged within 30 s; success emits the homing event; false without a session |
| Controller.GrblController.MoveG0 | src/grbl/GrblController.cpp:349-366 | the rapid move text is sent and succeeds exactly when acknowledged within 5 s; false without a session |
| Controller.GrblController.MoveG1 | src/grbl/GrblController.cpp:368-386 | the linear move text is sent and succeeds exactly when acknowledged within 5 s; false without a session |
| Controller.GrblController.Jog | src/grbl/GrblController.cpp:388-403 | the jog text is sent and succeeds exactly when acknowledged within 5 s; false without a session |
| Controller.GrblController.Unlock | src/grbl/GrblController.cpp:443-458 | "$X" is sent as a line and succeeds exactly when acknowledged within 2 s; success emits the unlock event |
| Controller.GrblController.SetSetting | src/grbl/GrblController.cpp:528-549 | "$id=value" with three decimals is sent and succeeds exactly when acknowledged within 2 s; success emits an event with the id and value |
| Controller.GrblController.SendCommand | src/grbl/GrblController.cpp:551-558 | without a session the not-connected error text; otherwise the answer text of the command |
| Controller.GrblController.SendRealTimeCommand | src/grbl/GrblController.cpp:560-566 | one byte is written unframed with no answer awaited; the result is whether it was accepted, false without a session |
| Controller.GrblController.CancelJog | src/grbl/GrblController.cpp:405-407 | the jog-cancel byte 0x85 is sent as a real-time byte |
| Controller.GrblController.FeedHold | src/grbl/GrblController.cpp:409-415 | the '!' byte is sent; a successful write emits the feed-hold event |
| Controller.GrblController.CycleStart | src/grbl/GrblController.cpp:417-423 | the '~' byte is sent; a successful write emits the cycle-start event |
| Controller.GrblController.SoftReset | src/grbl/GrblController.cpp:425-441 | with a session: always true, the reset byte, 2 s, 500 ms of input drained and one reset event; false without a session |
| Controller.GrblController.GetStatus | src/grbl/GrblController.cpp:184-206 | without a session the state is "Disconnected"; otherwise '?' is sent and the line read within 500 ms is reported |
| Controller.GrblController.GetState | src/grbl/GrblController.cpp:239-241 | the state of the status report: "Disconnected", the parsed state, or "Unknown" |
| Controller.GrblController.ReadListing | src/grbl/GrblController.cpp:470-485 | the loop accumulates the lines of the listing function, each with its "\n" |
| Controller.GrblController.GetSettings | src/grbl/GrblController.cpp:460-488 | without a session the empty list; otherwise "$$" is sent and the result is the settings of the lines read, in order, or none when a conversion throws |

## Left out

- Locking is not modelled. The client's mutex, the atomic `connected` flag, and the
  unlock and relock around auto-detection are missing: each operation is modelled as
  running alone.
- `getInstance` is not modelled: the client is an explicitly constructed object.
  The destructors closing the port are not modelled either, because every path of the
  core closes or drops the port itself.
- `setEventHandler` and the JSON payloads of `emitEvent` are not modelled. Events are
  appended to a log (`events`), whether or not a handler is set.
- `getStatusJson`, `getSettingsJson`, the `jsonSuccess` helpers and the timestamp of
  `jsonError` are not modelled: they are JSON encoding and wall-clock time.
- Console logging is not modelled, because it has no effect on state.
- `SerialPort::flush`, `SerialPort::drain` and the `tcdrain` after a write are not
  modelled. No core operation depends on them.
- The termios fields other than the speed (8N1, raw mode, VMIN/VTIME), the `fcntl`
  flags and `select` are not modelled. `select` is modelled by waiting for the next
  timed arrival.
- Time spent computing is not modelled: the clock moves only while the client waits
  for data or sleeps.
- Doubles are exact reals. Printing with `std::fixed` and `setprecision` rounds half
  away from zero on the exact value.
- Numerals.Fixed: does not model the binary-double representation or glibc's
  half-to-even rounding of exact binary ties, so a value such as 0.0625 prints as 0.063
  where the source prints 0.062.
- JsonHelpers.FNumberText: rounds the exact quotient value / 100 half away from zero,
  so 225 gives "F2.3" where the double 2.25 prints as "F2.2".
- The number scanners read decimal digits with an optional sign and fraction only.
  Exponents, hexadecimal floats, "inf" and "nan" are not scanned.
- `sscanf` overflow of `%d` (undefined in C) is not modelled. Neither is `std::stod`
  throwing out_of_range for values beyond double range. Integers in the status are
  unbounded.
- `std::stoi` throwing for numbers past INT_MAX is modelled. `getSettings` then returns
  `None`, standing for the exception propagating to the caller.
- Serial.ListPorts: the in-place `std::sort` of the vector is modelled by
  `Ordering.Sort` applied to the collected sequence.
- Script order: arrivals are taken in the order the script lists them; a script is
  expected to list them by time, as a device delivers them.
- Commands.JogCommandRead: requires an axis other than a space, because a space axis
  splits the jog's words differently.
