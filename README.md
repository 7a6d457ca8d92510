# metratec RFID reader library — a Dafny model

This project models the core of `metratec_rfid`, a Python library that drives metratec RFID
readers over a serial or network link. It covers these parts of the library:

- **Status record** (`Status`). Every reader and tunnel carries one: a status code
  (RUNNING, BUSY, ERROR, WARNING), a message and a timestamp. It notifies a status callback
  when the pair really changes.
- **Transponder records** (`Tags`, `UhfTags`, `HfTags`).
  - They are dictionaries whose absent attributes are missing keys.
  - The model covers the setters, the getters and their defaults, and the identity rule
    (EPC for UHF, TID for HF, else "unknown").
  - It covers the HF system-information decoder with its fixed hex offsets.
- **Reader base** (`Readers`). The deduplicating inventory map, the reply queue, the send log
  (sending fails with "Not connected" when the link is down), and how an inventory batch is
  routed either to the callback or into the map.
- **AT command engines** (`ReaderAt`), shared by `ReaderAT` and `ReaderGen2`. They cover:
  - formatting a command;
  - classifying pushed lines;
  - the reply loop (echo, data lines, final `OK`/`ERROR`, error text in `<...>`);
  - inputs and outputs;
  - the identity check with firmware versions compared in hundredths;
  - the antenna check.
- **Legacy engine** (`ReaderGen1`). Space-separated commands, the set/get exchange, identity
  parsing, antenna configuration, and the handshake at connect time.
- **UHF AT reader** (`UhfReaderAt`) and **UHF Gen2 reader** (`UhfReaderGen2`).
  - inventory parsing, with per-antenna errors and round markers;
  - Q value and tag size;
  - inventory settings and masks;
  - tag read/write reports;
  - the EPC rewrite with its PC-word reconciliation (`UhfEpcRewrite`).
- **NFC AT reader** (`NfcReaderAt`):
  - the mode and the selected transponder;
  - inventory settings and the inventory parser;
  - block reads, and AFI/DSFID writes with their range check;
  - NTAG authentication and tag-type detection;
  - the transponder error table.
- **Legacy HF reader** (`HfReaderGen1`):
  - classification of pushed lines;
  - the inventory report with its antenna reports;
  - the transponder-request reply;
  - the ISO/IEC 15693 request-flags byte and command codes (section 7.3.1 of ISO/IEC 15693-3);
  - the RF interface.
- **Tunnel** (`Tunnels`). A scan starts when the front input reaches its level and stops when
  the back input reaches its level. Reported tags are collected per scan, and the finished
  scan goes to a callback. The model also covers the configuration round trip and the
  start/stop guards.

Objects the library updates in place are classes with `modifies` clauses: the status
record, the reader, tags, the UHF, NFC and HF reader objects, and the tunnel. Their methods
are proved against specification functions. Parsing is written as functions over the reply
lines, and loops are methods with invariants.

The device is not simulated. Instead:

- the lines it would send are a parameter (`replies`);
- running out of them stands for the receive timeout;
- everything sent is appended to a send log;
- timestamps (`time()`) are parameters;
- callbacks are identities, and calling one appends an event to a log.

Python semantics are written out where the library relies on them:

- slices with negative bounds, and the `IndexError` of indexing past the end;
- `int()` and `int(s, 16)` on plain ASCII digits and sign (the forms the reader sends; see "Left out");
- `str.split` and `in`;
- ASCII `upper`/`lower`;
- `isinstance(True, int)`.

## Model

| member | source | states |
|---|---|---|
| Status.UpdateSameIsNoOp | metratec_rfid/status_class.py:36-52 | An update to the current status and message changes nothing and notifies nobody. |
| Status.UpdateReplaces | metratec_rfid/status_class.py:36-52 | A real change keeps the instance name and stores the new status and message. The time stored is the given timestamp when it is present and non-zero, and `now` otherwise. |
| Status.NoticeOnRealChange | metratec_rfid/status_class.py:36-52 | An update sends at most one notice. It sends one exactly when the pair changes, a callback is set and the new status is not BUSY. The notice carries the new status and message. |
| Status.UpdateIdempotent | metratec_rfid/status_class.py:36-52 | Repeating an update at any later time changes nothing and notifies nobody. |
| Status.StatusRecord.constructor | metratec_rfid/status_class.py:12-18 | The name falls back to the class name. The record starts as BUSY "initialised" with the instance as given, and no callback is set. |
| Status.StatusRecord.UpdateStatus | metratec_rfid/status_class.py:36-52 | The record and the notice log become exactly what `Updated` and `Notices` specify. |
| Status.StatusRecord.SetCbStatus | metratec_rfid/status_class.py:54-65 | Installs the callback and returns the previous one. |
| Tags.Put | metratec_rfid/tag.py:159-169 | `set_value` with a present value maps the key to it, and with `None` removes the key. |
| Tags.PutKeepsOthers | metratec_rfid/tag.py:159-169 | `set_value` leaves every other key's presence and value as they were. |
| Tags.Id | metratec_rfid/uhf_tag.py:28-30 | `get_id` is never empty. Also `metratec_rfid/hf_tag.py:25-27`. |
| Tags.NewTagKeys | metratec_rfid/tag.py:12-17 | A new tag has `tid` exactly when a tid was given and `timestamp` exactly when a timestamp was given, and no other key. The getters read the arguments back; it has no error and seen count 0. |
| Tags.ErrorMessageSetsFlag | metratec_rfid/tag.py:150-157 | `set_error_message(m)` stores `m` (or removes it), and sets `has_error` exactly when `m` is non-empty. No other key changes. |
| Tags.WarningScenario | metratec_rfid/tag.py:134-157 | A fresh tag has no error. After `set_error_message("Warning")` it has one, and reads the message back. |
| Tags.SetterGetterRoundTrip | metratec_rfid/tag.py:53-132 | These accessor pairs round-trip a present value: first_seen, last_seen, timestamp, tid, data, antenna, seen_count. Setting `None` makes the getter absent, or 0 for the seen count. |
| Tags.IdFallback | metratec_rfid/uhf_tag.py:28-30 | The id is the identifier exactly when that is present and non-empty; otherwise it is "unknown". Also `metratec_rfid/hf_tag.py:25-27`. |
| Tags.Tag.constructor | metratec_rfid/tag.py:12-17 | The object's value is the specified new tag. |
| Tags.Tag.SetValue | metratec_rfid/tag.py:159-169 | The object's fields become `Put` of the old fields. |
| Tags.Tag.SetTid | metratec_rfid/tag.py:29-35 | Sets or removes `tid`. |
| Tags.Tag.SetTimestamp | metratec_rfid/tag.py:45-51 | Sets or removes `timestamp`. |
| Tags.Tag.SetFirstSeen | metratec_rfid/tag.py:61-67 | Sets or removes `first_seen`. |
| Tags.Tag.SetLastSeen | metratec_rfid/tag.py:77-83 | Sets or removes `last_seen`. |
| Tags.Tag.SetData | metratec_rfid/tag.py:93-99 | Sets or removes `data`. |
| Tags.Tag.SetAntenna | metratec_rfid/tag.py:109-115 | Sets or removes `antenna`. |
| Tags.Tag.SetSeenCount | metratec_rfid/tag.py:126-132 | Sets or removes `seen_count`. |
| Tags.Tag.SetErrorMessage | metratec_rfid/tag.py:150-157 | Stores the message and the `has_error` flag as `WithErrorMessage` specifies. |
| UhfTags.UhfTagOfValues | metratec_rfid/uhf_tag.py:13-26 | The constructor stores each argument under its own key, so every getter reads it back. |
| UhfTags.UhfTagOfKeys | metratec_rfid/uhf_tag.py:13-26 | The optional keys are present exactly when their arguments are. Only the six keys of the constructor occur, and there is no error. |
| UhfTags.UhfTagDefaultSeenCount | metratec_rfid/uhf_tag.py:13-30 | Without a seen count a tag has been seen once. Its id is the EPC, or "unknown" for an empty EPC. |
| UhfTags.UhfIdIsEpc | metratec_rfid/uhf_tag.py:28-38 | The id of a UHF tag is its EPC when that is present and non-empty, and "unknown" otherwise. |
| UhfTags.EpcRssiRoundTrip | metratec_rfid/uhf_tag.py:32-62 | `set_epc`/`get_epc` and `set_rssi`/`get_rssi` round-trip, and neither touches the other. `set_epc` moves the id. |
| UhfTags.SetEpc | metratec_rfid/uhf_tag.py:40-46 | Stores the EPC in the tag object. |
| UhfTags.SetRssi | metratec_rfid/uhf_tag.py:56-62 | Stores or removes the RSSI in the tag object. |
| UhfTags.NewUhfTag | metratec_rfid/uhf_tag.py:13-26 | A fresh tag object whose value is the specified UHF tag. |
| Readers.MergeKeys | metratec_rfid/reader.py:605-614 | After `_update_inventory` the map's keys are the old keys plus the batch's ids. |
| Readers.MergeUntouched | metratec_rfid/reader.py:605-614 | Entries whose id is not in the batch are unchanged. |
| Readers.MergeTagStep | metratec_rfid/reader.py:605-614 | For one tag with a known id, the seen counts are summed and the last-seen time is the new tag's; first-seen is kept. A new id is inserted as the tag itself. |
| Readers.MergeSeenCount | metratec_rfid/reader.py:605-614 | The seen count stored for every id is its old count (0 for a new id) plus the counts of all the batch's tags with that id. |
| Readers.FireRoutesOneWay | metratec_rfid/reader.py:590-598 | A batch goes to the callback or into the map, never both. Without a callback nothing is fired, and an empty batch never changes the map. |
| Readers.Reader.constructor | metratec_rfid/reader.py:66-85 | A new reader is BUSY "initialised". It is not connected, nothing is queued, sent or fired, and no callback or configuration entry is set. |
| Readers.Reader.Send | metratec_rfid/reader.py:570-571 | A connected reader logs the text as sent. Otherwise it raises "Not connected" and sends nothing. |
| Readers.Reader.AddDataToReceiveBuffer | metratec_rfid/reader.py:507-509 | The line is queued at the back. |
| Readers.Reader.Recv | metratec_rfid/reader.py:511-528 | Returns the oldest queued line and removes it. With nothing queued it raises the response timeout. |
| Readers.Reader.ClearResponseBuffer | metratec_rfid/reader.py:538-541 | Discards exactly the queued lines, in order, and leaves the queue empty. |
| Readers.Reader.SetCbInventory | metratec_rfid/reader.py:148-158 | Installs the callback and returns the previous one. |
| Readers.Reader.SetCbInputChanged | metratec_rfid/reader.py:160-173 | Installs the callback and returns the previous one. On a running reader it also schedules `_enable_input_events`, recorded as a pending task: enable when a callback is set, disable when it is removed. Not running, nothing is scheduled. |
| Readers.Reader.EnableFireEmptyInventory | metratec_rfid/reader.py:175-182 | Sets the flag. |
| Readers.Reader.UpdateInventory | metratec_rfid/reader.py:605-614 | The map becomes the batch merged tag by tag, as `Merge` specifies. |
| Readers.Reader.FetchInventory | metratec_rfid/reader.py:184-201 | Returns every stored tag exactly once (as many tags as keys) and empties the map. |
| Readers.Reader.FireInventoryEvent | metratec_rfid/reader.py:590-598 | The event log and the map change exactly as `InventoryEvents` and `InventoryAfterFire` specify. |
| Readers.Reader.FireInputChangedEvent | metratec_rfid/reader.py:600-603 | Calls the input callback when one is set, with pin and level. |
| Readers.Reader.ConnectionLost | metratec_rfid/reader.py:480-484 | Sending is switched off. The status becomes ERROR with the reason, unless it already is ERROR. |
| Readers.Reader.Disconnect | metratec_rfid/reader.py:117-130 | The map is emptied and sending is switched off. |
| ReaderAt.PrepareCommandDropsNone | metratec_rfid/reader_at.py:356-360 | A `None` parameter adds nothing to the command line. |
| ReaderAt.PrepareCommandOne | metratec_rfid/reader_at.py:356-360 | A single parameter follows `=` unchanged. |
| ReaderAt.PrepareCommandParse | metratec_rfid/reader_at.py:356-360 | The line is the command, then `=`. Splitting the rest at commas gives back the present parameters when none of them contains a comma. |
| ReaderAt.BoolParam | metratec_rfid/nfc_reader_at.py:138-139 | A flag is sent as the one digit `1` or `0`. |
| ReaderAt.PresentThree | metratec_rfid/reader_at.py:356-360 | Three present parameters give their three texts, in order. |
| ReaderAt.FlagsPayload | metratec_rfid/nfc_reader_at.py:138-139 | Three flags give five characters `x,y,z`. Each digit is `1` exactly when its flag is set, and splitting recovers them. |
| ReaderAt.QueuedLines | metratec_rfid/reader_at.py:251-288 | A queued line is the received line without its terminator, and the normal handler never queues an empty line. |
| ReaderAt.PlainLinesQueued | metratec_rfid/reader_at.py:251-288 | A line not starting with `+` is queued by every handler. Also `metratec_rfid/reader_gen2.py:28-69`. |
| ReaderAt.ConfigDiffersOnlyOnEvents | metratec_rfid/reader_at.py:251-288 | While configuring, no line reaches an inventory or input handler. The configuring handler differs from the normal one only on inventory and input-event lines, and on a bare `+I`, which the normal handler fails to index. |
| ReaderAt.Gen2MatchesAt | metratec_rfid/reader_gen2.py:43-69 | With an input callback the Gen2 handler classifies like the AT handler. Without one, it differs only by dropping input events. |
| ReaderAt.InputEventLevels | metratec_rfid/reader_at.py:266-288 | `+IEV: p,HIGH...` reports pin p high, and `+IEV: p,LOW` reports it low. |
| ReaderAt.DataReceived | metratec_rfid/reader_at.py:266-288 | A classified line is queued or passed to the input callback exactly as its class says. Also `metratec_rfid/reader_gen2.py:43-69`. |
| ReaderAt.DataReceivedConfig | metratec_rfid/reader_at.py:251-265 | While configuring, only queued lines change the reader. Also `metratec_rfid/reader_gen2.py:28-42`. |
| ReaderAt.ReplyLoop | metratec_rfid/reader_at.py:290-354 | The loop never reads more lines than arrived. |
| ReaderAt.CommandReply | metratec_rfid/reader_at.py:290-354 | The exchange never reads more lines than arrived. Also `metratec_rfid/reader_gen2.py:78-142`. |
| ReaderAt.ReplyLoopLast | metratec_rfid/reader_at.py:290-354 | The loop stops at the first `OK`/`ERROR` after the data lines. Its result comes from the last data line: the split lines for `OK`, the error for `ERROR`. Later lines are not read. |
| ReaderAt.ReplyLoopNoFinal | metratec_rfid/reader_at.py:290-354 | Without a final line every line is read, and the missing answer is reported. |
| ReaderAt.OkDialects | metratec_rfid/reader_at.py:290-354 | The two engines answer `OK` alike, except that with no data line one returns `[]` and the other `[""]`. Also `metratec_rfid/reader_gen2.py:78-142`. |
| ReaderAt.ErrorDialects | metratec_rfid/reader_at.py:236-354 | With a bracketed error text both engines report that text; the AT engine passes it through the device's error parser. Without brackets the AT engine reports "<command> ERROR" and Gen2 the whole line. Also `metratec_rfid/reader_gen2.py:78-142`. |
| ReaderAt.SendCommand | metratec_rfid/reader_at.py:290-354 | When connected, the command plus `\r` is logged as sent and the result is the exchange's. The lines after the final one stay queued. When not connected, it raises "Not connected". |
| ReaderAt.ReadReply | metratec_rfid/reader_at.py:324-349 | The reply loop consumes exactly the queued lines the specified loop reads (up to and including the first `OK`/`ERROR`), and its result is that loop's. |
| ReaderAt.StopInventory | metratec_rfid/reader_at.py:145-153 | `AT+BINV` is logged as sent, the lines after the reply stay queued, and the outcome is the reply with "is not running" counted as success. Not connected gives "Not connected" and nothing is sent. Also `metratec_rfid/reader_gen2.py:359-367`. |
| ReaderAt.StopInventoryNotRunning | metratec_rfid/reader_at.py:145-153 | An error mentioning "is not running" counts as success; every other error is raised. |
| ReaderAt.PinStatesLine | metratec_rfid/reader_at.py:30-58 | A well-formed pin line adds exactly its pin and level to the parsed map. |
| ReaderAt.OutputSlotsParse | metratec_rfid/reader_at.py:67-84 | The `AT+OUT` payload has four slots for pins 1 to 4. A slot holds a level only for the pin being set. Also `metratec_rfid/reader_gen2.py:251-273`. |
| ReaderAt.GetInputs | metratec_rfid/reader_at.py:30-39 | Sends `AT+IN?` and parses the reply into pin levels, or raises the exchange's error. |
| ReaderAt.GetOutputs | metratec_rfid/reader_at.py:48-58 | Sends `AT+OUT?` and parses the levels. On success it also stores them in the configuration. |
| ReaderAt.QueriedOutputs | metratec_rfid/reader_at.py:48-58 | The levels `get_outputs` reads: the `AT+OUT?` reply parsed into six pins, or the exchange's error. |
| ReaderAt.SetOutput | metratec_rfid/reader_at.py:77-84 | `AT+OUT?` is always sent first. If its reply fails, that error is raised and nothing else is sent or stored. Otherwise `AT+OUT=` with the pin's slot is sent, the outcome is that reply's, and the stored levels are the queried ones, with the pin's new level only when the set succeeded. Not connected gives "Not connected" and nothing is sent. |
| ReaderAt.SetOutputs | metratec_rfid/reader_at.py:67-76 | `AT+OUT?` is sent first; its failure is raised with nothing else sent or stored. Otherwise the queried levels, overridden by the given ones, are sent as the four `AT+OUT=` slots, the outcome is that reply's, and the stored levels become the given ones on success and the queried ones otherwise. Not connected gives "Not connected". |
| ReaderAt.SetOutputsGen2 | metratec_rfid/reader_gen2.py:251-262 | Sends only the given levels and stores nothing. |
| ReaderAt.SetOutputGen2 | metratec_rfid/reader_gen2.py:263-273 | Sends only the one pin's level and stores nothing. |
| ReaderAt.GetInput | metratec_rfid/reader_at.py:40-47 | `AT+IN?` is logged as sent and the lines after the reply stay queued. The inputs are parsed and the pin looked up; a pin not reported is an error. Not connected gives "Not connected" and nothing is sent. Also `metratec_rfid/reader_gen2.py:233-240`. |
| ReaderAt.InputOfLine | metratec_rfid/reader_at.py:30-47 | A reported level is read back by `get_input`. An unreported pin gives "Input pin N not available". |
| ReaderAt.InfoOfWords | metratec_rfid/reader_at.py:85-106 | A well-formed `ATI` reply is read back word for word by both engines. Also `metratec_rfid/reader_gen2.py:293-325`. |
| ReaderAt.VersionDigits | metratec_rfid/reader_at.py:384-385 | The version `MMmm` reads as MM·100 + mm hundredths. |
| ReaderAt.FloatTextReadsBack | metratec_rfid/reader_at.py:384-386 | The version the firmware message prints is read back: the digits before the point are the whole part, and the one or two after it, padded to two, the hundredths. Also `metratec_rfid/reader_gen1.py:238-241`, `metratec_rfid/reader_gen2.py:316-319`. |
| ReaderAt.FloatTextExamples | metratec_rfid/reader_at.py:384-386 | Versions print as Python prints the float: `2.18`, `2.1`, `1.0`, `-0.05`. |
| ReaderAt.IdentityGen2Exact | metratec_rfid/reader_gen2.py:309-319 | Gen2 accepts exactly an equal hardware name, an equal firmware name and a high enough version. Whatever Gen2 accepts, the AT check accepts too. |
| ReaderAt.IdentityAtSubstring | metratec_rfid/reader_at.py:375-387 | The AT check matches names case-insensitively as substrings, so it accepts a reader that Gen2 rejects. |
| ReaderAt.ConfigReader | metratec_rfid/reader_at.py:372-395 | Configuration succeeds exactly when the identity parses and passes the check, and the antenna query succeeds or fails with a reader error. It then stores the identity and the antenna (1 when the query failed). A parse failure raises and stores nothing. `ATI` is always sent, and `AT+ANT?` exactly when the identity passed; the queue holds what the last exchange left. Not connected gives "Not connected" and nothing is sent. Also `metratec_rfid/reader_gen2.py:150-159`. |
| ReaderAt.ReadIdentity | metratec_rfid/reader_at.py:372-387 | `ATI` is logged as sent. On a connected reader it succeeds exactly when the reply decodes and passes the identity check, and only then stores the identity. A decoding failure is raised with nothing stored. Not connected gives "Not connected" and nothing is sent. |
| ReaderAt.ReadAntenna | metratec_rfid/reader_at.py:388-391 | `AT+ANT?` is logged as sent. It succeeds exactly when the query succeeds or fails with a reader error, and then stores the queried antenna, or 1 after a reader error. |
| ReaderAt.AntennaKeyInjective | metratec_rfid/reader_at.py:198-204 | Distinct antennas have distinct "Antenna N" keys. |
| ReaderAt.CheckAntennas | metratec_rfid/reader_at.py:189-220 | Antennas 1 to 4 are inventoried in order. The error map ends as `CheckedErrors` says: deleted when all four succeed; otherwise each failure that the parser recorded writes its entry, and a success deletes its antenna's entry only when the map existed at the start, since only then is the local `errors` the configuration's own dictionary. With no failure an ERROR status becomes RUNNING "running", with the status notice that update sends; otherwise neither the status nor the notices change. Any failure raises "Antenna error: " followed by the failed antennas, separated by spaces, and leaves the status alone. |
| ReaderAt.ErrorsAfterRecorded | metratec_rfid/reader_at.py:198-207 | The last failure recording under a key decides that key's text in the final map. Also `metratec_rfid/uhf_reader_at.py:979-986`. |
| ReaderAt.ErrorsAfterCleared | metratec_rfid/reader_at.py:198-204 | When the map existed at the start, a successful antenna's entry is absent at the end unless a later failure records it again. |
| ReaderAt.ErrorsAfterUntouched | metratec_rfid/reader_at.py:198-207 | A key that no outcome writes or deletes keeps its entry and text, or stays absent. |
| ReaderAt.FailedEmpty | metratec_rfid/reader_at.py:189-226 | No failed antenna listed means every antenna passed. |
| ReaderAt.FailedMembers | metratec_rfid/reader_at.py:189-226 | An antenna is listed exactly when it is in range and failed. |
| ReaderGen1.PrepareCommandParse | metratec_rfid/reader_gen1.py:88-96 | A legacy command line ends in `\r`. Split at spaces, it gives the command and then the present parameters. |
| ReaderGen1.PrepareCommandAllNone | metratec_rfid/reader_gen1.py:88-96 | Parameters that are all `None` still leave the separating space. No parameters give the bare command. |
| ReaderGen1.ClassifyConfigQueues | metratec_rfid/reader_gen1.py:27-36 | While configuring, a queued line loses exactly one trailing `\r`, and any line not starting with `H` is queued. `HBT` heartbeats are dropped. |
| ReaderGen1.DataReceivedConfig | metratec_rfid/reader_gen1.py:27-36 | Only queued lines change the reader. |
| ReaderGen1.TruthyWords | metratec_rfid/reader_gen1.py:68-81 | The error text lists at most as many words as there are parameters. |
| ReaderGen1.TruthyWordsNonEmpty | metratec_rfid/reader_gen1.py:68-81 | The error text of `_set_command` lists no empty word, because falsy parameters are left out. |
| ReaderGen1.SendRecvCommand | metratec_rfid/reader_gen1.py:53-63 | The command is logged as sent and the answer is the oldest queued line, even a stale one; with none, the command's timeout is raised. When not connected it raises "Not connected". |
| ReaderGen1.SetReplyNamesTruthyParams | metratec_rfid/reader_gen1.py:68-81 | A refusal `NOS` of `SAP MAN 0` reads "NOS - (SAP MAN)". An `OK!` answer succeeds. |
| ReaderGen1.SetCommand | metratec_rfid/reader_gen1.py:68-81 | The command is logged as sent and the oldest queued line is taken as the answer. The outcome is that answer judged by `SetReply`: success when it contains "OK". Not connected gives "Not connected" and nothing is sent. |
| ReaderGen1.InputLevels | metratec_rfid/reader_gen1.py:183-191 | `HI` reads as high and `LOW` as low. Anything else is "get input error - ...". |
| ReaderGen1.GetInput | metratec_rfid/reader_gen1.py:183-191 | `RIP pin` is logged as sent, the oldest queued line is taken as its answer, and that answer is read as a level. Not connected gives "Not connected" and nothing is sent. |
| ReaderGen1.StopInventory | metratec_rfid/reader_gen1.py:334-340 | `BRK` is logged as sent. The answer must report an interrupted or absent continuous mode. Not connected gives "Not connected" and nothing is sent. |
| ReaderGen1.StripOneSpace | metratec_rfid/reader_gen1.py:213-242 | Stripping removes the padding space and keeps a trimmed name. |
| ReaderGen1.IdentityFields | metratec_rfid/reader_gen1.py:213-242 | Well-formed `HWR`/`RFW` answers are read back as names and versions. A UCO device's `REV` answer gives the name for both parts. |
| ReaderGen1.GetReaderInfo | metratec_rfid/reader_gen1.py:213-242 | `HWR` is sent, and after an answer `RFW`, or `REV` for a UCO device, is sent too. Then the identity is checked, and a version below the minimum raises the message naming both versions. The first failing exchange's error is raised. Not connected gives "Not connected" and nothing is sent. |
| ReaderGen1.SetAntenna | metratec_rfid/reader_gen1.py:258-266 | `SAP MAN antenna` is logged as sent. On success the antenna is `Some(antenna)` and the mode SINGLE. A `NOS` refusal is rewritten to name the firmware. On failure nothing is recorded. Not connected gives "Not connected" and nothing is sent. |
| ReaderGen1.SetAntennaOutputs | metratec_rfid/reader_gen1.py:268-282 | `SAP PIN pins` is logged as sent, and the pin count is recorded exactly on success. Not connected gives "Not connected" and nothing is sent. |
| ReaderGen1.SetAntennaMultiplex | metratec_rfid/reader_gen1.py:287-292 | `SAP AUT antennas delay` is logged as sent. On success the antenna count is `Some(antennas)` and the mode MULTIPLEX, and refusals are not rewritten. Not connected gives "Not connected" and nothing is sent. |
| ReaderGen1.HandshakeCommands | metratec_rfid/reader_gen1.py:102-136 | The handshake only ever sends `BRK`, `WAK`, `WAK 5E70` or `COF 4F5E`. |
| ReaderGen1.HandshakeStops | metratec_rfid/reader_gen1.py:102-136 | Once the handshake has finished, later lines are never read. |
| ReaderGen1.NotCommandWords | metratec_rfid/reader_gen1.py:113-120 | A line without B, N, G or D contains none of the four words that end the handshake. |
| ReaderGen1.SleepingDevice | metratec_rfid/reader_gen1.py:102-136 | For a silent device, the intended handshake sends `WAK` and answers the challenge with `WAK 5E70`. As written, it ends at once with the timeout. |
| ReaderGen1.ContinuousDevice | metratec_rfid/reader_gen1.py:102-136 | A device in continuous mode gets `COF 4F5E` and then `BRK`, and the interruption ends the handshake. Both versions agree here. |
| ReaderGen1.HandshakeSilence | metratec_rfid/reader_gen1.py:108-112 | A silent read marks the device asleep and sends `WAK`. |
| ReaderGen1.HandshakeLine | metratec_rfid/reader_gen1.py:113-136 | Each line finishes the handshake, fails it with "Wrong metratec uhf device" after the deadline, is skipped, or is answered with one command. |
| ReaderGen1.RunHandshake | metratec_rfid/reader_gen1.py:102-136 | The first `BRK` and then the handshake's commands are sent. The outcome and the sleeping flag are the handshake's. |
| UhfReaderAt.UhfReader.constructor | metratec_rfid/uhf_reader_at.py:27-34 | A new UHF reader wraps the engine with the given inventory settings. No report callback is set and empty reports are not fired. |
| UhfReaderAt.UhfReader.SetCbInventoryReport | metratec_rfid/uhf_reader_at.py:46-57 | Installs the report callback and returns the previous one. |
| UhfReaderAt.UhfReader.EnableFireEmptyReports | metratec_rfid/uhf_reader_at.py:59-66 | Records whether empty reports are fired. |
| UhfReaderAt.UhfReader.FireInventoryReportEvent | metratec_rfid/uhf_reader_at.py:992-1000 | The event log grows by the report events that `ReportEvents` specifies. |
| UhfReaderAt.ReportRouting | metratec_rfid/uhf_reader_at.py:992-1000 | At most one report event. There is one exactly when a callback is set and the batch is non-empty or empty reports are fired, and it carries the batch. |
| UhfReaderAt.IntField | metratec_rfid/uhf_reader_at.py:934-990 | A number field succeeds exactly when it is an optional sign followed by ASCII decimal digits (the `Text.ParseInt` reading of `int()`), with that value. |
| UhfReaderAt.Stamp | metratec_rfid/uhf_reader_at.py:934-990 | Stamping the antenna keeps one tag per tag. |
| UhfReaderAt.ParseInventory | metratec_rfid/uhf_reader_at.py:934-990 | The parsing loop computes exactly the result and the per-antenna error map that `Inventory` specifies. Also `metratec_rfid/uhf_reader_gen2.py:111-160`. |
| UhfReaderAt.InventoryOutcomeEffect | metratec_rfid/uhf_reader_at.py:979-990 | One antenna's inventory in `check_antennas` succeeds exactly when the parse does. A failure that names an error stores exactly that entry ("Antenna N" or `message`) in the error map; a reader error that stores nothing leaves the map as it was. |
| UhfReaderAt.ScannedAppend | metratec_rfid/uhf_reader_at.py:948-978 | Scanning `a + b` is scanning `a` and then scanning `b` from where it stopped. An error stops it. |
| UhfReaderAt.TagLineStep | metratec_rfid/uhf_reader_at.py:969-976 | A tag line appends its tag and changes nothing else. |
| UhfReaderAt.TagLinesScan | metratec_rfid/uhf_reader_at.py:969-976 | A run of tag lines appends their tags in order. |
| UhfReaderAt.TagLinesInOrder | metratec_rfid/uhf_reader_at.py:934-990 | N tag lines without markers give N tags in input order. Each is identified by the line's first field, and the error map is untouched. |
| UhfReaderAt.TagOfInfoShape | metratec_rfid/uhf_reader_at.py:969-978 | A parsed tag line had enough fields for the configured TID, RSSI and report count. Its tag is the base tag, with the phase pair added only by the AT parser when phase is configured. |
| UhfReaderAt.BaseTagFields | metratec_rfid/uhf_reader_at.py:969-976 | The base tag carries the EPC, the timestamp, the configured TID and RSSI, and the seen count. It has no antenna and no error, and adding a phase changes none of these. |
| UhfReaderAt.FieldLayout | metratec_rfid/uhf_reader_at.py:969-976 | Field 0 is the EPC. The TID is field 1 exactly when it is configured. The RSSI follows the TID. The seen count is the last field of a report and 1 otherwise. Also `metratec_rfid/uhf_reader_gen2.py:144-148`. |
| UhfReaderAt.PhaseLayout | metratec_rfid/uhf_reader_at.py:974-975 | The tag has a `phase` key exactly when the AT parser has phase configured, and it then holds the last two fields. |
| UhfReaderAt.ShortLines | metratec_rfid/uhf_reader_at.py:969-978 | A short tag line never raises IndexError in the AT parser, which skips it. The Gen2 parser never skips one. Also `metratec_rfid/uhf_reader_gen2.py:144-148`. |
| UhfReaderAt.RoundMarker | metratec_rfid/uhf_reader_at.py:951-962 | A round marker sets the current antenna to the digit before its closing `>`. The AT parser reads it only from a full-length marker. Also `metratec_rfid/uhf_reader_gen2.py:127-137`. |
| UhfReaderAt.LastRoundMarkerStamps | metratec_rfid/uhf_reader_at.py:948-990 | Tag lines followed by the round marker of antenna d (d non-zero) give their tags, each stamped with antenna d. |
| UhfReaderAt.ErrorOnAntenna | metratec_rfid/uhf_reader_at.py:951-986 | An error marker before the round marker of antenna d stores its text under "Antenna d" and raises it with the antenna named, unless errors are ignored. Ignored errors give an empty result and leave the map alone. |
| UhfReaderAt.ScanFaults | metratec_rfid/uhf_reader_at.py:948-978 | The scan itself raises only the unexpected errors of the loop. With errors ignored, no antenna error is pending. |
| UhfReaderAt.IgnoredErrors | metratec_rfid/uhf_reader_at.py:963-986 | With errors ignored the error map is never touched and no reader error is raised. |
| UhfReaderAt.CutCovers | metratec_rfid/uhf_reader_at.py:395-403 | The sections and the open rest are the lines in order. Every section ends with exactly one round line, its last. |
| UhfReaderAt.CutAppend | metratec_rfid/uhf_reader_at.py:395-403 | Cutting appended lines is cutting each part in turn. |
| UhfReaderAt.CutNoRound | metratec_rfid/uhf_reader_at.py:395-403 | Lines without a round line form no section. |
| UhfReaderAt.ThenAssoc | metratec_rfid/uhf_reader_at.py:396-403 | Sections that parse concatenate their tags in order. |
| UhfReaderAt.ThenEmpty | metratec_rfid/uhf_reader_at.py:396-403 | Starting from no tags adds nothing. |
| UhfReaderAt.TrailingLinesIgnored | metratec_rfid/uhf_reader_at.py:395-405 | Lines after the last round line yield no tags and change nothing. |
| UhfReaderAt.InventoryMulti | metratec_rfid/uhf_reader_at.py:382-405 | The cutting loop computes exactly the specified multi-antenna inventory: each finished section parsed, the tags concatenated, and the first error raised. |
| UhfReaderAt.GetInventoryMulti | metratec_rfid/uhf_reader_at.py:382-405 | `AT+MINV` is sent and its reply parsed section by section. The inventory map is untouched, and a successful batch goes to the inventory events. Not connected gives "Not connected". Also `metratec_rfid/uhf_reader_at.py:913-932`. |
| UhfReaderAt.PrependEmpty | metratec_rfid/uhf_reader_at.py:1002-1031 | Prepending nothing changes no result. |
| UhfReaderAt.ParseTagResponses | metratec_rfid/uhf_reader_at.py:1002-1031 | The loop computes exactly `TagResponses`, including the IndexError of a line too short for its prefix or for the character after a marker's `<`. Also `metratec_rfid/uhf_reader_gen2.py:631-660`. |
| UhfReaderAt.StatusTagReports | metratec_rfid/uhf_reader_at.py:1026-1030 | A status line gives a tag identified by its first field. Its status is the error message unless it is "OK", and the tag has an error exactly then. |
| UhfReaderAt.TagResponsesCons | metratec_rfid/uhf_reader_at.py:1002-1031 | A leading status line contributes its tag before the rest. |
| UhfReaderAt.TagResponsesStatus | metratec_rfid/uhf_reader_at.py:1002-1031 | Status lines give one report per line, in order. |
| UhfReaderAt.MarkerLinesSkipped | metratec_rfid/uhf_reader_at.py:1020-1025 | Marker lines with a character after `<` add nothing. |
| UhfReaderAt.TruncatedMarker | metratec_rfid/uhf_reader_at.py:1020-1023 | A marker line that ends right after `<` raises IndexError whatever follows it, in the tag-status parser and in the `read_tag_data` loop. Also `metratec_rfid/uhf_reader_at.py:484-487`. |
| UhfReaderAt.WriteTagData | metratec_rfid/uhf_reader_at.py:540-563 | `AT+WRT` is sent with memory, start, data and the optional mask, and its status lines are reported as tags. Not connected gives "Not connected". |
| UhfReaderAt.ReadTagData | metratec_rfid/uhf_reader_at.py:459-502 | `AT+READ` is sent with memory, start, length and the optional mask. A failed exchange raises. Otherwise the lines are read by `ReadTags`: a line shorter than the prefix, or a marker ending at `<`, raises IndexError, a marker is skipped, and every other line becomes a read tag, in order. Not connected gives "Not connected". |
| UhfReaderAt.ReadTagsOf | metratec_rfid/uhf_reader_at.py:482-502 | The loop of `read_tag_data` computes exactly `ReadTags`. |
| UhfReaderAt.ReadTagData_Ok | metratec_rfid/uhf_reader_at.py:490-501 | On "OK" the data is stored both as `data` and under the memory's name. The EPC is kept unless the EPC memory itself was read, and there is no error. |
| UhfReaderAt.ReadTagData_Failed | metratec_rfid/uhf_reader_at.py:490-501 | On another status the tag keeps its EPC and carries the status as the error message. |
| UhfReaderAt.Pow2 | metratec_rfid/uhf_reader_at.py:115-124 | Powers of two are positive. |
| UhfReaderAt.Pow2Monotone | metratec_rfid/uhf_reader_at.py:115-124 | Powers of two grow with the exponent. |
| UhfReaderAt.LeastQFromIsLeast | metratec_rfid/uhf_reader_at.py:115-124 | Counting up from an exponent that does not yet cover n stops at the least exponent covering n. |
| UhfReaderAt.LeastQIsLeast | metratec_rfid/uhf_reader_at.py:115-124 | `LeastQ(n)` covers n (n is at most 2 to that power), and every smaller exponent does not. |
| UhfReaderAt.LeastQUnique | metratec_rfid/uhf_reader_at.py:115-124 | It is the only exponent with that property. |
| UhfReaderAt.CeilLog2 | metratec_rfid/uhf_reader_at.py:115-116 | The `while n > 2**q` loop returns the least covering exponent. |
| UhfReaderAt.SetTagSize | metratec_rfid/uhf_reader_at.py:96-125 | A single bound is refused with the library's message and nothing is sent. Otherwise `AT+Q` is sent with the least covering exponents, and -1 stands for a bound not given. |
| UhfReaderAt.SetQValue | metratec_rfid/uhf_reader_at.py:145-164 | The same guard; the exponents are sent as given. |
| UhfReaderAt.TagSizeIsQValue | metratec_rfid/uhf_reader_at.py:96-164 | `set_tag_size` is `set_q_value` with the least covering exponents. |
| UhfEpcRewrite.EpcLengthBitsIsShift | metratec_rfid/uhf_reader_at.py:608-611 | The shifted half word count, plus the odd bit 0x0800, is the word count placed at bit 11 of the PC word. |
| UhfEpcRewrite.PcWordFields | metratec_rfid/uhf_reader_at.py:638-639 | The PC word written keeps the agreed low eleven bits and carries the EPC's word count above them. It prints as four hex digits that read back to the same number. |
| UhfEpcRewrite.PcData | metratec_rfid/uhf_reader_at.py:623 | The PC value a tag reports is its data masked to eleven bits; a missing data field raises. |
| UhfEpcRewrite.CommonPc | metratec_rfid/uhf_reader_at.py:621-628 | An agreed PC value is an eleven-bit value. |
| UhfEpcRewrite.CommonPcStep | metratec_rfid/uhf_reader_at.py:621-628 | One step of the loop: an unset value (zero) takes the tag's value. A set value must equal it, or the loop raises "Different tags are in the field ...". |
| UhfEpcRewrite.AgreedPc | metratec_rfid/uhf_reader_at.py:621-628 | The loop computes exactly `CommonPc` from zero. |
| UhfEpcRewrite.CommonPcSound | metratec_rfid/uhf_reader_at.py:621-628 | An agreed value is the one every tag reported, apart from zeros before the first non-zero value. |
| UhfEpcRewrite.CommonPcComplete | metratec_rfid/uhf_reader_at.py:621-628 | Tags that all report the same value agree on it. |
| UhfEpcRewrite.DataTagPc | metratec_rfid/uhf_reader_at.py:623 | A one-digit hex data field reads as that digit. |
| UhfEpcRewrite.ZeroOrderMatters | metratec_rfid/uhf_reader_at.py:621-628 | Order matters: a 0 before a 5 agrees on 5, and a 0 after a 5 raises. |
| UhfEpcRewrite.Store | metratec_rfid/uhf_reader_at.py:632 | Storing under a key keeps the dictionary well formed and maps the key to the value. |
| UhfEpcRewrite.Values | metratec_rfid/uhf_reader_at.py:663 | `list(d.values())` has one entry per key. |
| UhfEpcRewrite.EpcStored | metratec_rfid/uhf_reader_at.py:631-636 | The EPC loop keeps the dictionary well formed. |
| UhfEpcRewrite.Reconciled | metratec_rfid/uhf_reader_at.py:640-654 | The PC loop keeps the dictionary well formed. |
| UhfEpcRewrite.StoreWritten | metratec_rfid/uhf_reader_at.py:631-636 | The loop computes exactly `EpcStored`. |
| UhfEpcRewrite.ReconcileWritten | metratec_rfid/uhf_reader_at.py:640-654 | The loop computes exactly `Reconciled`. |
| UhfEpcRewrite.Cons | metratec_rfid/uhf_reader_at.py:631-654 | These hold of a list exactly when they hold of its first tag or its rest: a tag names an id, a write of an id succeeded, no write of an id failed. |
| UhfEpcRewrite.StoredValueFields | metratec_rfid/uhf_reader_at.py:632-636 | A stored tag is non-empty and keeps its error flag. Without an error it carries the new EPC and, as `old_epc`, its old id. |
| UhfEpcRewrite.EpcStoredStep | metratec_rfid/uhf_reader_at.py:631-636 | The loop stores the first tag under its old id before the rest. |
| UhfEpcRewrite.EpcStoredEntries | metratec_rfid/uhf_reader_at.py:631-636 | After the EPC loop the keys are the old ones plus the ids of the written tags, and every error-free entry is rewritten. |
| UhfEpcRewrite.ReconcileStepEntries | metratec_rfid/uhf_reader_at.py:640-654 | One step adds at most the id of a successful PC write. An entry still without error was already there unchanged, and its PC write did not fail. |
| UhfEpcRewrite.ReconciledEntries | metratec_rfid/uhf_reader_at.py:640-654 | The reconciliation adds only the ids of PC writes that succeeded. An entry still without error was stored before and no PC write of its id failed. |
| UhfEpcRewrite.ReconciledKeeps | metratec_rfid/uhf_reader_at.py:640-654 | A stored entry whose id no failed PC write names is left as it is. |
| UhfEpcRewrite.RewriteEntries | metratec_rfid/uhf_reader_at.py:630-663 | The result has one entry per id of the EPC write, plus the ids whose PC write alone succeeded. An entry without error carries the new EPC and its old id, and its PC write never failed. |
| UhfEpcRewrite.RewriteKeepsWritten | metratec_rfid/uhf_reader_at.py:630-663 | A written tag none of whose PC writes failed is returned as the EPC loop stored it. |
| UhfEpcRewrite.WriteTagEpc | metratec_rfid/uhf_reader_at.py:585-663 | The method's result and its commands are exactly those `Rewrite` specifies: the length check, the PC read, the agreement loop, the EPC write, the PC write and the reconciliation. |
| UhfEpcRewrite.ReadPc | metratec_rfid/uhf_reader_at.py:617 | `read_tag_data(0, 2, 'PC')` sends exactly the `AT+READ` line for the PC word and returns the parsed PC reads; not connected gives "Not connected" with nothing sent. |
| UhfEpcRewrite.WriteRead | metratec_rfid/uhf_reader_at.py:618-663 | Once the PC words are read, the result and commands are those `AfterRead` specifies: no tags returns nothing, disagreeing PC words raise, agreeing ones go to the writes. |
| UhfEpcRewrite.WriteAgreed | metratec_rfid/uhf_reader_at.py:629-663 | The EPC write and then the PC write are sent, as `Written` specifies; a failed exchange raises, and the result is the reconciled tags. |
| UhfEpcRewrite.RewriteResult | metratec_rfid/uhf_reader_at.py:585-663 | Every returned tag without error carries the new EPC. A PC write sends the agreed low bits with the new word count in the length field. |
| UhfReaderGen2.Command | metratec_rfid/reader_gen2.py:78-142 | A Gen2 command is logged as sent, and its reply is the specified Gen2 reply loop on the queued lines, with the echo always read. The unread lines stay queued. Not connected gives "Not connected". |
| UhfReaderGen2.SetTagSize | metratec_rfid/uhf_reader_gen2.py:262-290 | `AT+Q` is sent with the three exponents, and the reply decides the outcome. |
| UhfReaderGen2.TagSizeExponents | metratec_rfid/uhf_reader_gen2.py:262-290 | Each exponent sent is the least whose power of two covers its number. The minimum is 0 for `min_tags` 0, and the maximum is left out exactly when `max_tags` is 0. |
| UhfReaderGen2.TagSizeDefaults | metratec_rfid/uhf_reader_gen2.py:262-290 | The defaults `min_tags = 0` and `max_tags = 32768` send the bounds 0 and 15. |
| UhfReaderGen2.SettingsRoundTrip | metratec_rfid/uhf_reader_gen2.py:310-351 | A device that reports the flags it was given reads back as the same settings. The command sent carries exactly those flags. |
| UhfReaderGen2.SettingsShort | metratec_rfid/uhf_reader_gen2.py:310-327 | A reply is refused exactly when it is missing or shorter than 12 characters, with the library's error. |
| UhfReaderGen2.GetInventorySettings | metratec_rfid/uhf_reader_gen2.py:310-327 | `AT+INVS?` is sent and its first reply line parsed into settings. |
| UhfReaderGen2.SetInventorySettings | metratec_rfid/uhf_reader_gen2.py:329-351 | `AT+INVS` is sent with the three flags. On success the parser uses the new TID and RSSI settings; on failure they are unchanged. |
| UhfReaderGen2.MaskPayload | metratec_rfid/uhf_reader_gen2.py:439-455 | A mask command carries memory, start and mask, joined by commas. |
| UhfReaderGen2.MaskRoundTrip | metratec_rfid/uhf_reader_gen2.py:439-475 | A device that reports the mask it was given reads back as that mask, enabled. |
| UhfReaderGen2.MaskOffRoundTrip | metratec_rfid/uhf_reader_gen2.py:457-480 | `reset_mask` sends `AT+MSK=OFF`, and the answer "OFF" reads as no mask. |
| UhfReaderGen2.MaskMissingStart | metratec_rfid/uhf_reader_gen2.py:457-475 | A reply that is not "OFF" and has no second field raises IndexError. |
| UhfReaderGen2.GetMask | metratec_rfid/uhf_reader_gen2.py:457-475 | `AT+MSK?` is sent, and the reply is read from offset 6. |
| UhfReaderGen2.GetBitMask | metratec_rfid/uhf_reader_gen2.py:500-518 | `AT+BMSK?` is sent, and the reply is read from offset 7. |
| UhfReaderGen2.SetMask | metratec_rfid/uhf_reader_gen2.py:439-498 | `AT+MSK` or `AT+BMSK` is sent with the payload, and the reply decides the outcome. |
| UhfReaderGen2.RoutesByPrefix | metratec_rfid/uhf_reader_gen2.py:84-104 | `+CMINV:` and `+CINV:` go to the inventory listener and `+CINVR:` to the report listener, each parsed from just past its prefix. |
| UhfReaderGen2.HandleInventoryEvents | metratec_rfid/uhf_reader_gen2.py:84-109 | A pushed line reaches a listener only if one is set. Reports go to the report callback; inventories go to the inventory callback or into the map. A reader error from the parse becomes a WARNING status, unless an antenna-error warning is already shown. Any other error propagates. Also `metratec_rfid/uhf_reader_at.py:913-932`. |
| UhfReaderGen2.WarningHoldsBack | metratec_rfid/uhf_reader_gen2.py:105-109 | A warning holds back later ones exactly when its text mentions "antenna error", in any case. |
| HfTags.HfTagOfFields | metratec_rfid/hf_tag.py:14-35 | An HF tag has its class, its TID, and its id (the TID, or "unknown" when that is empty). The antenna is kept only when truthy, and the seen count and timestamp as given, with no error. |
| HfTags.HfTidDefault | metratec_rfid/hf_tag.py:25-35 | A tag whose tid was never stored answers `get_tid` with "" and is identified as "unknown". |
| HfTags.Iso15TagOfFields | metratec_rfid/hf_tag.py:59-81 | An `ISO15Tag` has type "ISO15". It has a dsfid key exactly when a non-empty DSFID was given, and `get_dsfid` falls back to "". |
| HfTags.Iso14ATagOfType | metratec_rfid/hf_tag.py:89-98 | An `ISO14ATag` has the given type, or "ISO14A" when none is given. |
| HfTags.Iso14ATagOfSakAtqa | metratec_rfid/hf_tag.py:89-130 | The sak and atqa keys exist exactly when non-empty values were given, and the getters fall back to "". |
| HfTags.HexField | metratec_rfid/hf_tag.py:145-158 | `int(s[a:b], 16)` succeeds exactly when the slice is non-empty ASCII hex (the `Text.Hex` reading), with its value. |
| HfTags.FlagStep | metratec_rfid/hf_tag.py:146-158 | One flag of the information byte: `is_x` is stored with the flag. When the flag is set the field is stored, and it fails only then, on a malformed field. No other key changes. |
| HfTags.ViccStep | metratec_rfid/hf_tag.py:152-155 | The memory-size flag: the number of blocks is the field plus one, and the block size is the low six bits plus one. No other key changes. |
| HfTags.AddInfoDsfid | metratec_rfid/hf_tag.py:145-148 | After decoding, `is_dsfid` holds bit 0x01, and the dsfid key is present exactly when that bit is set. |
| HfTags.AddInfoAfi | metratec_rfid/hf_tag.py:145-151 | `is_afi` holds bit 0x02, and the afi key is present exactly when that bit is set. |
| HfTags.AddInfoVicc | metratec_rfid/hf_tag.py:145-155 | `is_vicc` holds bit 0x04, and both memory-size keys are present exactly when that bit is set. |
| HfTags.AddInfoIcr | metratec_rfid/hf_tag.py:145-158 | `is_icr` holds bit 0x08, and the icr key is present exactly when that bit is set. |
| HfTags.AddInfoSteps | metratec_rfid/hf_tag.py:145-158 | A successful decoding is the four flag steps in order, at the fixed offsets 16, 18, 20/22 and 24. |
| HfTags.AddInfoMemorySize | metratec_rfid/hf_tag.py:152-155 | With the memory-size bit set, the number of blocks is the field plus one, and the block size lies between 1 and 64. |
| HfTags.AddInfoFails | metratec_rfid/hf_tag.py:145-158 | The decoding fails exactly when the flags byte, or a field its flags announce, is not hex. |
| HfTags.HfTagInfoOfError | metratec_rfid/hf_tag.py:138-214 | A non-empty error message marks the record as failed. Without a reply no flag is set, and the block size falls back to 0. |
| HfTags.MemoryGetters | metratec_rfid/hf_tag.py:237-262 | The memory getters return the constructor's arguments. |
| HfTags.NewHfTag | metratec_rfid/hf_tag.py:14-23 | The new object's value is the specified HF tag. |
| HfTags.NewIso15Tag | metratec_rfid/hf_tag.py:59-65 | The new object's value is the specified ISO 15693 tag. |
| HfTags.NewIso14ATag | metratec_rfid/hf_tag.py:89-98 | The new object's value is the specified ISO 14443-A tag. |
| HfTags.NewHfTagInfo | metratec_rfid/hf_tag.py:138-158 | A new record object holds the specified value. A malformed reply raises the specified error instead. |
| NfcReaderAt.ErrorTable | metratec_rfid/nfc_reader_at.py:1126-1206 | There are 40 listed transponder errors. An error text is a transponder error exactly when it is listed, and a reader error otherwise, with the text kept as the message. "Block out of range" is one of them. |
| NfcReaderAt.ErrorReplyClassified | metratec_rfid/nfc_reader_at.py:1126-1206 | An `ERROR` reply whose text is `<inner>` raises the exception the NFC table gives for `inner`. Also `metratec_rfid/reader_at.py:290-354`. |
| NfcReaderAt.ModeNames | metratec_rfid/nfc_reader_at.py:16-95 | `Mode[name]` finds a mode exactly from its own name. |
| NfcReaderAt.NfcReader.constructor | metratec_rfid/nfc_reader_at.py:50-54 | A new NFC reader is in AUTO mode with no transponder selected and no configuration. |
| NfcReaderAt.NfcReader.SelectedTransponder | metratec_rfid/nfc_reader_at.py:237-244 | Returns the selected TID, without asking the device. |
| NfcReaderAt.Command | metratec_rfid/reader_at.py:290-354 | An NFC command is logged as sent, its reply is the AT reply loop with the NFC error table, and the lines after the final one stay queued (`Unread`). |
| NfcReaderAt.ModeRoundTrip | metratec_rfid/nfc_reader_at.py:85-95 | The answer `+MOD: <name>` reads back as that mode. |
| NfcReaderAt.SetMode | metratec_rfid/nfc_reader_at.py:76-83 | `AT+MOD=<name>` is sent, and the mode is recorded only when the command succeeds. |
| NfcReaderAt.GetMode | metratec_rfid/nfc_reader_at.py:85-95 | `AT+MOD?` is logged as sent, its answer is read as a mode, and the reader remembers it. An unknown name raises KeyError. Not connected gives "Not connected" and nothing is sent. |
| NfcReaderAt.SelectTransponder | metratec_rfid/nfc_reader_at.py:225-235 | `AT+SEL=<tid>` is sent, and the TID is remembered only on success. |
| NfcReaderAt.DeselectTransponder | metratec_rfid/nfc_reader_at.py:246-253 | `AT+DEL` is logged as sent, and the selection is cleared only on success. Not connected gives "Not connected" and nothing is sent. |
| NfcReaderAt.SendReadRequestIso15693 | metratec_rfid/nfc_reader_at.py:344-360 | Outside ISO15 mode it raises "Only available in ISO15 mode!" and sends nothing. Otherwise `AT+RRQ` is sent and the first reply line is returned from offset 6. |
| NfcReaderAt.SendWriteRequestIso15693 | metratec_rfid/nfc_reader_at.py:362-374 | The same mode guard; `AT+WRQ` is sent and its reply decides the outcome. |
| NfcReaderAt.SettingsRoundTrip | metratec_rfid/nfc_reader_at.py:118-167 | A device that reports the three flags it was given reads back as the same settings. |
| NfcReaderAt.GetInventorySettings | metratec_rfid/nfc_reader_at.py:147-167 | `AT+INVS?` is logged as sent, the first line is read as three flags, and the reader remembers them. A short answer raises "Not expected response ...". Not connected gives "Not connected" and nothing is sent. |
| NfcReaderAt.SetInventorySettings | metratec_rfid/nfc_reader_at.py:118-145 | `AT+INVS=` with the three flags as 0/1 is logged as sent. After it succeeds, the remembered settings become the new ones; without remembered settings it raises KeyError 'inventory'. A failed command changes nothing. Not connected gives "Not connected" and nothing is sent. |
| NfcReaderAt.NegativeAfiPasses | metratec_rfid/nfc_reader_at.py:387-391 | As written, the integers -1 to -15 format as two characters and pass the length check, e.g. "-1". |
| NfcReaderAt.CheckedHexIsByte | metratec_rfid/nfc_reader_at.py:387-420 | The corrected check accepts an integer exactly when it is a byte, giving its two hex digits, and text exactly when it has two characters. Otherwise it raises the range error. It agrees with the code everywhere except those negative integers. |
| NfcReaderAt.SetAfi | metratec_rfid/nfc_reader_at.py:376-391 | A value out of range raises the range error and sends nothing. Otherwise `AT+AFI=<hex>` is sent. |
| NfcReaderAt.WriteTagValue | metratec_rfid/nfc_reader_at.py:406-450 | `write_tag_afi` and `write_tag_dsfid`: the same range check, then `AT+WAFI` or `AT+WDSFID` with the value and the option flag as 0 or 1. |
| NfcReaderAt.ConcatenatedStep | metratec_rfid/nfc_reader_at.py:285-290 | The concatenation is the first line's data followed by the rest. |
| NfcReaderAt.ReadBlocksInOrder | metratec_rfid/nfc_reader_at.py:285-290 | Multi-block lines concatenate their blocks in order. |
| NfcReaderAt.ConcatenateLines | metratec_rfid/nfc_reader_at.py:287-290 | The loop computes exactly the concatenation. |
| NfcReaderAt.ReadData | metratec_rfid/nfc_reader_at.py:269-292 | More than one block logs `AT+READM=block,n` as sent and concatenates the lines from offset 8. Otherwise `AT+READ=block` is logged and the first line is read from offset 7. Not connected gives "Not connected" and nothing is sent. |
| NfcReaderAt.AckChecked | metratec_rfid/nfc_reader_at.py:676-680 | The acknowledge is returned when none is expected or it matches, and raises "wrong acknowledge" otherwise. |
| NfcReaderAt.AuthenticateNtag | metratec_rfid/nfc_reader_at.py:660-680 | `AT+NPAUTH=<password>` is sent. A returned acknowledge equals the expected one whenever one is given. |
| NfcReaderAt.DetectedLine | metratec_rfid/nfc_reader_at.py:217-222 | A detection line gives a tag with the line's TID and type. It is an ISO 15693 tag exactly for "ISO15", and it carries the current antenna. |
| NfcReaderAt.DetectTagTypes | metratec_rfid/nfc_reader_at.py:201-223 | `AT+DTT` is logged as sent, and its lines become the detected tags, on the reader's antenna (1 by default). Not connected gives "Not connected" and nothing is sent. |
| NfcReaderAt.DetectedAppend | metratec_rfid/nfc_reader_at.py:210-223 | Appending a tag keeps the detected tags in order. |
| NfcReaderAt.DetectLines | metratec_rfid/nfc_reader_at.py:212-223 | The loop computes exactly `DetectedTags`. |
| NfcReaderAt.ParseInventory | metratec_rfid/nfc_reader_at.py:1059-1124 | The loop computes exactly the specified NFC inventory and error map. |
| NfcReaderAt.PlainLinesScan | metratec_rfid/nfc_reader_at.py:1091-1100 | Without tag details, each tag line appends the mode's tag for its first field. |
| NfcReaderAt.PlainInventoryInOrder | metratec_rfid/nfc_reader_at.py:1059-1124 | Without tag details, N tag lines give N tags in order, each with the line's TID and id. |
| NfcReaderAt.AutoUnknownType | metratec_rfid/nfc_reader_at.py:1102-1104 | In AUTO mode an unknown type name raises KeyError. |
| NfcReaderAt.AutoIso15 | metratec_rfid/nfc_reader_at.py:1102-1106 | In AUTO mode an "ISO15" line gives an ISO 15693 tag with the DSFID, or is skipped when too short. |
| NfcReaderAt.AutoIso14A | metratec_rfid/nfc_reader_at.py:1102-1108 | In AUTO mode an "ISO14A" line gives an ISO 14443-A tag with SAK and ATQA, or is skipped when too short. |
| NfcReaderAt.FixedModeDetails | metratec_rfid/nfc_reader_at.py:1101-1108 | In a fixed mode the details follow the TID directly. |
| NfcReaderAt.AutoTypeRepeats | metratec_rfid/nfc_reader_at.py:1102-1109 | The type "AUTO" creates nothing, so the previous tag is appended again. Before any tag it raises UnboundLocalError. |
| NfcReaderAt.ErrorMarker | metratec_rfid/nfc_reader_at.py:1072-1120 | An error marker raises its text and stores it as "message", unless errors are ignored. |
| NfcReaderAt.NoTagsMarker | metratec_rfid/nfc_reader_at.py:1075-1076 | The marker `<NO TAGS FOUND>` changes nothing. |
| NfcReaderAt.HandleInventoryEvents | metratec_rfid/nfc_reader_at.py:1048-1057 | A `+CINV` push is parsed from offset 7, and the tags go to the callback or into the map. A reader error becomes a WARNING status unless an antenna-error warning is shown. Other errors propagate. |
| HfReaderGen1.PyInt | metratec_rfid/hf_reader_gen1.py:273 | `int(s)` strips surrounding whitespace and then succeeds exactly when the rest is an optional sign and ASCII decimal digits (the `Text.ParseInt` reading), with that value. |
| HfReaderGen1.HfReader.constructor | metratec_rfid/hf_reader_gen1.py:16-21 | A new HF reader has no inventory and no request on record, no request callback and the RF interface off. |
| HfReaderGen1.HfReader.SetCbRequest | metratec_rfid/hf_reader_gen1.py:80-91 | Installs the request callback and returns the previous one. |
| HfReaderGen1.ClassifyRoutes | metratec_rfid/hf_reader_gen1.py:27-52 | Classifying a pushed line (its last character removed): heartbeats are dropped; `TD.`/`TN.` are request replies and `IV.` inventory reports. `R.W` turns the RF interface off. A line ending in an `IVF` count is an inventory. The rest goes to the reply queue, and an empty line raises IndexError. |
| HfReaderGen1.StampAll | metratec_rfid/hf_reader_gen1.py:272-276 | An antenna report stamps every earlier tag with its antenna. |
| HfReaderGen1.ParseInventory | metratec_rfid/hf_reader_gen1.py:265-282 | On success the parsed tags and the timestamp are recorded, and the batch is routed to the callback or into the map. An error leaves everything as it was. |
| HfReaderGen1.TidTags | metratec_rfid/hf_reader_gen1.py:277-278 | One tag per TID line. |
| HfReaderGen1.TidTagsCons | metratec_rfid/hf_reader_gen1.py:277-278 | The tags of TID lines are the lines' tags in order. |
| HfReaderGen1.TidLinesScan | metratec_rfid/hf_reader_gen1.py:271-278 | TID lines append their tags in order. |
| HfReaderGen1.ScannedAppend | metratec_rfid/hf_reader_gen1.py:271-278 | Scanning `a + b` is scanning `a` and then `b`. |
| HfReaderGen1.AntennaReportScan | metratec_rfid/hf_reader_gen1.py:265-282 | An `ARP` report between TID lines stamps the tags before it and none after it. |
| HfReaderGen1.StampedTag | metratec_rfid/hf_reader_gen1.py:274-277 | A stamped tag has that antenna and keeps its TID. |
| HfReaderGen1.AntennaReportStampsEarlierTags | metratec_rfid/hf_reader_gen1.py:265-282 | With one antenna report, the earlier tags carry its antenna and the later ones carry none. Each tag keeps its own TID. |
| HfReaderGen1.StatusIndex | metratec_rfid/hf_reader_gen1.py:529-533 | The status line is the last one, or the one before an antenna report. The index may be -1, Python's last element. |
| HfReaderGen1.ParseRequest | metratec_rfid/hf_reader_gen1.py:522-551 | The request record becomes the specified update. The request callback gets the data exactly when it is non-empty and a callback is set. |
| HfReaderGen1.RequestData | metratec_rfid/hf_reader_gen1.py:534-537 | A successful reply gives the payload, without its status byte and CRC, and no error. |
| HfReaderGen1.RequestTagError | metratec_rfid/hf_reader_gen1.py:534-539 | A non-zero status byte gives the error "TEC <code>" and no data. |
| HfReaderGen1.RequestStatusErrors | metratec_rfid/hf_reader_gen1.py:534-546 | A reply missing `COK` reports the third line. Without `NCL` the status line itself is the error. |
| HfReaderGen1.RequestWithAntenna | metratec_rfid/hf_reader_gen1.py:530-533 | A trailing `ARP d` records antenna d and leaves the data and error as without it. |
| HfReaderGen1.FlagsByteBits | metratec_rfid/hf_reader_gen1.py:364-369 | The request flags are one hex byte (section 7.3.1 of ISO/IEC 15693-3). The sub-carrier bit is set for two sub-carriers and the data-rate bit is always set. The address bit is set exactly for an addressed request and the option bit exactly for the option flag; no other bit is set. |
| HfReaderGen1.PayloadLayout | metratec_rfid/hf_reader_gen1.py:364-370 | The request is the flags byte, the tag command, the TID when addressed and the data, in this order. |
| HfReaderGen1.OpCodes | metratec_rfid/hf_reader_gen1.py:315-520 | The ISO/IEC 15693 command codes: read block 0x20, write block 0x21, write AFI 0x27, lock AFI 0x28, write DSFID 0x29, lock DSFID 0x2A, get system information 0x2B. Block numbers, AFI and DSFID bytes go out as two hex digits. |
| HfReaderGen1.SendRequest | metratec_rfid/hf_reader_gen1.py:338-371 | The request record is cleared (no time, the request line recorded) before the line is sent. Connected: the line is logged as sent, the record and result are what the reply produces (`RequestOutcome`), and the request callback gets the reply's non-empty data. Without a reply: TimeoutError with the RF interface on, "RF interface not enabled" otherwise. Not connected: "Not connected", nothing sent, no event, the record left cleared. Also `metratec_rfid/hf_reader_gen1.py:553-582`. |
| HfReaderGen1.RequestCompletes | metratec_rfid/hf_reader_gen1.py:553-582 | A reply whose parse succeeds returns the record with its data. Without a reply the request fails, with a timeout exactly when the RF interface is on. |
| HfReaderGen1.ReadTagInformation | metratec_rfid/hf_reader_gen1.py:373-409 | `REQ` with command 2B is sent. A failed request raises. Otherwise the data is decoded like the HF system information, into the request record itself, which holds the decoded fields on success and the reply's record otherwise; a decoding failure raises. The request callback gets what the reply fires. Not connected gives "Not connected". |
| HfReaderGen1.EnableRfInterface | metratec_rfid/hf_reader_gen1.py:93-110 | A modulation depth other than 10 or 100 is refused before anything is sent. Otherwise `SRI SS/DS depth` is logged as sent. On success the depth is recorded, the interface is on, and the sub-carrier setting is recorded as single even for "DS", as the code does. Not connected gives "Not connected" and nothing is sent. |
| HfReaderGen1.DisableRfInterface | metratec_rfid/hf_reader_gen1.py:112-119 | `SRI OFF` is logged as sent, and the interface is off exactly when that succeeds. Not connected gives "Not connected" and nothing is sent. |
| HfReaderGen1.SubCarrierAfterEnable | metratec_rfid/hf_reader_gen1.py:108 | After any successful enable, requests are flagged for a single sub-carrier. Also `metratec_rfid/hf_reader_gen1.py:365-368`. |
| HfReaderGen1.DataReceived | metratec_rfid/hf_reader_gen1.py:27-52 | A pushed line changes exactly what its class says. A plain reply is queued. `RF OFF` clears the RF flag. A request reply updates the request record and fires the request callback with its non-empty data; its parse error is raised. An inventory report replaces the transponders and their time, fires the inventory events and updates the inventory map; its parse error is raised with nothing changed. Heartbeats and resets change nothing. |
| Tunnels.IntArg | metratec_rfid/tunnel.py:105-117 | `isinstance(v, int)` accepts exactly integers and booleans; a boolean counts as 0 or 1. |
| Tunnels.ConfigRoundTrip | metratec_rfid/tunnel.py:79-123 | Applying the configuration `get_config` returns gives back the same settings. |
| Tunnels.ConfigTyped | metratec_rfid/tunnel.py:97-123 | `set_config` ignores a missing or empty configuration. A present value is taken only when it has the accepted type: an int (or bool) pin, a string trigger, a float delay. Every other entry leaves its setting as it was. |
| Tunnels.ConfigIdempotent | metratec_rfid/tunnel.py:97-123 | Applying the same configuration twice is applying it once. |
| Tunnels.UpperIdempotent | metratec_rfid/tunnel.py:64 | Upper-casing twice is upper-casing once. |
| Tunnels.TriggerIgnoresCase | metratec_rfid/tunnel.py:64-76 | The trigger level does not depend on the letter case of its text. |
| Tunnels.TriggerHighPrefix | metratec_rfid/tunnel.py:64-76 | A text starting with "high" in any case triggers on high. |
| Tunnels.TriggerLow | metratec_rfid/tunnel.py:64-76 | A text without an h, such as "LOW", triggers on low. |
| Tunnels.Trunc | metratec_rfid/tunnel.py:200-206 | `int(x)` of a float truncates toward zero. |
| Tunnels.PyIntOf | metratec_rfid/tunnel.py:198-208 | `int(v)` keeps integers, reads stripped text by `Text.ParseInt` (sign and ASCII digits), and fails on `None`. |
| Tunnels.TunnelConfigRoundTrip | metratec_rfid/tunnel.py:189-220 | `get_tunnel_config` read back by `set_tunnel_config` gives the same pins. `set_tunnel_config` never changes the triggers or the delays. |
| Tunnels.TunnelConfigConversions | metratec_rfid/tunnel.py:198-208 | -2.5 gives pin -2 and 2.5 gives pin 2. `None` is ignored, and the text "7" gives pin 7. |
| Tunnels.CollectTagStep | metratec_rfid/tunnel.py:222-230 | A reported tag adds its id. A known tag has `last_seen` set and its seen counts summed, while its first sighting and timestamp are kept. A new tag is stored with `first_seen` taken from its timestamp. Other tags are untouched. |
| Tunnels.CollectKeys | metratec_rfid/tunnel.py:222-230 | After a batch, the scan holds the old ids plus the ids of the batch. |
| Tunnels.CollectUntouched | metratec_rfid/tunnel.py:222-230 | A tag the batch does not mention is unchanged. |
| Tunnels.CollectSeenCount | metratec_rfid/tunnel.py:222-230 | The seen count of an id is its old count plus the counts of all its reports in the batch. |
| Tunnels.TriggerDecisions | metratec_rfid/tunnel.py:235-247 | The start pin at its level starts scan number last id + 1. Otherwise the stop pin at its level stops the running scan, and only if one is running. When the two pins are the same, no input ever stops a scan. |
| Tunnels.StartRetryCrashes | metratec_rfid/tunnel.py:261-269 | As written, a failed start on a connected reader raises KeyError 'id' instead of retrying. The corrected version retries the same scan. |
| Tunnels.StartScanOutcomes | metratec_rfid/tunnel.py:249-269 | A start is ignored while a scan is current. Otherwise it begins when the reader starts. A reader or transponder error (what `except RfidReaderException` catches) on a connected link retries the same id, and any other error propagates. Apart from retries it agrees with the code. |
| Tunnels.StopStampBlocks | metratec_rfid/tunnel.py:271-292 | A stop that finds no scan fails with KeyError 'tags' after stamping `stop_time` into the empty current scan. From then on every start is ignored and no stop can finish. |
| Tunnels.Tunnel.constructor | metratec_rfid/tunnel.py:28-41 | A new tunnel is BUSY "initialised". It uses start input 1 on high and stop input 2 on low, with no delays. It is not started, no scan is current, and the last scan is number 0. |
| Tunnels.Tunnel.SetCbScan | metratec_rfid/tunnel.py:43-53 | Installs the scan callback and returns the previous one. |
| Tunnels.Tunnel.SetInputStart | metratec_rfid/tunnel.py:55-65 | Sets the start pin, its level and its delay, and nothing else. |
| Tunnels.Tunnel.SetInputStop | metratec_rfid/tunnel.py:67-77 | Sets the stop pin, its level and its delay, and nothing else. |
| Tunnels.Tunnel.GetConfig | metratec_rfid/tunnel.py:79-95 | Returns the settings as a configuration that `set_config` reads back unchanged. |
| Tunnels.Tunnel.SetConfig | metratec_rfid/tunnel.py:97-123 | The settings become `Configured` of the old ones. |
| Tunnels.Tunnel.SetTunnelConfig | metratec_rfid/tunnel.py:189-208 | The settings become `TunnelConfigured` of the old ones. |
| Tunnels.Tunnel.GetTunnelConfig | metratec_rfid/tunnel.py:210-220 | Returns the two pins, which `set_tunnel_config` reads back unchanged. |
| Tunnels.Tunnel.Start | metratec_rfid/tunnel.py:151-168 | A started tunnel changes nothing. Otherwise: the connection state is remembered, and a failed connect propagates with the tunnel not started. On success the reader is connected, and the tunnel's handlers replace the three reader callbacks, whose old values are saved. Installing the input handler on a running reader schedules the enabling of input events. Then the status becomes RUNNING "running". |
| Tunnels.Tunnel.Stop | metratec_rfid/tunnel.py:173-187 | A stopped tunnel changes nothing. Otherwise the saved callbacks are restored and the status becomes ERROR "stopped"; restoring the input callback on a running reader schedules input events on or off as that callback is set or not. A reader the tunnel connected itself is disconnected, which empties its inventory. |
| Tunnels.Tunnel.StartThenStop | metratec_rfid/tunnel.py:151-187 | Starting and then stopping leaves the reader's callbacks and connection as they were. |
| Tunnels.Tunnel.ReaderStatusChanged | metratec_rfid/tunnel.py:170-171 | The reader's status is mirrored with its message prefixed by "Reader - " and its timestamp. |
| Tunnels.Tunnel.InputChanged | metratec_rfid/tunnel.py:235-247 | The action is the trigger decision for the current settings and scans. |
| Tunnels.Tunnel.NewInventory | metratec_rfid/tunnel.py:222-230 | During a scan the batch is collected into its tags. With no current scan a non-empty batch raises KeyError 'tags' and an empty one does nothing. |
| Tunnels.Tunnel.StartScanStep | metratec_rfid/tunnel.py:249-269 | The outcome is `StartScanResult`. A scan that begins is current with its id, start time and no tags, and the collecting handler is installed. Otherwise nothing changes. |
| Tunnels.Tunnel.TagList | metratec_rfid/tunnel.py:281 | `list(tags.values())` lists every collected tag exactly once. |
| Tunnels.Tunnel.StopScanStep | metratec_rfid/tunnel.py:271-292 | A finished scan gets its stop time, becomes the last scan, and is reported once to the scan callback with its tags. The ignoring handler is installed again. A failed stop changes nothing, and a stop without a scan leaves only the stamp. The outcome is `StopScanResult`. |

## Left out

- The transport: the serial and network connection module is not part of this model. Sending appends to a log, and received lines are a parameter.
- asyncio timing and concurrency, because the model is sequential:
  - the `connect` polling loop (`reader.py:105-115`), the liveness loop (`reader.py:486-505`) and the reconfiguration retry (`reader.py:543-568`);
  - locks, `create_task` scheduling and the wait in `fetch_inventory`, of which only the drain is modelled.
- Clocks: `time()` values are parameters.
- The HF polling waits (`hf_reader_gen1.py:284-313`, `553-582`) are modelled by their outcome only: the reply arrived (`Some`) or the time ran out (`None`).
- Floats: firmware versions are compared as integer hundredths. These are left out: the heartbeat timeouts, the report duration conversion of `get_inventory_report`/`start_inventory_report`, and the tunnel's start and stop delays (`asyncio.sleep`), which are kept as configuration values only.
- Tunnels.Tunnel.Start: the reader's `connect`, `start_inventory` and `stop_inventory` are outcomes passed in, not calls into a reader model.
- Tunnels.Tunnel.TagList: dict insertion order is not modelled, so the list is specified by its members and its length.
- Tunnels: `set_reader_config`/`get_reader_config` are left out because they are empty stubs, and `_new_inventory_ignore` because it only logs. A reported tag is stored as a value, so the aliasing of the `Tag` objects between the reader and the scan is not modelled.
- Tunnels.StopStampBlocks: a stop that finds no scan (two stop tasks for one scan, say) leaves a current scan that holds only `stop_time`, and that blocks every later start. This is stated as the code behaves; no corrected version is given, because the intended recovery is not evident.
- UhfReaderAt.UhfReader.FireInventoryReportEvent: without a report callback the code calls the asynchronous `_update_inventory` without awaiting it, so the model leaves the map unchanged and does not claim that reports aggregate.
- Text.ParseInt: reads Python's `int()` only on an optional sign and ASCII decimal digits, which is what the reader firmware sends. `int()` also accepts surrounding whitespace, `_` between digits and non-ASCII decimal digits, and `int(s, 16)` accepts a `0x` prefix; these forms are refused by the model.
- UhfReaderAt.IntField: reads a field by `Text.ParseInt`, so whitespace around it, `_` and non-ASCII digits are refused where Python's `int()` accepts them.
- HfTags.HexField: reads a slice by `Text.Hex`, so whitespace, `_` and a `0x` prefix are refused where `int(s, 16)` accepts them.
- HfReaderGen1.PyInt: strips whitespace as `int()` does, but refuses `_` and non-ASCII digits.
- Tunnels.PyIntOf: reads text by `Text.ParseInt` after stripping, so `_` and non-ASCII digits are refused where `int()` accepts them.
- Readers.Reader.FetchInventory: the order of `list(values())`, which is first-insertion order, is not modelled; the result is specified by its members and its length.
- Readers.Reader.SetCbInputChanged: the scheduled `_enable_input_events` task is recorded as a pending `AT+IEV` on or off; running it, and its reply, are not modelled.
- ReaderAt.CheckAntennas: the `get_antenna` query, the `set_antenna(k)` commands before each inventory and the final `set_antenna(current)` restore are not sent by the model, and their failures are not modelled; each inventory is given by its outcome (`InventoryOutcome` relates it to the parser). The inventory callback is switched off and back on by the code, which leaves it as it was; the model does not touch it.
- ReaderAt.VersionCheck: a version of `-0` or `-000` prints as `-0.0` in Python; the model keeps versions in integer hundredths and prints `0.0`.
- UhfEpcRewrite.WriteTagEpc: models the call without a TID mask. With a mask, the final mask restore passes its arguments in a different order than `set_mask` declares (`uhf_reader_at.py:660` against `206`), so the restore is not modelled. The Gen2 reader's `write_tag_epc`, `read_tag_data`, `write_tag_data` and `_parse_tag_responses` have the same bodies as the AT reader's; the model runs them once, over the AT engine.
- HfReaderGen1.ReadTagInformation: on a malformed reply the model drops the decoded flags. The code leaves the flags decoded before the failing field in `_last_request`, because it writes into that same dict.
- HfReaderGen1.EnableRfInterface: records `single_sub_carrier` as true whatever the argument, exactly as the code does (`hf_reader_gen1.py:108`). It is not claimed as a finding, because the source does not say what it intends.
- Thin fixed-command wrappers are left out, because the command formatter and the reply loop already cover them:
  - region, power, kill and lock commands of the UHF readers;
  - the report start/stop commands;
  - the NFC Mifare and NTAG configuration setters, sounds and feedback;
  - `config_rf_interface`, `get_memory_sectors`, `write_data`, `read_data_with_option_flag`, `get_afi`, `lock_tag_afi`/`lock_tag_dsfid`, `send_request_iso14a`;
  - the HF gen1 `set_mode`, `set_power` and the inventory start/stop commands.
- The AT reader's `get_inventory_settings`/`set_inventory_settings` (with `bti`) are left out: the parser takes its TID, RSSI and phase settings as a parameter.
- The NFC `get_inventory`, `get_inventory_multi`, `stop_inventory` and `_config_reader` are left out; they only call the modelled command engine and parser.
- The HF gen1 `get_inventory`/`get_inventory_multi` and `_get_last_inventory`'s wait are left out; the pushed inventory report they wait for is modelled (`ParseInventory`).
- The `errors` list that the HF gen1 inventory stores is always empty and is not modelled.
- Logging and `print` calls are left out.
- The names that are referenced but not part of this model are replaced by the `Error` datatype, with Reader, Transponder, Timeout and Fault kinds: `uhf_reader_gen1`, `uhf_reader_ascii`, `UhfReaderATMulti`, `ReaderATIO`, and the transponder exception class. The transponder exception is read as a subclass of the reader exception, so every `except RfidReaderException` in the model (`Results.IsReaderException`), the tunnel's included, catches both kinds.

## Findings

| source | as written | input that shows it | evidently intended | confidence | as-written member | corrected member |
|---|---|---|---|---|---|---|
| metratec_rfid/reader_gen1.py:104-112 | The handshake waits for `recv is None` to detect a sleeping device and wake it with `WAK`. But `_recv` (`reader.py:511-528`) raises `TimeoutError` instead of returning `None`, so the branch is dead and the timeout escapes. | A device that stays silent after `BRK`, e.g. one that is asleep. | A silent read marks the device as sleeping and sends `WAK`, after which the challenge is answered with `WAK 5E70`. | not executed | ReaderGen1.HandshakeAsWritten (exhibited by ReaderGen1.SleepingDevice) | ReaderGen1.Handshake (used by ReaderGen1.RunHandshake) |
| metratec_rfid/nfc_reader_at.py:387-390 | An integer AFI or DSFID is formatted with `{:02X}` and accepted when the text has two characters. Negative integers -1 to -15 format as `-1` to `-F` and pass. | `set_afi(-1)` sends `AT+AFI=-1`. | Only bytes 0 to 255 (or two-character text) are accepted, as the message "AFI must be in range from '00' to 'FF'" says. | not executed | NfcReaderAt.CheckedHexAsWritten (exhibited by NfcReaderAt.NegativeAfiPasses) | NfcReaderAt.CheckedHex (proved by NfcReaderAt.CheckedHexIsByte, used by SetAfi and WriteTagValue) |
| metratec_rfid/tunnel.py:265-269 | When `start_inventory` fails on a connected reader, the retry reads `self._current_scan['id']`. On this path the current scan is always empty, so the retry raises `KeyError: 'id'` instead of retrying. | A start trigger while `start_inventory` raises a reader error on a connected reader. | Retry the same scan, `self._start_scan(scan_id)`, as `_stop_scan` does at line 292. | not executed | Tunnels.StartScanAsWritten (exhibited by Tunnels.StartRetryCrashes) | Tunnels.StartScanResult (proved by Tunnels.StartScanOutcomes, used by Tunnels.Tunnel.StartScanStep) |
