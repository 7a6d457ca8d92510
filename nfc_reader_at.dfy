/** The NFC reader of the AT protocol: the table that tells transponder errors from reader
    errors, the operation mode and the selected transponder, the inventory parser with its
    three tag classes, tag-type detection, block reads, NTAG authentication and the checks
    on AFI and DSFID values. */
module NfcReaderAt {
  import opened Results
  import opened Text
  import opened Tags
  import opened HfTags
  import opened Status
  import opened Readers
  import AT = ReaderAt
  import U = UhfReaderAt

  // ------------------------------------------------------------ errors

  /** The device's error texts that `_parse_error_response` reports as transponder errors. */
  const TransponderErrors: seq<string> := [
    "No Tag selected", "Wrong Tag type", "Unexpected Tag response", "Block out of range",
    "Not authenticated", "Access prohibited", "Wrong block size", "Tag timeout",
    "Collision error", "Overflow", "Parity error", "Framing error",
    "Protocol violation", "Authentication failure", "Length error", "Received NAK",
    "NTAG invalid argument", "NTAG parity/crc error", "NTAG auth limit reached",
    "NTAG EEPROM failure (maybe locked?)",
    "Mifare NAK 0", "Mifare NAK 1", "Mifare NAK 3", "Mifare NAK 4", "Mifare NAK 5",
    "Mifare NAK 6", "Mifare NAK 7", "Mifare NAK 8", "Mifare NAK 9",
    "ISO15 custom command error", "ISO15 command not supported", "ISO15 command not recognized",
    "ISO15 option not supported", "ISO15 no information", "ISO15 block not available",
    "ISO15 block locked", "ISO15 content change failure", "ISO15 block programming failure",
    "ISO15 block protected", "ISO15 cryptographic error"]

  /** `_parse_error_response(response)`: a transponder error for a listed text, a reader error
      otherwise, both carrying the text. */
  function ErrorOf(response: string): Error
  {
    if response in TransponderErrors then TransponderError(response) else ReaderError(response)
  }

  /** The table has forty entries; a text is a transponder error exactly when it is one of
      them, and the error carries the text either way. Reader-side texts such as "Timeout"
      or "IO error" stay reader errors, while "Block out of range" is a transponder error. */
  lemma ErrorTable(response: string)
    ensures |TransponderErrors| == 40
    ensures ErrorOf(response).TransponderError? <==> response in TransponderErrors
    ensures ErrorOf(response).ReaderError? <==> response !in TransponderErrors
    ensures ErrorOf(response).msg == response
    ensures ErrorOf("Block out of range") == TransponderError("Block out of range")
  {
    assert TransponderErrors[3] == "Block out of range";
  }

  /** An `ERROR` reply of the NFC reader: the text between the brackets of the last data line
      goes through the table. */
  lemma ErrorReplyClassified(inner: string, command: string)
    requires '<' !in inner && '>' !in inner
    ensures AT.ErrorReply("<" + inner + ">", command, AT.AtDialect, ErrorOf) == ErrorOf(inner)
  {
    AT.ErrorDialects("<" + inner + ">", inner, command, ErrorOf);
  }

  // ------------------------------------------------------------ the reader object

  /** The operation mode of the reader. */
  datatype Mode = Auto | Iso15 | Iso14A

  /** `mode.name`. */
  function ModeName(m: Mode): string
  {
    match m case Auto => "AUTO" case Iso15 => "ISO15" case Iso14A => "ISO14A"
  }

  /** `Mode[name]`: `None` for the KeyError. */
  function ModeNamed(name: string): Option<Mode>
  {
    if name == "AUTO" then Some(Auto) else if name == "ISO15" then Some(Iso15)
    else if name == "ISO14A" then Some(Iso14A) else None
  }

  /** Names and modes correspond one to one. */
  lemma ModeNames(m: Mode, name: string)
    ensures ModeNamed(ModeName(m)) == Some(m)
    ensures ModeNamed(name) == Some(m) ==> name == ModeName(m)
  {
  }

  function KeyError(key: string): Error
  {
    Fault("KeyError: '" + key + "'")
  }

  /** `config['inventory']` of the NFC reader. */
  datatype InventoryConfig = InventoryConfig(tagDetails: bool, onlyNewTags: bool, singleSlot: bool)

  /** An NFC reader: the AT engine plus the mode, the selected transponder and the inventory
      settings (absent until they are read or written). */
  class NfcReader {
    const reader: Reader
    var mode: Mode
    var selectedTag: string
    var config: Option<InventoryConfig>

    /** `NfcReaderAT.__init__` on top of an engine `reader`. */
    constructor (reader: Reader)
      ensures this.reader == reader && mode == Auto && selectedTag == "" && config == None
    {
      this.reader := reader;
      mode := Auto;
      selectedTag := "";
      config := None;
    }

    /** `get_selected_transponder`: the recorded tid, asked of nobody. */
    function SelectedTransponder(): (tid: string)
      reads this
      ensures tid == selectedTag
    {
      selectedTag
    }
  }

  /** A command of the NFC reader: the engine's echo setting, device errors through the
      table. */
  method Command(r: Reader, command: string, params: seq<AT.Param>, replies: seq<string>)
    returns (res: Result<seq<string>>)
    modifies r`receiveBuffer, r`sent
    ensures var sc := AT.PrepareCommand(command, params);
      (old(r.connected) ==> r.sent == old(r.sent) + [sc + "\r"])
      && (!old(r.connected) ==> r.sent == old(r.sent))
      && res == old(Reply(r, command, params, replies))
      && r.receiveBuffer == old(Unread(r, command, params, replies))
  {
    res := AT.SendCommand(r, command, params, replies, r.echoEnabled, AT.AtDialect, ErrorOf);
  }

  /** The reply of an NFC command, as a function of the replies the device sends. */
  function Reply(r: Reader, command: string, params: seq<AT.Param>, replies: seq<string>): Result<seq<string>>
    reads r, r.base
  {
    if !r.connected then Err(ReaderError("Not connected"))
    else AT.CommandReply(replies, command, AT.PrepareCommand(command, params), r.echoEnabled,
                         r.base.info.status >= 1, AT.AtDialect, ErrorOf).0
  }

  /** The lines an NFC command leaves queued: those after the final reply line, and none when
      the reader is not connected (the queue is cleared before sending). */
  function Unread(r: Reader, command: string, params: seq<AT.Param>, replies: seq<string>): seq<string>
    reads r, r.base
  {
    if !r.connected then []
    else replies[AT.CommandReply(replies, command, AT.PrepareCommand(command, params), r.echoEnabled,
                                 r.base.info.status >= 1, AT.AtDialect, ErrorOf).1..]
  }

  /** `responses[0][k:]`: the first reply line from offset `k`; no line raises. */
  function First(lines: seq<string>, k: nat): Result<string>
  {
    if |lines| == 0 then Err(AT.IndexError) else Ok(From(lines[0], k))
  }

  /** The first line of a command's reply from offset `k`. */
  function FirstOf(reply: Result<seq<string>>, k: nat): Result<string>
  {
    if reply.Err? then Err(reply.error) else First(reply.value, k)
  }

  // ------------------------------------------------------------ mode and selection

  /** `get_mode`'s parsing: the mode named from offset 6 of the first line. */
  function ModeOf(lines: seq<string>): Result<Mode>
  {
    match First(lines, 6)
    case Err(e) => Err(e)
    case Ok(name) => if ModeNamed(name).Some? then Ok(ModeNamed(name).value) else Err(KeyError(name))
  }

  /** The device's answer to `AT+MOD?` reads back as the mode it names. */
  lemma ModeRoundTrip(m: Mode, more: seq<string>)
    ensures ModeOf(["+MOD: " + ModeName(m)] + more) == Ok(m)
  {
    assert (["+MOD: " + ModeName(m)] + more)[0] == "+MOD: " + ModeName(m);
    assert From("+MOD: " + ModeName(m), 6) == ModeName(m);
  }

  /** `set_mode(mode)`: `AT+MOD=<name>`; the mode is recorded only when the command succeeds. */
  method SetMode(n: NfcReader, mode: Mode, replies: seq<string>) returns (res: Outcome)
    modifies n.reader`receiveBuffer, n.reader`sent, n`mode
    ensures var reply := old(Reply(n.reader, "AT+MOD", [AT.PStr(ModeName(mode))], replies));
      res == U.OutcomeOf(reply) && n.mode == (if reply.Ok? then mode else old(n.mode))
    ensures old(n.reader.connected) ==> n.reader.sent == old(n.reader.sent) + ["AT+MOD=" + ModeName(mode) + "\r"]
  {
    AT.PrepareCommandOne("AT+MOD", ModeName(mode));
    assert AT.PrepareCommand("AT+MOD", [AT.PStr(ModeName(mode))]) + "\r" == "AT+MOD=" + ModeName(mode) + "\r";
    var reply := Command(n.reader, "AT+MOD", [AT.PStr(ModeName(mode))], replies);
    if reply.Err? {
      return Raise(reply.error);
    }
    n.mode := mode;
    res := Done;
  }

  /** `get_mode`: `AT+MOD?`; the mode read is recorded. */
  method GetMode(n: NfcReader, replies: seq<string>) returns (res: Result<Mode>)
    modifies n.reader`receiveBuffer, n.reader`sent, n`mode
    ensures var reply := old(Reply(n.reader, "AT+MOD?", [], replies));
      res == (if reply.Err? then Err(reply.error) else ModeOf(reply.value))
      && n.mode == (if res.Ok? then res.value else old(n.mode))
    ensures n.reader.sent == old(n.reader.sent) + (if old(n.reader.connected) then ["AT+MOD?\r"] else [])
      && n.reader.receiveBuffer == old(Unread(n.reader, "AT+MOD?", [], replies))
  {
    assert AT.PrepareCommand("AT+MOD?", []) + "\r" == "AT+MOD?\r";
    var reply := Command(n.reader, "AT+MOD?", [], replies);
    if reply.Err? {
      return Err(reply.error);
    }
    res := ModeOf(reply.value);
    if res.Ok? {
      n.mode := res.value;
    }
  }

  /** `select_transponder(tid)`: `AT+SEL=<tid>`; the tid is recorded only on success. */
  method SelectTransponder(n: NfcReader, tid: string, replies: seq<string>) returns (res: Outcome)
    modifies n.reader`receiveBuffer, n.reader`sent, n`selectedTag
    ensures var reply := old(Reply(n.reader, "AT+SEL", [AT.PStr(tid)], replies));
      res == U.OutcomeOf(reply) && n.selectedTag == (if reply.Ok? then tid else old(n.selectedTag))
    ensures old(n.reader.connected) ==> n.reader.sent == old(n.reader.sent) + ["AT+SEL=" + tid + "\r"]
  {
    AT.PrepareCommandOne("AT+SEL", tid);
    assert AT.PrepareCommand("AT+SEL", [AT.PStr(tid)]) + "\r" == "AT+SEL=" + tid + "\r";
    var reply := Command(n.reader, "AT+SEL", [AT.PStr(tid)], replies);
    if reply.Err? {
      return Raise(reply.error);
    }
    n.selectedTag := tid;
    res := Done;
  }

  /** `deselect_transponder`: `AT+DEL`; the selection is cleared only on success. */
  method DeselectTransponder(n: NfcReader, replies: seq<string>) returns (res: Outcome)
    modifies n.reader`receiveBuffer, n.reader`sent, n`selectedTag
    ensures var reply := old(Reply(n.reader, "AT+DEL", [], replies));
      res == U.OutcomeOf(reply) && n.selectedTag == (if reply.Ok? then "" else old(n.selectedTag))
    ensures n.reader.sent == old(n.reader.sent) + (if old(n.reader.connected) then ["AT+DEL\r"] else [])
      && n.reader.receiveBuffer == old(Unread(n.reader, "AT+DEL", [], replies))
  {
    assert AT.PrepareCommand("AT+DEL", []) + "\r" == "AT+DEL\r";
    var reply := Command(n.reader, "AT+DEL", [], replies);
    if reply.Err? {
      return Raise(reply.error);
    }
    n.selectedTag := "";
    res := Done;
  }

  const Iso15Only := ReaderError("Only available in ISO15 mode!")

  /** `send_read_request_iso15693(request)`: refused without a command outside ISO15 mode;
      otherwise `AT+RRQ=<request>` and the first reply line from offset 6. */
  method SendReadRequestIso15693(n: NfcReader, request: string, replies: seq<string>) returns (res: Result<string>)
    modifies n.reader`receiveBuffer, n.reader`sent
    ensures old(n.mode) != Iso15 ==> res == Err(Iso15Only) && n.reader.sent == old(n.reader.sent)
    ensures old(n.mode) == Iso15 ==>
      res == FirstOf(old(Reply(n.reader, "AT+RRQ", [AT.PStr(request)], replies)), 6)
      && (old(n.reader.connected) ==> n.reader.sent == old(n.reader.sent) + ["AT+RRQ=" + request + "\r"])
  {
    if n.mode != Iso15 {
      return Err(Iso15Only);
    }
    AT.PrepareCommandOne("AT+RRQ", request);
    assert AT.PrepareCommand("AT+RRQ", [AT.PStr(request)]) + "\r" == "AT+RRQ=" + request + "\r";
    var reply := Command(n.reader, "AT+RRQ", [AT.PStr(request)], replies);
    if reply.Err? {
      return Err(reply.error);
    }
    res := First(reply.value, 6);
  }

  /** `send_write_request_iso15693(request)`: the same guard, then `AT+WRQ=<request>`. */
  method SendWriteRequestIso15693(n: NfcReader, request: string, replies: seq<string>) returns (res: Outcome)
    modifies n.reader`receiveBuffer, n.reader`sent
    ensures old(n.mode) != Iso15 ==> res == Raise(Iso15Only) && n.reader.sent == old(n.reader.sent)
    ensures old(n.mode) == Iso15 ==>
      res == U.OutcomeOf(old(Reply(n.reader, "AT+WRQ", [AT.PStr(request)], replies)))
      && (old(n.reader.connected) ==> n.reader.sent == old(n.reader.sent) + ["AT+WRQ=" + request + "\r"])
  {
    if n.mode != Iso15 {
      return Raise(Iso15Only);
    }
    AT.PrepareCommandOne("AT+WRQ", request);
    assert AT.PrepareCommand("AT+WRQ", [AT.PStr(request)]) + "\r" == "AT+WRQ=" + request + "\r";
    var reply := Command(n.reader, "AT+WRQ", [AT.PStr(request)], replies);
    res := U.OutcomeOf(reply);
  }

  // ------------------------------------------------------------ inventory settings

  function SettingsParams(c: InventoryConfig): seq<AT.Param>
  {
    [AT.BoolParam(c.tagDetails), AT.BoolParam(c.onlyNewTags), AT.BoolParam(c.singleSlot)]
  }

  /** `get_inventory_settings`'s parsing: the comma fields from offset 7 of the first line,
      each true when it is "1". No line raises IndexError; fewer than three fields is a reader
      error naming the reply. */
  function SettingsOf(lines: seq<string>): Result<InventoryConfig>
  {
    if |lines| == 0 then Err(AT.IndexError)
    else
      var data := Split(From(lines[0], 7), ',');
      if |data| < 3 then Err(ReaderError("Not expected response for command AT+INVS? - " + AT.ListText(lines)))
      else Ok(InventoryConfig(data[0] == "1", data[1] == "1", data[2] == "1"))
  }

  /** The answer "+INVS: " followed by what `set_inventory_settings` sends reads back as the
      same settings. */
  lemma SettingsRoundTrip(c: InventoryConfig, more: seq<string>)
    ensures SettingsOf(["+INVS: " + Join(AT.Present(SettingsParams(c)), ",")] + more) == Ok(c)
  {
    var j := AT.FlagsPayload(c.tagDetails, c.onlyNewTags, c.singleSlot);
    var line := "+INVS: " + j;
    assert ([line] + more)[0] == line;
    assert From(line, 7) == j;
  }

  /** `get_inventory_settings`: `AT+INVS?`; the settings read become `config['inventory']`. */
  method GetInventorySettings(n: NfcReader, replies: seq<string>) returns (res: Result<InventoryConfig>)
    modifies n.reader`receiveBuffer, n.reader`sent, n`config
    ensures var reply := old(Reply(n.reader, "AT+INVS?", [], replies));
      res == (if reply.Err? then Err(reply.error) else SettingsOf(reply.value))
      && n.config == (if res.Ok? then Some(res.value) else old(n.config))
    ensures n.reader.sent == old(n.reader.sent) + (if old(n.reader.connected) then ["AT+INVS?\r"] else [])
      && n.reader.receiveBuffer == old(Unread(n.reader, "AT+INVS?", [], replies))
  {
    assert AT.PrepareCommand("AT+INVS?", []) + "\r" == "AT+INVS?\r";
    var reply := Command(n.reader, "AT+INVS?", [], replies);
    if reply.Err? {
      return Err(reply.error);
    }
    res := SettingsOf(reply.value);
    if res.Ok? {
      n.config := Some(res.value);
    }
  }

  /** `set_inventory_settings(enable_tag_details, only_new_tags, single_slot)`: `AT+INVS` with
      the flags as 0/1, then the settings are written into `config['inventory']`, which must
      already exist. */
  method SetInventorySettings(n: NfcReader, c: InventoryConfig, replies: seq<string>) returns (res: Outcome)
    modifies n.reader`receiveBuffer, n.reader`sent, n`config
    ensures var reply := old(Reply(n.reader, "AT+INVS", SettingsParams(c), replies));
      (reply.Err? ==> res == Raise(reply.error) && n.config == old(n.config))
      && (reply.Ok? && old(n.config).None? ==> res == Raise(KeyError("inventory")) && n.config == None)
      && (reply.Ok? && old(n.config).Some? ==> res == Done && n.config == Some(c))
    ensures n.reader.sent == old(n.reader.sent)
      + (if old(n.reader.connected) then ["AT+INVS=" + Join(AT.Present(SettingsParams(c)), ",") + "\r"] else [])
      && n.reader.receiveBuffer == old(Unread(n.reader, "AT+INVS", SettingsParams(c), replies))
  {
    ghost var j := Join(AT.Present(SettingsParams(c)), ",");
    assert AT.PrepareCommand("AT+INVS", SettingsParams(c)) + "\r" == "AT+INVS=" + j + "\r";
    var reply := Command(n.reader, "AT+INVS", [AT.BoolParam(c.tagDetails), AT.BoolParam(c.onlyNewTags), AT.BoolParam(c.singleSlot)], replies);
    if reply.Err? {
      return Raise(reply.error);
    }
    if n.config.None? {
      return Raise(KeyError("inventory"));
    }
    n.config := Some(c);
    res := Done;
  }

  // ------------------------------------------------------------ AFI and DSFID values

  /** The argument of `set_afi`, `write_tag_afi` and `write_tag_dsfid`: a hex text, or a
      number formatted with `f"{value:02X}"`. */
  datatype HexArg = HexText(s: string) | HexNumber(i: int)

  function ArgText(a: HexArg): string
  {
    match a case HexText(s) => s case HexNumber(i) => HexFormat(i, 2)
  }

  function RangeError(what: string): Error
  {
    ReaderError(what + " must be in range from '00' to 'FF'")
  }

  /** The check as written: the text must be exactly two characters long. */
  function CheckedHexAsWritten(a: HexArg, what: string): Result<string>
  {
    if |ArgText(a)| != 2 then Err(RangeError(what)) else Ok(ArgText(a))
  }

  /** The check as written lets the numbers -15..-1 through: -1 becomes "-1", which is sent
      to the device as the AFI. */
  lemma NegativeAfiPasses()
    ensures CheckedHexAsWritten(HexNumber(-1), "AFI") == Ok("-1")
    ensures forall i :: -16 < i < 0 ==> CheckedHexAsWritten(HexNumber(i), "AFI").Ok?
  {
    assert NatDigits(1, 16) == "1";
    assert PaddedHex(1, 1) == "1";
    assert HexFormat(-1, 2) == "-1";
    forall i | -16 < i < 0
      ensures CheckedHexAsWritten(HexNumber(i), "AFI").Ok?
    {
      HexFormat2Width(i);
    }
  }

  /** The check as intended: a number must be a byte, 0..255; a text must be two characters. */
  function CheckedHex(a: HexArg, what: string): Result<string>
  {
    match a
    case HexText(s) => if |s| != 2 then Err(RangeError(what)) else Ok(s)
    case HexNumber(i) => if i < 0 || i > 255 then Err(RangeError(what)) else Ok(HexFormat(i, 2))
  }

  /** A number passes exactly when it is a byte, and then it is sent as two upper-case hex
      digits that read back as the number; a text passes exactly when it has two characters.
      On every argument the as-written check agrees except on -15..-1. */
  lemma CheckedHexIsByte(a: HexArg, what: string)
    ensures a.HexNumber? ==> (CheckedHex(a, what).Ok? <==> 0 <= a.i < 256)
    ensures a.HexNumber? && CheckedHex(a, what).Ok? ==>
      var r := CheckedHex(a, what).value;
      |r| == 2 && Digits(r, 16) == Some(a.i) && r[0] != '-'
    ensures a.HexText? ==> (CheckedHex(a, what).Ok? <==> |a.s| == 2)
    ensures CheckedHex(a, what).Err? ==> CheckedHex(a, what).error == RangeError(what)
    ensures !(a.HexNumber? && -16 < a.i < 0) ==> CheckedHex(a, what) == CheckedHexAsWritten(a, what)
  {
    if a.HexNumber? {
      HexFormat2Width(a.i);
      if 0 <= a.i < 256 {
        DigitsNatDigits(a.i, 16);
      }
    }
  }

  /** `set_afi(afi)`: `AT+AFI=<afi>` after the check. */
  method SetAfi(r: Reader, afi: HexArg, replies: seq<string>) returns (res: Outcome)
    modifies r`receiveBuffer, r`sent
    ensures var checked := CheckedHex(afi, "AFI");
      (checked.Err? ==> res == Raise(checked.error) && r.sent == old(r.sent))
      && (checked.Ok? ==>
            res == U.OutcomeOf(old(Reply(r, "AT+AFI", [AT.PStr(checked.value)], replies)))
            && (old(r.connected) ==> r.sent == old(r.sent) + ["AT+AFI=" + checked.value + "\r"]))
  {
    var checked := CheckedHex(afi, "AFI");
    if checked.Err? {
      return Raise(checked.error);
    }
    AT.PrepareCommandOne("AT+AFI", checked.value);
    assert AT.PrepareCommand("AT+AFI", [AT.PStr(checked.value)]) + "\r" == "AT+AFI=" + checked.value + "\r";
    var reply := Command(r, "AT+AFI", [AT.PStr(checked.value)], replies);
    res := U.OutcomeOf(reply);
  }

  /** `write_tag_afi(afi, option_flag)` (`AT+WAFI`) and `write_tag_dsfid(dsfid, option_flag)`
      (`AT+WDSFID`): the value after the check, then the option flag as 0/1. */
  method WriteTagValue(r: Reader, command: string, what: string, value: HexArg, optionFlag: bool, replies: seq<string>)
    returns (res: Outcome)
    requires (command == "AT+WAFI" && what == "AFI") || (command == "AT+WDSFID" && what == "DSFID")
    modifies r`receiveBuffer, r`sent
    ensures var checked := CheckedHex(value, what);
      (checked.Err? ==> res == Raise(checked.error) && r.sent == old(r.sent))
      && (checked.Ok? ==>
            var params := [AT.PStr(checked.value), AT.BoolParam(optionFlag)];
            res == U.OutcomeOf(old(Reply(r, command, params, replies)))
            && (old(r.connected) ==> r.sent == old(r.sent) + [AT.PrepareCommand(command, params) + "\r"]))
  {
    var checked := CheckedHex(value, what);
    if checked.Err? {
      return Raise(checked.error);
    }
    var reply := Command(r, command, [AT.PStr(checked.value), AT.BoolParam(optionFlag)], replies);
    res := U.OutcomeOf(reply);
  }

  // ------------------------------------------------------------ reading blocks

  /** The reply lines of `AT+READM`, each from offset 8, concatenated in order. */
  function Concatenated(lines: seq<string>, offset: nat): string
    decreases |lines|
  {
    if |lines| == 0 then "" else From(lines[0], offset) + Concatenated(lines[1..], offset)
  }

  /** The texts of `parts` one after another. */
  function Flat(parts: seq<string>): string
    decreases |parts|
  {
    if |parts| == 0 then "" else parts[0] + Flat(parts[1..])
  }

  /** `read_data(block, number_of_blocks)`'s result from the reply lines: more than one block
      concatenates every line from offset 8, one block is the first line from offset 7. */
  function ReadDataOf(numberOfBlocks: int, lines: seq<string>): Result<string>
  {
    if numberOfBlocks > 1 then Ok(Concatenated(lines, 8)) else First(lines, 7)
  }

  lemma ConcatenatedStep(lines: seq<string>, i: nat, offset: nat)
    requires i < |lines|
    ensures Concatenated(lines[i..], offset) == From(lines[i], offset) + Concatenated(lines[i + 1..], offset)
  {
    assert lines[i..][1..] == lines[i + 1..];
  }

  /** One `+READM: ` line per block: the data read is the blocks' data in order. */
  lemma {:induction false} ReadBlocksInOrder(blocks: seq<string>)
    ensures Concatenated(seq(|blocks|, k requires 0 <= k < |blocks| => "+READM: " + blocks[k]), 8) == Flat(blocks)
    decreases |blocks|
  {
    var lines := seq(|blocks|, k requires 0 <= k < |blocks| => "+READM: " + blocks[k]);
    if |blocks| > 0 {
      ReadBlocksInOrder(blocks[1..]);
      assert lines[1..] == seq(|blocks[1..]|, k requires 0 <= k < |blocks[1..]| => "+READM: " + blocks[1..][k]);
      assert From(lines[0], 8) == blocks[0];
    }
  }

  /** The concatenating loop of `read_data`. */
  method ConcatenateLines(lines: seq<string>) returns (data: string)
    ensures data == Concatenated(lines, 8)
  {
    data := "";
    var i := 0;
    assert lines[0..] == lines;
    while i < |lines|
      invariant 0 <= i <= |lines|
      invariant Concatenated(lines, 8) == data + Concatenated(lines[i..], 8)
    {
      ConcatenatedStep(lines, i, 8);
      data := data + From(lines[i], 8);
      i := i + 1;
    }
    assert lines[i..] == [];
  }

  /** `read_data(block, number_of_blocks)`: `AT+READM=<block>,<n>` with the concatenating
      loop, or `AT+READ=<block>` for a single block. */
  method ReadData(r: Reader, block: int, numberOfBlocks: int, replies: seq<string>) returns (res: Result<string>)
    modifies r`receiveBuffer, r`sent
    ensures numberOfBlocks > 1 ==>
      var reply := old(Reply(r, "AT+READM", [AT.PInt(block), AT.PInt(numberOfBlocks)], replies));
      res == (if reply.Err? then Err(reply.error) else ReadDataOf(numberOfBlocks, reply.value))
      && r.sent == old(r.sent)
           + (if old(r.connected) then [AT.PrepareCommand("AT+READM", [AT.PInt(block), AT.PInt(numberOfBlocks)]) + "\r"] else [])
      && r.receiveBuffer == old(Unread(r, "AT+READM", [AT.PInt(block), AT.PInt(numberOfBlocks)], replies))
    ensures numberOfBlocks <= 1 ==>
      var reply := old(Reply(r, "AT+READ", [AT.PInt(block)], replies));
      res == (if reply.Err? then Err(reply.error) else ReadDataOf(numberOfBlocks, reply.value))
      && r.sent == old(r.sent) + (if old(r.connected) then [AT.PrepareCommand("AT+READ", [AT.PInt(block)]) + "\r"] else [])
      && r.receiveBuffer == old(Unread(r, "AT+READ", [AT.PInt(block)], replies))
  {
    if numberOfBlocks > 1 {
      var reply := Command(r, "AT+READM", [AT.PInt(block), AT.PInt(numberOfBlocks)], replies);
      if reply.Err? {
        return Err(reply.error);
      }
      var data := ConcatenateLines(reply.value);
      return Ok(data);
    }
    var reply := Command(r, "AT+READ", [AT.PInt(block)], replies);
    if reply.Err? {
      return Err(reply.error);
    }
    res := First(reply.value, 7);
  }

  // ------------------------------------------------------------ NTAG authentication

  /** `authenticate_ntag`'s result from the reply lines: the acknowledge from offset 9 of the
      first line, refused when a non-empty expected acknowledge differs. */
  function AckOf(lines: seq<string>, expected: string): Result<string>
  {
    match First(lines, 9)
    case Err(e) => Err(e)
    case Ok(ack) =>
      if expected != "" && expected != ack then Err(TransponderError("wrong acknowledge")) else Ok(ack)
  }

  /** The acknowledge of a `+NPAUTH: <ack>` answer is returned when nothing or exactly it was
      expected, and refused as a transponder error otherwise. */
  lemma AckChecked(ack: string, expected: string, more: seq<string>)
    ensures AckOf(["+NPAUTH: " + ack] + more, expected)
            == if expected == "" || expected == ack then Ok(ack) else Err(TransponderError("wrong acknowledge"))
  {
    assert (["+NPAUTH: " + ack] + more)[0] == "+NPAUTH: " + ack;
    assert From("+NPAUTH: " + ack, 9) == ack;
  }

  /** `authenticate_ntag(password, password_acknowledge)`: `AT+NPAUTH=<password>`. */
  method AuthenticateNtag(r: Reader, password: string, expected: string, replies: seq<string>) returns (res: Result<string>)
    modifies r`receiveBuffer, r`sent
    ensures var reply := old(Reply(r, "AT+NPAUTH", [AT.PStr(password)], replies));
      res == (if reply.Err? then Err(reply.error) else AckOf(reply.value, expected))
    ensures res.Ok? ==> expected == "" || res.value == expected
    ensures old(r.connected) ==> r.sent == old(r.sent) + ["AT+NPAUTH=" + password + "\r"]
  {
    AT.PrepareCommandOne("AT+NPAUTH", password);
    assert AT.PrepareCommand("AT+NPAUTH", [AT.PStr(password)]) + "\r" == "AT+NPAUTH=" + password + "\r";
    var reply := Command(r, "AT+NPAUTH", [AT.PStr(password)], replies);
    if reply.Err? {
      return Err(reply.error);
    }
    res := AckOf(reply.value, expected);
  }

  // ------------------------------------------------------------ tag-type detection

  /** One `+DTT: <tid>,<type>` line: an ISO15Tag for "ISO15", otherwise an ISO14ATag of that
      type, both with the current antenna. */
  function DetectedTag(info: seq<string>, timestamp: real, antenna: int): TagVal
    requires |info| >= 2
  {
    if info[1] == "ISO15" then Iso15TagOf(info[0], Some(timestamp), Some(antenna))
    else Iso14ATagOf(info[0], Some(timestamp), Some(antenna), tagType := Some(info[1]))
  }

  /** The loop of `detect_tag_types`: `<N…` lines are skipped; any other line (even another
      `<…` text) is read as a tag; a missing character or field raises IndexError. */
  function DetectedTags(lines: seq<string>, timestamp: real, antenna: int): Result<seq<TagVal>>
    decreases |lines|
  {
    if |lines| == 0 then Ok([])
    else
      var line := lines[0];
      if |line| <= 6 then Err(AT.IndexError)
      else if line[6] == '<' && |line| <= 7 then Err(AT.IndexError)
      else if line[6] == '<' && line[7] == 'N' then DetectedTags(lines[1..], timestamp, antenna)
      else
        var info := Split(line[6..], ',');
        if |info| < 2 then Err(AT.IndexError)
        else U.Prepend([DetectedTag(info, timestamp, antenna)], DetectedTags(lines[1..], timestamp, antenna))
  }

  /** A detected tag carries the tid and the type the line names ("ISO14A" for an empty
      type), and the antenna when it is not 0. */
  lemma DetectedLine(tid: string, tagType: string, timestamp: real, antenna: int)
    requires ',' !in tid && ',' !in tagType
    ensures var info := Split(tid + "," + tagType, ',');
      |info| == 2 &&
      var t := DetectedTag(info, timestamp, antenna);
      HfTid(t) == tid && TagType(t) == (if tagType == "" then "ISO14A" else tagType)
      && (t.kind == Iso15Kind <==> tagType == "ISO15")
      && (antenna != 0 ==> Antenna(t) == Some(antenna))
  {
    SplitPair(tid, tagType);
    DetectedTagFields(tid, tagType, timestamp, antenna);
  }

  lemma SplitPair(a: string, b: string)
    requires ',' !in a && ',' !in b
    ensures Split(a + "," + b, ',') == [a, b]
  {
    Text.SplitJoin([a, b], ',');
    assert Join([a, b], [',']) == a + "," + b by {
      assert [a, b][1..] == [b];
    }
  }

  lemma DetectedTagFields(tid: string, tagType: string, timestamp: real, antenna: int)
    ensures var t := DetectedTag([tid, tagType], timestamp, antenna);
      HfTid(t) == tid && TagType(t) == (if tagType == "" then "ISO14A" else tagType)
      && (t.kind == Iso15Kind <==> tagType == "ISO15")
      && (antenna != 0 ==> Antenna(t) == Some(antenna))
  {
    if tagType == "ISO15" {
      Iso15TagOfFields(tid, Some(timestamp), Some(antenna), 1, None);
      HfTagOfFields(Iso15Kind, tid, Some(timestamp), Some(antenna), 1);
    } else {
      Iso14ATagOfType(tid, Some(timestamp), Some(antenna), 1, None, None, Some(tagType));
      HfTagOfFields(Iso14AKind, tid, Some(timestamp), Some(antenna), 1);
    }
  }

  /** `detect_tag_types`: `AT+DTT` and the loop, with the current antenna (1 when unknown). */
  method DetectTagTypes(r: Reader, replies: seq<string>, timestamp: real) returns (res: Result<seq<TagVal>>)
    modifies r`receiveBuffer, r`sent
    ensures var reply := old(Reply(r, "AT+DTT", [], replies));
      var antenna := if old(r.antenna).Some? then old(r.antenna).value else 1;
      res == (if reply.Err? then Err(reply.error) else DetectedTags(reply.value, timestamp, antenna))
    ensures r.sent == old(r.sent) + (if old(r.connected) then ["AT+DTT\r"] else [])
      && r.receiveBuffer == old(Unread(r, "AT+DTT", [], replies))
  {
    assert AT.PrepareCommand("AT+DTT", []) + "\r" == "AT+DTT\r";
    var reply := Command(r, "AT+DTT", [], replies);
    if reply.Err? {
      return Err(reply.error);
    }
    var antenna := if r.antenna.Some? then r.antenna.value else 1;
    res := DetectLines(reply.value, timestamp, antenna);
  }

  lemma DetectedAppend(tags: seq<TagVal>, t: TagVal, rest: Result<seq<TagVal>>)
    ensures U.Prepend(tags, U.Prepend([t], rest)) == U.Prepend(tags + [t], rest)
  {
    if rest.Ok? {
      assert tags + ([t] + rest.value) == (tags + [t]) + rest.value;
    }
  }

  /** The loop of `detect_tag_types`. */
  method DetectLines(lines: seq<string>, timestamp: real, antenna: int) returns (res: Result<seq<TagVal>>)
    ensures res == DetectedTags(lines, timestamp, antenna)
  {
    var tags: seq<TagVal> := [];
    var i := 0;
    assert lines[0..] == lines;
    U.PrependEmpty(DetectedTags(lines, timestamp, antenna));
    while i < |lines|
      invariant 0 <= i <= |lines|
      invariant DetectedTags(lines, timestamp, antenna) == U.Prepend(tags, DetectedTags(lines[i..], timestamp, antenna))
    {
      assert lines[i..][1..] == lines[i + 1..];
      assert lines[i..][0] == lines[i];
      var line := lines[i];
      if |line| <= 6 || (line[6] == '<' && |line| <= 7) {
        return Err(AT.IndexError);
      }
      if !(line[6] == '<' && line[7] == 'N') {
        var info := Split(line[6..], ',');
        if |info| < 2 {
          return Err(AT.IndexError);
        }
        DetectedAppend(tags, DetectedTag(info, timestamp, antenna), DetectedTags(lines[i + 1..], timestamp, antenna));
        tags := tags + [DetectedTag(info, timestamp, antenna)];
      }
      i := i + 1;
    }
    assert lines[i..] == [];
    assert tags + [] == tags;
    res := Ok(tags);
  }

  // ------------------------------------------------------------ the inventory parser

  /** Everything a parse depends on besides the lines and the error map. */
  datatype NfcOptions = NfcOptions(split: nat, ignoreErrors: bool, tagDetails: bool, mode: Mode, timestamp: real)

  /** The tag without details: an object of the current mode's class. */
  function ModeTag(mode: Mode, tid: string, timestamp: real): TagVal
  {
    match mode
    case Auto => HfTagOf(HfKind, tid, Some(timestamp))
    case Iso15 => Iso15TagOf(tid, Some(timestamp))
    case Iso14A => Iso14ATagOf(tid, Some(timestamp))
  }

  const UnboundTag := Fault("UnboundLocalError: new_tag")

  /** The tag of one line's fields. With details, AUTO mode takes the type from field 1 and
      drops it; ISO15 reads the DSFID, ISO14A the SAK and ATQA from the following fields. A
      missing field skips the line (`None`); an unknown type raises KeyError; a type "AUTO"
      leaves the previous line's tag in place (`last`) and raises when there is none. */
  function NfcTagOf(info: seq<string>, o: NfcOptions, last: Option<TagVal>): Result<Option<TagVal>>
    requires |info| >= 1
  {
    if !o.tagDetails then Ok(Some(ModeTag(o.mode, info[0], o.timestamp)))
    else if o.mode == Auto && |info| < 2 then Ok(None)
    else if o.mode == Auto && ModeNamed(info[1]).None? then Err(KeyError(info[1]))
    else
      var t := if o.mode == Auto then ModeNamed(info[1]).value else o.mode;
      var rest := if o.mode == Auto then [info[0]] + info[2..] else info;
      match t
      case Iso15 => if |rest| < 2 then Ok(None) else Ok(Some(Iso15TagOf(rest[0], Some(o.timestamp), dsfid := Some(rest[1]))))
      case Iso14A =>
        if |rest| < 3 then Ok(None)
        else Ok(Some(Iso14ATagOf(rest[0], Some(o.timestamp), sak := Some(rest[1]), atqa := Some(rest[2]))))
      case Auto => if last.Some? then Ok(last) else Err(UnboundTag)
  }

  /** What the parser has collected: the tags, the last round antenna, the last error text
      and the last tag built. */
  datatype NfcScan = NfcScan(tags: seq<TagVal>, antenna: Option<int>, error: Option<string>, last: Option<TagVal>)

  const Begin := NfcScan([], None, None, None)

  /** One line of the loop of `_parse_inventory`, with the marker rules of the UHF AT parser
      (the round marker read only from a line longer than split_index + 16). */
  function NfcStep(line: string, st: NfcScan, o: NfcOptions): Result<NfcScan>
  {
    if |line| == 0 then Err(AT.IndexError)
    else if line[0] != '+' then Ok(st)
    else if |line| <= o.split then Err(AT.IndexError)
    else if line[o.split] == '<' then
      if |line| <= o.split + 1 then Err(AT.IndexError)
      else if line[o.split + 1] == 'N' then Ok(st)
      else if line[o.split + 1] == 'R' then
        if |line| <= o.split + 16 then Ok(st)
        else match Text.Int(Slice(line, -2, -1))
          case None => Ok(st)
          case Some(a) => Ok(st.(antenna := Some(a)))
      else if o.ignoreErrors then Ok(st)
      else Ok(st.(error := Some(Slice(line, o.split + 1, -1))))
    else
      match NfcTagOf(Split(line[o.split..], ','), o, st.last)
      case Err(e) => Err(e)
      case Ok(None) => Ok(st)
      case Ok(Some(t)) => Ok(st.(tags := st.tags + [t], last := Some(t)))
  }

  function NfcScanned(lines: seq<string>, st: NfcScan, o: NfcOptions): Result<NfcScan>
    decreases |lines|
  {
    if |lines| == 0 then Ok(st)
    else match NfcStep(lines[0], st, o)
      case Err(e) => Err(e)
      case Ok(next) => NfcScanned(lines[1..], next, o)
  }

  /** `_parse_inventory(responses, timestamp, split_index)`: `config['inventory']` must exist;
      the loop; then the error and antenna handling of the UHF parsers. */
  function NfcInventory(lines: seq<string>, config: Option<InventoryConfig>, split: nat, ignoreErrors: bool,
                        mode: Mode, timestamp: real, errors: Option<map<string, string>>): U.Parsed
  {
    if config.None? then U.Parsed(Err(KeyError("inventory")), errors)
    else
      var o := NfcOptions(split, ignoreErrors, config.value.tagDetails, mode, timestamp);
      match NfcScanned(lines, Begin, o)
      case Err(e) => U.Parsed(Err(e), errors)
      case Ok(st) => U.Finish(U.Scan(st.tags, st.antenna, st.error), errors)
  }

  /** The parse `n` runs. */
  function InventoryOf(n: NfcReader, lines: seq<string>, split: nat, timestamp: real): U.Parsed
    reads n, n.reader
  {
    NfcInventory(lines, n.config, split, n.reader.ignoreErrors, n.mode, timestamp, n.reader.errors)
  }

  /** `_parse_inventory` on the reader. */
  method ParseInventory(n: NfcReader, responses: seq<string>, timestamp: real, split: nat) returns (res: Result<seq<TagVal>>)
    modifies n.reader`errors
    ensures U.Parsed(res, n.reader.errors) == old(InventoryOf(n, responses, split, timestamp))
  {
    if n.config.None? {
      return Err(KeyError("inventory"));
    }
    var o := NfcOptions(split, n.reader.ignoreErrors, n.config.value.tagDetails, n.mode, timestamp);
    var st := Begin;
    var i := 0;
    assert responses[0..] == responses;
    while i < |responses|
      invariant 0 <= i <= |responses|
      invariant NfcScanned(responses, Begin, o) == NfcScanned(responses[i..], st, o)
      invariant n.reader.errors == old(n.reader.errors)
    {
      assert responses[i..][1..] == responses[i + 1..];
      var next := NfcStep(responses[i], st, o);
      if next.Err? {
        return Err(next.error);
      }
      st := next.value;
      i := i + 1;
    }
    assert responses[i..] == [];
    if st.error.Some? && st.error.value != "" {
      n.reader.errors := Some(AT.ErrorsWith(n.reader.errors, U.ErrorKey(st.antenna), st.error.value));
      return Err(ReaderError(U.ErrorText(st.error.value, st.antenna)));
    }
    var tags := st.tags;
    if U.AntennaSet(st.antenna) {
      for k := 0 to |tags|
        invariant |tags| == |st.tags|
        invariant forall j :: 0 <= j < k ==> tags[j] == Set(st.tags[j], "antenna", Some(Int(st.antenna.value)))
        invariant forall j :: k <= j < |tags| ==> tags[j] == st.tags[j]
      {
        tags := tags[k := Set(tags[k], "antenna", Some(Int(st.antenna.value)))];
      }
      assert tags == U.Stamp(st.tags, st.antenna);
    }
    return Ok(tags);
  }

  // ------------------------------------------------------------ properties of the parser

  /** A line that starts with '+', reaches the fields and is not a marker. */
  predicate TagLine(line: string, split: nat)
  {
    |line| > split && line[0] == '+' && line[split] != '<'
  }

  /** Field 0 of a tag line. */
  function FirstField(line: string, split: nat): string
  {
    if |line| > split then Split(line[split..], ',')[0] else ""
  }

  /** The tags that plain tag lines give, in order. */
  function PlainTags(lines: seq<string>, o: NfcOptions): (r: seq<TagVal>)
    ensures |r| == |lines|
    ensures forall k :: 0 <= k < |lines| ==> r[k] == ModeTag(o.mode, FirstField(lines[k], o.split), o.timestamp)
  {
    seq(|lines|, k requires 0 <= k < |lines| => ModeTag(o.mode, FirstField(lines[k], o.split), o.timestamp))
  }

  lemma PlainTagsCons(lines: seq<string>, o: NfcOptions)
    requires |lines| >= 1
    ensures PlainTags(lines, o) == [ModeTag(o.mode, FirstField(lines[0], o.split), o.timestamp)] + PlainTags(lines[1..], o)
  {
    var a := [ModeTag(o.mode, FirstField(lines[0], o.split), o.timestamp)] + PlainTags(lines[1..], o);
    forall k | 0 <= k < |lines|
      ensures a[k] == PlainTags(lines, o)[k]
    {
      if k > 0 {
        assert lines[1..][k - 1] == lines[k];
      }
    }
  }

  /** Without details a tag line adds its tag and remembers it as the last one. */
  lemma PlainStep(line: string, st: NfcScan, o: NfcOptions)
    requires !o.tagDetails && TagLine(line, o.split)
    ensures var t := ModeTag(o.mode, FirstField(line, o.split), o.timestamp);
      NfcStep(line, st, o) == Ok(st.(tags := st.tags + [t], last := Some(t)))
  {
  }

  /** Without details, every tag line gives a tag of the mode's class, identified by its
      field 0, whatever else the line holds. */
  lemma {:induction false} PlainLinesScan(lines: seq<string>, st: NfcScan, o: NfcOptions)
    requires !o.tagDetails
    requires forall k :: 0 <= k < |lines| ==> TagLine(lines[k], o.split)
    ensures NfcScanned(lines, st, o).Ok?
    ensures var r := NfcScanned(lines, st, o).value;
      r.antenna == st.antenna && r.error == st.error
      && r.tags == st.tags + seq(|lines|, k requires 0 <= k < |lines| => ModeTag(o.mode, FirstField(lines[k], o.split), o.timestamp))
    decreases |lines|
  {
    assert seq(|lines|, k requires 0 <= k < |lines| => ModeTag(o.mode, FirstField(lines[k], o.split), o.timestamp))
      == PlainTags(lines, o);
    if |lines| == 0 {
      assert st.tags + PlainTags(lines, o) == st.tags;
    } else {
      var t := ModeTag(o.mode, FirstField(lines[0], o.split), o.timestamp);
      var next := st.(tags := st.tags + [t], last := Some(t));
      PlainStep(lines[0], st, o);
      assert forall k :: 0 <= k < |lines[1..]| ==> TagLine(lines[1..][k], o.split) by {
        forall k | 0 <= k < |lines[1..]| ensures TagLine(lines[1..][k], o.split) {
          assert lines[1..][k] == lines[k + 1];
        }
      }
      PlainLinesScan(lines[1..], next, o);
      assert seq(|lines[1..]|, k requires 0 <= k < |lines[1..]| => ModeTag(o.mode, FirstField(lines[1..][k], o.split), o.timestamp))
        == PlainTags(lines[1..], o);
      PlainTagsCons(lines, o);
      ConcatAssoc(st.tags, [t], PlainTags(lines[1..], o));
    }
  }

  /** A plain tag of any mode answers its field 0 as tid, and "unknown" as id when it is
      empty. */
  lemma ModeTagFields(mode: Mode, f: string, timestamp: real)
    ensures HfTid(ModeTag(mode, f, timestamp)) == f && Id(ModeTag(mode, f, timestamp)) == (if f == "" then "unknown" else f)
  {
    match mode
    case Auto => HfTagOfFields(HfKind, f, Some(timestamp), None, 1);
    case Iso15 => HfTagOfFields(Iso15Kind, f, Some(timestamp), None, 1);
    case Iso14A => HfTagOfFields(Iso14AKind, f, Some(timestamp), None, 1);
  }

  /** N tag lines without markers and without details give N tags in input order: their ids
      are the lines' field 0 (or "unknown" for an empty one) and their class is the mode's. */
  lemma PlainInventoryInOrder(lines: seq<string>, config: InventoryConfig, split: nat, ignoreErrors: bool,
                              mode: Mode, timestamp: real, errors: Option<map<string, string>>)
    requires !config.tagDetails
    requires forall k :: 0 <= k < |lines| ==> TagLine(lines[k], split)
    ensures var p := NfcInventory(lines, Some(config), split, ignoreErrors, mode, timestamp, errors);
      p.errors == errors && p.result.Ok? && |p.result.value| == |lines|
      && forall k :: 0 <= k < |lines| ==>
           var f := FirstField(lines[k], split);
           p.result.value[k] == ModeTag(mode, f, timestamp)
           && HfTid(p.result.value[k]) == f && Id(p.result.value[k]) == (if f == "" then "unknown" else f)
  {
    var o := NfcOptions(split, ignoreErrors, config.tagDetails, mode, timestamp);
    PlainLinesScan(lines, Begin, o);
    assert seq(|lines|, k requires 0 <= k < |lines| => ModeTag(o.mode, FirstField(lines[k], o.split), o.timestamp))
      == PlainTags(lines, o);
    var st := NfcScanned(lines, Begin, o).value;
    assert st.tags == PlainTags(lines, o) && st.antenna.None? && st.error.None?;
    assert NfcInventory(lines, Some(config), split, ignoreErrors, mode, timestamp, errors)
      == U.Parsed(Ok(PlainTags(lines, o)), errors);
    forall k | 0 <= k < |lines|
      ensures var f := FirstField(lines[k], split);
        HfTid(ModeTag(mode, f, timestamp)) == f && Id(ModeTag(mode, f, timestamp)) == (if f == "" then "unknown" else f)
    {
      ModeTagFields(mode, FirstField(lines[k], split), timestamp);
    }
  }

  /** With details in AUTO mode, field 1 names the class; an unknown name raises KeyError. */
  lemma AutoUnknownType(info: seq<string>, o: NfcOptions, last: Option<TagVal>)
    requires o.tagDetails && o.mode == Auto && |info| >= 2 && ModeNamed(info[1]).None?
    ensures NfcTagOf(info, o, last) == Err(KeyError(info[1]))
  {
  }

  /** An ISO15 line in AUTO mode reads the DSFID from field 2, and is skipped without it. */
  lemma AutoIso15(info: seq<string>, o: NfcOptions, last: Option<TagVal>)
    requires o.tagDetails && o.mode == Auto && |info| >= 2 && info[1] == "ISO15"
    ensures NfcTagOf(info, o, last) ==
      if |info| >= 3 then Ok(Some(Iso15TagOf(info[0], Some(o.timestamp), dsfid := Some(info[2])))) else Ok(None)
  {
    var rest := [info[0]] + info[2..];
    assert ModeNamed(info[1]) == Some(Iso15);
    assert |rest| == |info| - 1;
    assert |info| >= 3 ==> rest[0] == info[0] && rest[1] == info[2];
  }

  /** An ISO14A line in AUTO mode reads the SAK and ATQA from fields 2 and 3, and is skipped
      without them. */
  lemma AutoIso14A(info: seq<string>, o: NfcOptions, last: Option<TagVal>)
    requires o.tagDetails && o.mode == Auto && |info| >= 2 && info[1] == "ISO14A"
    ensures NfcTagOf(info, o, last) ==
      if |info| >= 4 then Ok(Some(Iso14ATagOf(info[0], Some(o.timestamp), sak := Some(info[2]), atqa := Some(info[3]))))
      else Ok(None)
  {
    var rest := [info[0]] + info[2..];
    assert ModeNamed(info[1]) == Some(Iso14A);
    assert |rest| == |info| - 1;
    if |info| >= 4 {
      assert rest[0] == info[0] && rest[1] == info[2] && rest[2] == info[3];
      assert NfcTagOf(info, o, last) == Ok(Some(Iso14ATagOf(rest[0], Some(o.timestamp), sak := Some(rest[1]), atqa := Some(rest[2]))));
    }
  }

  /** With details in a fixed mode, the fields follow the tid directly: the DSFID (ISO15),
      or the SAK and ATQA (ISO14A). */
  lemma FixedModeDetails(info: seq<string>, o: NfcOptions, last: Option<TagVal>)
    requires o.tagDetails && |info| >= 1
    ensures o.mode == Iso15 ==>
      NfcTagOf(info, o, last) == if |info| >= 2 then Ok(Some(Iso15TagOf(info[0], Some(o.timestamp), dsfid := Some(info[1])))) else Ok(None)
    ensures o.mode == Iso14A ==>
      NfcTagOf(info, o, last) == if |info| >= 3 then Ok(Some(Iso14ATagOf(info[0], Some(o.timestamp), sak := Some(info[1]), atqa := Some(info[2])))) else Ok(None)
  {
  }

  /** A type field "AUTO" repeats the previous line's tag, and raises on the first tag line. */
  lemma AutoTypeRepeats(info: seq<string>, o: NfcOptions, last: Option<TagVal>)
    requires o.tagDetails && o.mode == Auto && |info| >= 2 && info[1] == "AUTO"
    ensures NfcTagOf(info, o, last) == if last.Some? then Ok(last) else Err(UnboundTag)
  {
  }

  /** An error marker is stored under 'message' and raised, unless errors are ignored; a
      no-tags marker changes nothing. */
  lemma ErrorMarker(line: string, config: InventoryConfig, split: nat, ignoreErrors: bool, mode: Mode,
                    timestamp: real, errors: Option<map<string, string>>)
    requires |line| > split + 2 && line[0] == '+' && line[split] == '<'
    requires line[split + 1] != 'N' && line[split + 1] != 'R'
    ensures var text := line[split + 1 .. |line| - 1];
      var p := NfcInventory([line], Some(config), split, ignoreErrors, mode, timestamp, errors);
      (!ignoreErrors ==> p == U.Parsed(Err(ReaderError(text)), Some(AT.ErrorsWith(errors, "message", text))))
      && (ignoreErrors ==> p == U.Parsed(Ok([]), errors))
  {
    var o := NfcOptions(split, ignoreErrors, config.tagDetails, mode, timestamp);
    var text := line[split + 1 .. |line| - 1];
    assert Slice(line, split + 1, -1) == text;
    var st := if ignoreErrors then Begin else Begin.(error := Some(text));
    assert NfcStep(line, Begin, o) == Ok(st);
    assert [line][0] == line && [line][1..] == [];
    assert NfcScanned([line], Begin, o) == Ok(st);
    assert |text| > 0;
    assert U.ErrorText(text, None) == text;
    assert U.ErrorKey(None) == "message";
  }

  /** A `<NO TAGS FOUND>` line adds nothing and raises nothing. */
  lemma NoTagsMarker(line: string, st: NfcScan, o: NfcOptions)
    requires |line| > o.split + 1 && line[0] == '+' && line[o.split] == '<' && line[o.split + 1] == 'N'
    ensures NfcStep(line, st, o) == Ok(st)
  {
  }

  // ------------------------------------------------------------ pushed inventory lines

  /** `_handle_inventory_events(msg, timestamp)`: the lines of a pushed `+CINV` message parsed
      from offset 7 and handed to the inventory callback or map (continuous); a reader
      exception becomes a WARNING unless an antenna error is shown; other errors are raised. */
  method HandleInventoryEvents(n: NfcReader, msg: string, timestamp: real, now: real) returns (res: Outcome)
    modifies n.reader`errors, n.reader`events, n.reader`inventory, n.reader.base`info, n.reader.base`notices
    ensures var parsed := old(InventoryOf(n, Split(msg, '\r'), 7, timestamp));
      var warn := parsed.result.Err? && IsReaderException(parsed.result.error)
                  && !AT.AntennaErrorShown(old(n.reader.base.info));
      n.reader.errors == parsed.errors
      && res == (if parsed.result.Err? && !IsReaderException(parsed.result.error) then Raise(parsed.result.error) else Done)
      && (parsed.result.Ok? ==>
            n.reader.events == old(n.reader.events) + InventoryEvents(n.reader.cbInventory, n.reader.fireEmptyInventories, parsed.result.value)
            && n.reader.inventory == InventoryAfterFire(old(n.reader.inventory), n.reader.cbInventory, parsed.result.value, true))
      && (parsed.result.Err? ==> n.reader.events == old(n.reader.events) && n.reader.inventory == old(n.reader.inventory))
      && n.reader.base.info == (if warn then Updated(old(n.reader.base.info), WARNING, parsed.result.error.msg, None, now)
                                else old(n.reader.base.info))
      && n.reader.base.notices == old(n.reader.base.notices) +
           (if warn then Notices(old(n.reader.base.info), WARNING, parsed.result.error.msg, None, now, n.reader.base.cbStatus) else [])
  {
    var result := ParseInventory(n, Split(msg, '\r'), timestamp, 7);
    if result.Ok? {
      n.reader.FireInventoryEvent(result.value, true);
      return Done;
    }
    if !IsReaderException(result.error) {
      return Raise(result.error);
    }
    if n.reader.base.info.status == WARNING && Contains(Lower(n.reader.base.info.message), "antenna error") {
      return Done;
    }
    n.reader.base.UpdateStatus(WARNING, result.error.msg, None, now);
    res := Done;
  }
}
