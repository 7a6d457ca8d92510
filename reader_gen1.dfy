/** The legacy engine: space-separated commands ending in a carriage return, one reply line
    per command, and a BRK/WAK/COF handshake that brings the device out of continuous mode
    or sleep before it is configured. */
module ReaderGen1 {
  import opened Results
  import opened Text
  import opened Readers
  import AT = ReaderAt

  // ------------------------------------------------------------ command formatting

  /** `_prepare_command`: the command and a carriage return, or the command, a space, the
      present parameters separated by spaces and a carriage return. */
  function PrepareCommand(command: string, params: seq<AT.Param>): string
  {
    if |params| == 0 then command + "\r" else command + " " + Join(AT.Present(params), " ") + "\r"
  }

  /** The command line splits at the spaces into the command and its present parameters. */
  lemma PrepareCommandParse(command: string, params: seq<AT.Param>)
    requires ' ' !in command && |AT.Present(params)| >= 1
    requires forall k :: 0 <= k < |AT.Present(params)| ==> ' ' !in AT.Present(params)[k]
    ensures var r := PrepareCommand(command, params);
      |r| >= 1 && r[|r| - 1] == '\r' && Split(r[..|r| - 1], ' ') == [command] + AT.Present(params)
  {
    var p := AT.Present(params);
    assert |params| >= 1;
    var parts := [command] + p;
    assert parts[0] == command && parts[1..] == p;
    assert Join(parts, " ") == command + " " + Join(p, " ");
    var r := PrepareCommand(command, params);
    assert r[..|r| - 1] == Join(parts, [' ']);
    SplitJoin(parts, ' ');
  }

  /** Parameters that are all `None` still produce the separating space. */
  lemma PrepareCommandAllNone(command: string)
    ensures PrepareCommand(command, [AT.PNone, AT.PNone]) == command + " \r"
    ensures PrepareCommand(command, []) == command + "\r"
  {
    assert [AT.PNone, AT.PNone][..1] == [AT.PNone];
    assert [AT.PNone][..0] == [];
  }

  // ------------------------------------------------------------ configuration-time lines

  /** The line without one trailing carriage return. */
  function StripCr(data: string): string
  {
    if |data| > 0 && data[|data| - 1] == '\r' then data[..|data| - 1] else data
  }

  /** `_data_received_config`: empty input is ignored, one trailing carriage return is
      removed, `H?T` heartbeats are dropped and the rest is queued. A line that is empty or
      shorter than three characters after an `H` fails to index. */
  function ClassifyConfig(data: string): AT.Action
  {
    if data == "" then AT.Drop
    else
      var d := StripCr(data);
      if |d| == 0 then AT.Crash(AT.IndexError)
      else if d[0] == 'H' then
        if |d| < 3 then AT.Crash(AT.IndexError)
        else if d[2] == 'T' then AT.Drop
        else AT.Enqueue(d)
      else AT.Enqueue(d)
  }

  /** What is queued is the line without one carriage return; heartbeats are dropped and any
      line not starting with `H` is queued. */
  lemma ClassifyConfigQueues(data: string)
    ensures ClassifyConfig(data).Enqueue? ==>
      ClassifyConfig(data).msg == StripCr(data) && (StripCr(data) == data || StripCr(data) + "\r" == data)
    ensures StripCr(data) != "" && StripCr(data)[0] != 'H' ==> ClassifyConfig(data) == AT.Enqueue(StripCr(data))
    ensures ClassifyConfig("HBT\r") == AT.Drop && ClassifyConfig("HBT") == AT.Drop
    ensures ClassifyConfig("OK!\r\r") == AT.Enqueue("OK!\r")
  {
    assert StripCr("HBT\r") == "HBT";
    assert StripCr("OK!\r\r") == "OK!\r";
    if |data| > 0 && data[|data| - 1] == '\r' {
      assert data[..|data| - 1] + "\r" == data;
    }
  }

  /** `_data_received_config` applied to the reader. */
  method DataReceivedConfig(r: Reader, data: string) returns (a: AT.Action)
    modifies r`receiveBuffer
    ensures a == ClassifyConfig(data)
    ensures r.receiveBuffer == old(r.receiveBuffer) + (if a.Enqueue? then [a.msg] else [])
  {
    a := ClassifyConfig(data);
    if a.Enqueue? {
      r.AddDataToReceiveBuffer(a.msg);
    }
  }

  // ------------------------------------------------------------ one command, one reply

  /** `str(x)` of a parameter; a missing one prints as "None". */
  function ParamWord(p: AT.Param): string
  {
    match p
    case PStr(s) => s
    case PInt(i) => IntToString(i)
    case PNone => "None"
  }

  predicate TruthyParam(p: AT.Param)
  {
    match p
    case PStr(s) => s != ""
    case PInt(i) => i != 0
    case PNone => false
  }

  /** Every parameter's text, for the timeout message. */
  function AllWords(params: seq<AT.Param>): seq<string>
    decreases |params|
  {
    if |params| == 0 then [] else AllWords(params[..|params| - 1]) + [ParamWord(params[|params| - 1])]
  }

  /** The texts of the truthy parameters, for the error message of `_set_command`. */
  function TruthyWords(params: seq<AT.Param>): (r: seq<string>)
    ensures |r| <= |params|
    decreases |params|
  {
    if |params| == 0 then []
    else
      var last := params[|params| - 1];
      TruthyWords(params[..|params| - 1]) + (if TruthyParam(last) then [ParamWord(last)] else [])
  }

  /** The error text lists no empty word: falsy parameters are left out. */
  lemma {:induction false} TruthyWordsNonEmpty(params: seq<AT.Param>)
    ensures forall k :: 0 <= k < |TruthyWords(params)| ==> TruthyWords(params)[k] != ""
    decreases |params|
  {
    if |params| > 0 {
      TruthyWordsNonEmpty(params[..|params| - 1]);
      var last := params[|params| - 1];
      if last.PInt? {
        assert Int(IntToString(last.i)) == Some(last.i);
      }
    }
  }

  function TimeoutText(command: string, params: seq<AT.Param>): string
  {
    "no reader response for command " + command + " " + Join(AllWords(params), " ")
  }

  /** One read from the queue: the oldest line and the rest, or the timeout. */
  function Exchange(queue: seq<string>, timeoutText: string): (Result<string>, seq<string>)
  {
    if |queue| == 0 then (Err(Timeout(timeoutText)), []) else (Ok(queue[0]), queue[1..])
  }

  /** `_send_recv_command`: the command is sent and the oldest queued line is the answer.
      The queue is not cleared first, so a stale line is taken for the answer. */
  method SendRecvCommand(r: Reader, command: string, params: seq<AT.Param>, replies: seq<string>)
    returns (res: Result<string>)
    modifies r`receiveBuffer, r`sent
    ensures var e := Exchange(old(r.receiveBuffer) + replies, TimeoutText(command, params));
      old(r.connected) ==> r.sent == old(r.sent) + [PrepareCommand(command, params)] && res == e.0 && r.receiveBuffer == e.1
    ensures !old(r.connected) ==>
      res == Err(ReaderError("Not connected")) && r.sent == old(r.sent) && r.receiveBuffer == old(r.receiveBuffer)
  {
    var s := r.Send(PrepareCommand(command, params));
    if s.Raise? {
      return Err(s.error);
    }
    r.receiveBuffer := r.receiveBuffer + replies;
    var line := r.Recv();
    if line.Err? {
      return Err(Timeout(TimeoutText(command, params)));
    }
    return line;
  }

  /** `_set_command`'s verdict on the answer: success iff it contains "OK". */
  function SetReply(reply: Result<string>, command: string, params: seq<AT.Param>): Outcome
  {
    if reply.Err? then Raise(reply.error)
    else if Contains(reply.value, "OK") then Done
    else Raise(ReaderError(reply.value + " - (" + command + " " + Join(TruthyWords(params), " ") + ")"))
  }

  /** A refusal names the command and only its truthy parameters. */
  lemma SetReplyNamesTruthyParams()
    ensures SetReply(Ok("NOS"), "SAP", [AT.PStr("MAN"), AT.PInt(0)]) == Raise(ReaderError("NOS - (SAP MAN)"))
    ensures SetReply(Ok("OK!"), "SAP", []) == Done
  {
    var ps := [AT.PStr("MAN"), AT.PInt(0)];
    assert ps[..1] == [AT.PStr("MAN")];
    assert [AT.PStr("MAN")][..0] == [];
    assert TruthyWords(ps) == ["MAN"];
    assert Join(["MAN"], " ") == "MAN";
    assert "NOS" + " - (" + "SAP" + " " + "MAN" + ")" == "NOS - (SAP MAN)";
    assert OccursAt("OK!", "OK", 0);
    NotContainsChar("NOS", "OK", 1);
  }

  method SetCommand(r: Reader, command: string, params: seq<AT.Param>, replies: seq<string>) returns (res: Outcome)
    modifies r`receiveBuffer, r`sent
    ensures var e := Exchange(old(r.receiveBuffer) + replies, TimeoutText(command, params));
      old(r.connected) ==>
        r.sent == old(r.sent) + [PrepareCommand(command, params)]
        && res == SetReply(e.0, command, params) && r.receiveBuffer == e.1
    ensures !old(r.connected) ==>
      res == Raise(ReaderError("Not connected")) && r.sent == old(r.sent) && r.receiveBuffer == old(r.receiveBuffer)
  {
    var reply := SendRecvCommand(r, command, params, replies);
    res := SetReply(reply, command, params);
  }

  // ------------------------------------------------------------ queries

  /** `get_input`'s reading of the answer: HI (checked first) is high, LOW is low. */
  function InputLevel(response: string): Result<bool>
  {
    if Contains(response, "HI") then Ok(true)
    else if Contains(response, "LOW") then Ok(false)
    else Err(ReaderError("get input error - " + response))
  }

  lemma InputLevels()
    ensures InputLevel("HI") == Ok(true) && InputLevel("LOW") == Ok(false)
    ensures InputLevel("NOS") == Err(ReaderError("get input error - NOS"))
  {
    assert OccursAt("HI", "HI", 0);
    assert OccursAt("LOW", "LOW", 0);
    NotContainsChar("LOW", "HI", 0);
    NotContainsChar("NOS", "HI", 0);
    NotContainsChar("NOS", "LOW", 0);
    assert "get input error - " + "NOS" == "get input error - NOS";
  }

  method GetInput(r: Reader, pin: int, replies: seq<string>) returns (res: Result<bool>)
    modifies r`receiveBuffer, r`sent
    ensures var e := Exchange(old(r.receiveBuffer) + replies, TimeoutText("RIP", [AT.PInt(pin)]));
      old(r.connected) ==>
        r.sent == old(r.sent) + [PrepareCommand("RIP", [AT.PInt(pin)])]
        && res == (if e.0.Err? then Err(e.0.error) else InputLevel(e.0.value)) && r.receiveBuffer == e.1
    ensures !old(r.connected) ==>
      res == Err(ReaderError("Not connected")) && r.sent == old(r.sent) && r.receiveBuffer == old(r.receiveBuffer)
  {
    var reply := SendRecvCommand(r, "RIP", [AT.PInt(pin)], replies);
    if reply.Err? {
      return Err(reply.error);
    }
    res := InputLevel(reply.value);
  }

  /** `stop_inventory`: the answer must report an interrupted (BRA) or absent (NCM)
      continuous mode. */
  function StopReply(reply: Result<string>): Outcome
  {
    if reply.Err? then Raise(reply.error)
    else if Contains(reply.value, "BRA") || Contains(reply.value, "NCM") then Done
    else Raise(ReaderError("Inventory not stopped - (" + reply.value + ")"))
  }

  method StopInventory(r: Reader, replies: seq<string>) returns (res: Outcome)
    modifies r`receiveBuffer, r`sent
    ensures var e := Exchange(old(r.receiveBuffer) + replies, TimeoutText("BRK", []));
      old(r.connected) ==> r.sent == old(r.sent) + ["BRK\r"] && res == StopReply(e.0) && r.receiveBuffer == e.1
    ensures !old(r.connected) ==>
      res == Raise(ReaderError("Not connected")) && r.sent == old(r.sent) && r.receiveBuffer == old(r.receiveBuffer)
  {
    assert PrepareCommand("BRK", []) == "BRK\r";
    var reply := SendRecvCommand(r, "BRK", [], replies);
    res := StopReply(reply);
  }

  /** The identity from the HWR answer and the second answer (RFW, or REV for a UCO
      device): a name before the last five characters and a version in the four before the
      last; a REV answer holds name, hardware version and firmware version in its last
      eight characters. */
  function Identity(hwr: string, second: string): ReaderInfo
  {
    if !Contains(hwr, "UCO") then
      ReaderInfo(Strip(Slice(second, 0, -5)), Slice(second, -5, -1), Strip(Slice(hwr, 0, -5)), Slice(hwr, -5, -1), None)
    else
      var name := Strip(Slice(second, 0, -8));
      ReaderInfo(name, Slice(second, -4, |second|), name, Slice(second, -8, -4), None)
  }

  lemma StripOneSpace(name: string)
    requires |name| > 0 && !IsSpace(name[0]) && !IsSpace(name[|name| - 1])
    ensures Strip(name + " ") == name && Strip(name) == name
  {
    var s := name + " ";
    assert s[..|s| - 1] == name;
  }

  /** Well-formed answers are read back: `NAME VVVVx` gives name NAME and version VVVV, and a
      UCO device's `NAMEHHHHFFFF` gives the name for both parts. */
  lemma IdentityFields(hw: string, hv: string, fw: string, fv: string, c: char, d: char)
    requires |hw| > 0 && !IsSpace(hw[0]) && !IsSpace(hw[|hw| - 1]) && |hv| == 4
    requires |fw| > 0 && !IsSpace(fw[0]) && !IsSpace(fw[|fw| - 1]) && |fv| == 4
    requires !Contains(hw + " " + hv + [c], "UCO")
    ensures Identity(hw + " " + hv + [c], fw + " " + fv + [d]) == ReaderInfo(fw, fv, hw, hv, None)
    ensures Identity("UCO", fw + hv + fv) == ReaderInfo(fw, fv, fw, hv, None)
  {
    var h := hw + " " + hv + [c];
    var f := fw + " " + fv + [d];
    assert Slice(h, 0, -5) == hw + " " && Slice(h, -5, -1) == hv;
    assert Slice(f, 0, -5) == fw + " " && Slice(f, -5, -1) == fv;
    StripOneSpace(hw);
    StripOneSpace(fw);
    var u := fw + hv + fv;
    assert Slice(u, 0, -8) == fw && Slice(u, -8, -4) == hv && Slice(u, -4, |u|) == fv;
    assert OccursAt("UCO", "UCO", 0);
  }

  /** The identity, or the check's error (the same case-insensitive check as the AT
      engine's). */
  function CheckedIdentity(info: ReaderInfo, exp: AT.Expected): Result<ReaderInfo>
  {
    match AT.IdentityCheckAt(info, exp)
    case Done => Ok(info)
    case Raise(e) => Err(e)
  }

  /** `get_reader_info`: HWR, then RFW or (for a UCO device) REV, then the identity check. */
  method GetReaderInfo(r: Reader, hwrReplies: seq<string>, secondReplies: seq<string>, exp: AT.Expected)
    returns (res: Result<ReaderInfo>)
    modifies r`receiveBuffer, r`sent
    ensures var e1 := Exchange(old(r.receiveBuffer) + hwrReplies, TimeoutText("HWR", []));
      var cmd := if e1.0.Ok? && !Contains(e1.0.value, "UCO") then "RFW" else "REV";
      var e2 := Exchange(e1.1 + secondReplies, TimeoutText(cmd, []));
      old(r.connected) ==>
        res == (if e1.0.Err? then Err(e1.0.error)
                else if e2.0.Err? then Err(e2.0.error)
                else CheckedIdentity(Identity(e1.0.value, e2.0.value), exp))
        && r.sent == old(r.sent) + [PrepareCommand("HWR", [])] + (if e1.0.Ok? then [PrepareCommand(cmd, [])] else [])
        && r.receiveBuffer == (if e1.0.Ok? then e2.1 else e1.1)
    ensures !old(r.connected) ==>
      res == Err(ReaderError("Not connected")) && r.sent == old(r.sent) && r.receiveBuffer == old(r.receiveBuffer)
  {
    var hwr := SendRecvCommand(r, "HWR", [], hwrReplies);
    if hwr.Err? {
      return Err(hwr.error);
    }
    var cmd := if !Contains(hwr.value, "UCO") then "RFW" else "REV";
    var second := SendRecvCommand(r, cmd, [], secondReplies);
    if second.Err? {
      return Err(second.error);
    }
    res := CheckedIdentity(Identity(hwr.value, second.value), exp);
  }

  // ------------------------------------------------------------ antenna bookkeeping

  /** A `NOS` ("not supported") refusal of an antenna setting is reported as such, naming the
      configured firmware; without one the lookup fails. */
  function NosRewrite(e: Error, info: Option<ReaderInfo>): Error
  {
    if IsReaderException(e) && Contains(e.msg, "NOS") then
      if info.Some? then ReaderError("Set antenna not supported by " + info.value.firmware) else Fault("'firmware'")
    else e
  }

  /** `get_antenna` and `get_antenna_multiplex`: the recorded value, or -1. */
  function Recorded(v: Option<int>): int
  {
    if v.Some? then v.value else -1
  }

  /** `set_antenna`: on success the antenna and the SINGLE mode are recorded. */
  method SetAntenna(r: Reader, antenna: int, replies: seq<string>) returns (res: Outcome)
    modifies r`receiveBuffer, r`sent, r`antenna, r`antennaMode
    ensures var e := Exchange(old(r.receiveBuffer) + replies, TimeoutText("SAP", [AT.PStr("MAN"), AT.PInt(antenna)]));
      var reply := SetReply(e.0, "SAP", [AT.PStr("MAN"), AT.PInt(antenna)]);
      old(r.connected) ==>
        r.sent == old(r.sent) + [PrepareCommand("SAP", [AT.PStr("MAN"), AT.PInt(antenna)])] && r.receiveBuffer == e.1
        && res == (if reply.Done? then Done else Raise(NosRewrite(reply.error, r.readerInfo)))
    ensures res == Done ==> r.antenna == Some(antenna) && r.antennaMode == Some("SINGLE")
    ensures res != Done ==> r.antenna == old(r.antenna) && r.antennaMode == old(r.antennaMode)
    ensures !old(r.connected) ==>
      res == Raise(ReaderError("Not connected")) && r.sent == old(r.sent) && r.receiveBuffer == old(r.receiveBuffer)
  {
    NotContainsChar("Not connected", "NOS", 2);
    var reply := SetCommand(r, "SAP", [AT.PStr("MAN"), AT.PInt(antenna)], replies);
    if reply.Raise? {
      return Raise(NosRewrite(reply.error, r.readerInfo));
    }
    r.antenna := Some(antenna);
    r.antennaMode := Some("SINGLE");
    return Done;
  }

  /** `set_antenna_outputs`: on success the pin count is recorded. */
  method SetAntennaOutputs(r: Reader, pins: int, replies: seq<string>) returns (res: Outcome)
    modifies r`receiveBuffer, r`sent, r`antennaPins
    ensures var e := Exchange(old(r.receiveBuffer) + replies, TimeoutText("SAP", [AT.PStr("PIN"), AT.PInt(pins)]));
      var reply := SetReply(e.0, "SAP", [AT.PStr("PIN"), AT.PInt(pins)]);
      old(r.connected) ==>
        r.sent == old(r.sent) + [PrepareCommand("SAP", [AT.PStr("PIN"), AT.PInt(pins)])] && r.receiveBuffer == e.1
        && res == (if reply.Done? then Done else Raise(NosRewrite(reply.error, r.readerInfo)))
    ensures r.antennaPins == if res == Done then Some(pins) else old(r.antennaPins)
    ensures !old(r.connected) ==>
      res == Raise(ReaderError("Not connected")) && r.sent == old(r.sent) && r.receiveBuffer == old(r.receiveBuffer)
  {
    NotContainsChar("Not connected", "NOS", 2);
    var reply := SetCommand(r, "SAP", [AT.PStr("PIN"), AT.PInt(pins)], replies);
    if reply.Raise? {
      return Raise(NosRewrite(reply.error, r.readerInfo));
    }
    r.antennaPins := Some(pins);
    return Done;
  }

  /** `set_antenna_multiplex`: on success the antenna count and the MULTIPLEX mode are
      recorded; refusals are not rewritten. */
  method SetAntennaMultiplex(r: Reader, antennas: int, switchDelay: int, replies: seq<string>) returns (res: Outcome)
    modifies r`receiveBuffer, r`sent, r`multiplexAntennas, r`antennaMode
    ensures var ps := [AT.PStr("AUT"), AT.PInt(antennas), AT.PInt(switchDelay)];
      var e := Exchange(old(r.receiveBuffer) + replies, TimeoutText("SAP", ps));
      old(r.connected) ==> r.sent == old(r.sent) + [PrepareCommand("SAP", ps)] && r.receiveBuffer == e.1 && res == SetReply(e.0, "SAP", ps)
    ensures !old(r.connected) ==>
      res == Raise(ReaderError("Not connected")) && r.sent == old(r.sent) && r.receiveBuffer == old(r.receiveBuffer)
    ensures res == Done ==> r.multiplexAntennas == Some(antennas) && r.antennaMode == Some("MULTIPLEX")
    ensures res != Done ==> r.multiplexAntennas == old(r.multiplexAntennas) && r.antennaMode == old(r.antennaMode)
  {
    res := SetCommand(r, "SAP", [AT.PStr("AUT"), AT.PInt(antennas), AT.PInt(switchDelay)], replies);
    if res == Done {
      r.multiplexAntennas := Some(antennas);
      r.antennaMode := Some("MULTIPLEX");
    }
  }

  // ------------------------------------------------------------ the handshake

  /** What the handshake reads: a line, with whether the two-second deadline has passed when
      it is examined, or the read timing out. */
  datatype Rx = Line(text: string, expired: bool) | Silence

  /** The handshake's reaction to one line. */
  datatype Step = Finish(sleeping: bool) | Reply(command: string) | Skip | Fail

  function LineStep(text: string, expired: bool, sleeping: bool): Step
  {
    if Contains(text, "BRA") || Contains(text, "NCM") then Finish(sleeping)
    else if Contains(text, "GMO") then Finish(false)
    else if Contains(text, "DNS") then Finish(sleeping)
    else if Contains(text, "CCE") then Reply(if sleeping then "WAK 5E70" else "COF 4F5E")
    else if Contains(text, "OK") then Reply("BRK")
    else if Contains(text, "HBT") then Skip
    else if expired then Fail
    else Skip
  }

  /** The result of a handshake: its outcome, the commands sent after the first BRK, and
      whether the device is taken to be asleep. */
  datatype Handshook = Handshook(outcome: Outcome, sent: seq<string>, sleeping: bool)

  function Continue(step: Step, rest: Handshook): Handshook
    requires step.Reply? || step.Skip?
  {
    if step.Reply? then Handshook(rest.outcome, [PrepareCommand(step.command, [])] + rest.sent, rest.sleeping)
    else rest
  }

  /** The handshake as written: `_recv` raises its timeout instead of returning `None`, so a
      silent device ends the handshake with the timeout. */
  function HandshakeAsWritten(rx: seq<Rx>, sleeping: bool): Handshook
    decreases |rx|
  {
    if |rx| == 0 || rx[0].Silence? then Handshook(Raise(Timeout("response timeout")), [], sleeping)
    else
      var step := LineStep(rx[0].text, rx[0].expired, sleeping);
      match step
      case Finish(s) => Handshook(Done, [], s)
      case Fail => Handshook(Raise(ReaderError("Wrong metratec uhf device")), [], sleeping)
      case _ => Continue(step, HandshakeAsWritten(rx[1..], sleeping))
  }

  /** The handshake as intended: a silent device is taken to be asleep and woken with WAK. */
  function Handshake(rx: seq<Rx>, sleeping: bool): Handshook
    decreases |rx|
  {
    if |rx| == 0 then Handshook(Raise(Timeout("response timeout")), [], sleeping)
    else if rx[0].Silence? then
      var rest := Handshake(rx[1..], true);
      Handshook(rest.outcome, [PrepareCommand("WAK", [])] + rest.sent, rest.sleeping)
    else
      var step := LineStep(rx[0].text, rx[0].expired, sleeping);
      match step
      case Finish(s) => Handshook(Done, [], s)
      case Fail => Handshook(Raise(ReaderError("Wrong metratec uhf device")), [], sleeping)
      case _ => Continue(step, Handshake(rx[1..], sleeping))
  }

  /** Only the four handshake commands are ever sent. */
  lemma {:induction false} HandshakeCommands(rx: seq<Rx>, sleeping: bool)
    ensures forall k :: 0 <= k < |Handshake(rx, sleeping).sent| ==>
      Handshake(rx, sleeping).sent[k] in {"BRK\r", "WAK\r", "WAK 5E70\r", "COF 4F5E\r"}
    decreases |rx|
  {
    assert PrepareCommand("WAK", []) == "WAK\r" && PrepareCommand("BRK", []) == "BRK\r";
    assert PrepareCommand("WAK 5E70", []) == "WAK 5E70\r" && PrepareCommand("COF 4F5E", []) == "COF 4F5E\r";
    if |rx| > 0 {
      if rx[0].Silence? {
        HandshakeCommands(rx[1..], true);
      } else {
        HandshakeCommands(rx[1..], sleeping);
      }
    }
  }

  /** Once the handshake has finished, later lines are never read. */
  lemma {:induction false} HandshakeStops(rx: seq<Rx>, more: seq<Rx>, sleeping: bool)
    requires Handshake(rx, sleeping).outcome == Done
    ensures Handshake(rx + more, sleeping) == Handshake(rx, sleeping)
    decreases |rx|
  {
    assert (rx + more)[0] == rx[0];
    assert (rx + more)[1..] == rx[1..] + more;
    if rx[0].Silence? {
      HandshakeStops(rx[1..], more, true);
    } else {
      var step := LineStep(rx[0].text, rx[0].expired, sleeping);
      if step.Reply? || step.Skip? {
        HandshakeStops(rx[1..], more, sleeping);
      }
    }
  }

  /** A line without B, N, G or D ends nothing. */
  lemma NotCommandWords(s: string)
    requires 'B' !in s && 'N' !in s && 'G' !in s && 'D' !in s
    ensures !Contains(s, "BRA") && !Contains(s, "NCM") && !Contains(s, "GMO") && !Contains(s, "DNS")
  {
    NotContainsChar(s, "BRA", 0);
    NotContainsChar(s, "NCM", 0);
    NotContainsChar(s, "GMO", 0);
    NotContainsChar(s, "DNS", 0);
  }

  /** A sleeping device, silent until woken: the intended handshake sends WAK, then answers
      the wake-up challenge with `WAK 5E70` and finishes on the greeting; as written the
      handshake gives up with the timeout at once. */
  lemma SleepingDevice()
    ensures var rx := [Silence, Line("CCE", false), Line("GMO", false)];
      Handshake(rx, false) == Handshook(Done, ["WAK\r", "WAK 5E70\r"], false)
      && HandshakeAsWritten(rx, false) == Handshook(Raise(Timeout("response timeout")), [], false)
  {
    assert OccursAt("CCE", "CCE", 0) && OccursAt("GMO", "GMO", 0);
    NotCommandWords("CCE");
    NotContainsChar("GMO", "BRA", 0);
    NotContainsChar("GMO", "NCM", 0);
    assert PrepareCommand("WAK", []) == "WAK\r" && PrepareCommand("WAK 5E70", []) == "WAK 5E70\r";
    var rx := [Silence, Line("CCE", false), Line("GMO", false)];
    assert rx[1..] == [Line("CCE", false), Line("GMO", false)];
    assert rx[1..][1..] == [Line("GMO", false)];
  }

  /** An awake device in continuous mode: the challenge is answered with `COF 4F5E`, its OK
      with a new BRK, and the interruption ends the handshake; both versions agree. */
  lemma ContinuousDevice()
    ensures var rx := [Line("CCE", false), Line("OK!", false), Line("BRA", false)];
      Handshake(rx, false) == Handshook(Done, ["COF 4F5E\r", "BRK\r"], false)
      && HandshakeAsWritten(rx, false) == Handshake(rx, false)
  {
    assert OccursAt("CCE", "CCE", 0) && OccursAt("OK!", "OK", 0) && OccursAt("BRA", "BRA", 0);
    NotCommandWords("CCE");
    NotCommandWords("OK!");
    NotContainsChar("OK!", "CCE", 0);
    assert PrepareCommand("COF 4F5E", []) == "COF 4F5E\r" && PrepareCommand("BRK", []) == "BRK\r";
    var rx := [Line("CCE", false), Line("OK!", false), Line("BRA", false)];
    assert rx[1..] == [Line("OK!", false), Line("BRA", false)];
    assert rx[1..][1..] == [Line("BRA", false)];
  }

  /** One silent read: the device is taken to be asleep and WAK is sent. */
  lemma HandshakeSilence(rx: seq<Rx>, sleeping: bool)
    requires |rx| > 0 && rx[0].Silence?
    ensures var rest := Handshake(rx[1..], true);
      Handshake(rx, sleeping) == Handshook(rest.outcome, [PrepareCommand("WAK", [])] + rest.sent, rest.sleeping)
  {
  }

  /** One line read: the step it calls for decides how the handshake goes on. */
  lemma HandshakeLine(rx: seq<Rx>, sleeping: bool, step: Step)
    requires |rx| > 0 && rx[0].Line? && step == LineStep(rx[0].text, rx[0].expired, sleeping)
    ensures step.Finish? ==> Handshake(rx, sleeping) == Handshook(Done, [], step.sleeping)
    ensures step.Fail? ==> Handshake(rx, sleeping) == Handshook(Raise(ReaderError("Wrong metratec uhf device")), [], sleeping)
    ensures step.Skip? ==> Handshake(rx, sleeping) == Handshake(rx[1..], sleeping)
    ensures var rest := Handshake(rx[1..], sleeping);
      step.Reply? ==> Handshake(rx, sleeping) == Handshook(rest.outcome, [PrepareCommand(step.command, [])] + rest.sent, rest.sleeping)
  {
  }

  /** A command answered in the current step moves from the rest of the handshake to the
      commands sent so far. */
  lemma AccStep(acc: seq<string>, cmd: string, h: Handshook, rest: Handshook)
    requires h == Handshook(rest.outcome, [cmd] + rest.sent, rest.sleeping)
    ensures Handshook(h.outcome, acc + h.sent, h.sleeping) == Handshook(rest.outcome, (acc + [cmd]) + rest.sent, rest.sleeping)
  {
    ConcatAssoc(acc, [cmd], rest.sent);
  }

  /** The handshake of `_config_reader` (as intended): BRK is sent, then each line read is
      answered until one ends it. Returns whether the device is taken to be asleep. */
  method RunHandshake(r: Reader, rx: seq<Rx>) returns (res: Outcome, sleeping: bool)
    modifies r`sent
    ensures var h := Handshake(rx, false);
      old(r.connected) ==> res == h.outcome && r.sent == old(r.sent) + ["BRK\r"] + h.sent && sleeping == h.sleeping
    ensures !old(r.connected) ==> res == Raise(ReaderError("Not connected")) && r.sent == old(r.sent)
  {
    assert PrepareCommand("BRK", []) == "BRK\r";
    var s := r.Send(PrepareCommand("BRK", []));
    if s.Raise? {
      return s, false;
    }
    sleeping := false;
    var i := 0;
    ghost var acc: seq<string> := [];
    while i < |rx|
      invariant 0 <= i <= |rx|
      invariant r.sent == old(r.sent) + ["BRK\r"] + acc
      invariant var h := Handshake(rx[i..], sleeping);
        Handshake(rx, false) == Handshook(h.outcome, acc + h.sent, h.sleeping)
      decreases |rx| - i
    {
      assert rx[i..][1..] == rx[i + 1..];
      if rx[i].Silence? {
        HandshakeSilence(rx[i..], sleeping);
        AccStep(acc, PrepareCommand("WAK", []), Handshake(rx[i..], sleeping), Handshake(rx[i + 1..], true));
        sleeping := true;
        s := r.Send(PrepareCommand("WAK", []));
        ConcatAssoc(old(r.sent) + ["BRK\r"], acc, [PrepareCommand("WAK", [])]);
        acc := acc + [PrepareCommand("WAK", [])];
      } else {
        var step := LineStep(rx[i].text, rx[i].expired, sleeping);
        HandshakeLine(rx[i..], sleeping, step);
        if step.Finish? {
          return Done, step.sleeping;
        } else if step.Fail? {
          return Raise(ReaderError("Wrong metratec uhf device")), sleeping;
        } else if step.Reply? {
          AccStep(acc, PrepareCommand(step.command, []), Handshake(rx[i..], sleeping), Handshake(rx[i + 1..], sleeping));
          s := r.Send(PrepareCommand(step.command, []));
          ConcatAssoc(old(r.sent) + ["BRK\r"], acc, [PrepareCommand(step.command, [])]);
          acc := acc + [PrepareCommand(step.command, [])];
        }
      }
      i := i + 1;
    }
    return Raise(Timeout("response timeout")), sleeping;
  }
}
