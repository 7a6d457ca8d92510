/** The AT-style command engine: commands are `AT...=p1,p2` lines; the device answers with an
    optional echo, data lines and a final `OK` or `ERROR`, and pushes unsolicited `+...` event
    lines. The reply loop is shared by the two AT engines, which differ in a few details
    (`Dialect`). */
module ReaderAt {
  import opened Results
  import opened Text
  import opened Status
  import opened Readers

  // ------------------------------------------------------------ command formatting

  /** A command parameter: its text is `str(x)`; `None` parameters are dropped. */
  datatype Param = PStr(s: string) | PInt(i: int) | PNone

  function ParamText(p: Param): string
    requires !p.PNone?
  {
    match p case PStr(s) => s case PInt(i) => IntToString(i)
  }

  /** The texts of the parameters that are not `None`, in order. */
  function Present(params: seq<Param>): seq<string>
    decreases |params|
  {
    if |params| == 0 then []
    else
      var last := params[|params|-1];
      Present(params[..|params|-1]) + (if last.PNone? then [] else [ParamText(last)])
  }

  /** `_prepare_command`: the bare command without parameters, otherwise the command, `=`
      and the present parameters joined by commas. */
  function PrepareCommand(command: string, params: seq<Param>): string
  {
    if |params| == 0 then command else command + "=" + Join(Present(params), ",")
  }

  /** A `None` parameter contributes nothing: appending one leaves a command with parameters
      unchanged. */
  lemma PrepareCommandDropsNone(command: string, params: seq<Param>)
    requires |params| >= 1
    ensures PrepareCommand(command, params + [PNone]) == PrepareCommand(command, params)
  {
    assert (params + [PNone])[..|params|] == params;
    assert Present(params + [PNone]) == Present(params);
  }

  /** A single present parameter follows the `=` unchanged. */
  lemma PrepareCommandOne(command: string, p: string)
    ensures PrepareCommand(command, [PStr(p)]) == command + "=" + p
  {
    assert [PStr(p)][..0] == [];
    assert Present([PStr(p)]) == [p];
  }

  /** The formatted command can be taken apart again: the command, then `=`, then the present
      parameters, which a split at the commas recovers when none of them contains a comma. */
  lemma PrepareCommandParse(command: string, params: seq<Param>)
    requires |Present(params)| >= 1
    requires forall k :: 0 <= k < |Present(params)| ==> ',' !in Present(params)[k]
    ensures var r := PrepareCommand(command, params);
      |params| >= 1 && |r| > |command| && r[..|command|] == command && r[|command|] == '='
      && Split(r[|command|+1..], ',') == Present(params)
  {
    assert |params| >= 1;
    var r := PrepareCommand(command, params);
    assert r[|command|+1..] == Join(Present(params), [',']);
    SplitJoin(Present(params), ',');
  }

  /** A flag sent as `1 if flag else 0`. */
  function BoolParam(b: bool): (p: Param)
    ensures !p.PNone? && ParamText(p) == [if b then '1' else '0']
  {
    PInt(if b then 1 else 0)
  }

  /** Three present parameters give their three texts. */
  lemma PresentThree(x: Param, y: Param, z: Param)
    requires !x.PNone? && !y.PNone? && !z.PNone?
    ensures Present([x, y, z]) == [ParamText(x), ParamText(y), ParamText(z)]
  {
    var ps := [x, y, z];
    assert ps[..2] == [x, y] && [x, y][..1] == [x] && [x][..0] == [];
    assert Present([x]) == [ParamText(x)];
    assert Present([x, y]) == [ParamText(x), ParamText(y)];
  }

  /** Three flags as parameters: three digits separated by commas, each '1' exactly when its
      flag is set. */
  lemma FlagsPayload(x: bool, y: bool, z: bool) returns (j: string)
    ensures j == Join(Present([BoolParam(x), BoolParam(y), BoolParam(z)]), ",")
    ensures |j| == 5 && j[1] == ',' && j[3] == ','
    ensures (j[0] == '1') == x && (j[2] == '1') == y && (j[4] == '1') == z
    ensures Split(j, ',') == [[j[0]], [j[2]], [j[4]]]
  {
    var a, b, d := if x then '1' else '0', if y then '1' else '0', if z then '1' else '0';
    PresentThree(BoolParam(x), BoolParam(y), BoolParam(z));
    JoinDigits(a, b, d);
    j := [a, ',', b, ',', d];
  }

  /** Three one-character fields joined by commas split back into themselves. */
  lemma JoinDigits(a: char, b: char, d: char)
    requires a != ',' && b != ',' && d != ','
    ensures Join([[a], [b], [d]], ",") == [a, ',', b, ',', d]
    ensures Split([a, ',', b, ',', d], ',') == [[a], [b], [d]]
  {
    JoinThree([a], [b], [d], ",");
    SplitJoin([[a], [b], [d]], ',');
  }

  // ------------------------------------------------------------ line demultiplexing

  /** What happens to a received line. */
  datatype Action =
    | Drop
    | InventoryLine(msg: string)
    | InputChange(pin: int, high: bool)
    | Enqueue(msg: string)
    | Crash(error: Error)

  const IndexError := Fault("string index out of range")

  /** The line without its terminator: `data[:-1]`. */
  function Body(data: string): string
  {
    Slice(data, 0, -1)
  }

  /** `_data_received_config` (both AT engines): while configuring, event and heartbeat
      lines are dropped and every other non-empty line is queued. A lone `+` raises. */
  function ClassifyConfig(data: string): Action
  {
    var msg := Body(data);
    if msg == "" then Drop
    else if msg[0] == '+' then
      if |msg| < 2 then Crash(IndexError)
      else if msg[1] == 'C' then Drop
      else if msg[1] == 'H' && |msg| == 4 then Drop
      else Enqueue(msg)
    else Enqueue(msg)
  }

  /** `int(msg[6])` and `"HIGH" in msg[8:]` of an input-event line. */
  function InputEvent(msg: string): Action
  {
    if |msg| < 7 then Crash(IndexError)
    else match Int([msg[6]])
      case None => Crash(Fault("invalid literal for int()"))
      case Some(pin) => InputChange(pin, Contains(From(msg, 8), "HIGH"))
  }

  /** `ReaderAT._data_received`: `+C...` lines go to the inventory handler, a four-character
      `+H...` heartbeat is dropped, `+IE...` becomes an input change, everything else that is
      not empty is queued. */
  function ClassifyAt(data: string): Action
  {
    var msg := Body(data);
    if msg == "" then Drop
    else if msg[0] == '+' then
      if |msg| < 2 then Crash(IndexError)
      else if msg[1] == 'C' then InventoryLine(msg)
      else if msg[1] == 'H' && |msg| == 4 then Drop
      else if msg[1] == 'I' then
        if |msg| < 3 then Crash(IndexError)
        else if msg[2] == 'E' then InputEvent(msg)
        else Enqueue(msg)
      else Enqueue(msg)
    else Enqueue(msg)
  }

  /** `ReaderGen2._data_received`: as the AT engine, but an input event is dropped unparsed
      when no input callback is set. */
  function ClassifyGen2(data: string, hasInputCallback: bool): Action
  {
    var msg := Body(data);
    if msg == "" then Drop
    else if msg[0] == '+' then
      if |msg| < 2 then Crash(IndexError)
      else if msg[1] == 'C' then InventoryLine(msg)
      else if msg[1] == 'H' && |msg| == 4 then Drop
      else if msg[1] == 'I' then
        if |msg| < 3 then Crash(IndexError)
        else if msg[2] == 'E' then (if hasInputCallback then InputEvent(msg) else Drop)
        else Enqueue(msg)
      else Enqueue(msg)
    else Enqueue(msg)
  }

  predicate IsInputEventLine(msg: string)
  {
    |msg| >= 3 && msg[0] == '+' && msg[1] == 'I' && msg[2] == 'E'
  }

  /** A queued line is the received line without its terminator. */
  lemma QueuedLines(data: string)
    ensures ClassifyAt(data).Enqueue? ==> ClassifyAt(data).msg == Body(data) && Body(data) != ""
    ensures ClassifyConfig(data).Enqueue? ==> ClassifyConfig(data).msg == Body(data)
  {
  }

  /** A line that does not start with `+` is always queued. */
  lemma PlainLinesQueued(data: string)
    requires Body(data) != "" && Body(data)[0] != '+'
    ensures ClassifyAt(data) == Enqueue(Body(data))
    ensures ClassifyConfig(data) == Enqueue(Body(data))
    ensures ClassifyGen2(data, false) == Enqueue(Body(data))
  {
  }

  /** While configuring nothing reaches a handler. The lines handled differently from normal
      operation are the inventory and input-event lines, which configuration drops or
      queues, and a bare `+I`, which normal operation fails to index while configuration
      queues it. */
  lemma ConfigDiffersOnlyOnEvents(data: string)
    ensures !ClassifyConfig(data).InventoryLine? && !ClassifyConfig(data).InputChange?
    ensures ClassifyConfig(data) != ClassifyAt(data) ==>
      ClassifyAt(data).InventoryLine? || IsInputEventLine(Body(data))
      || (Body(data) == "+I" && ClassifyAt(data) == Crash(IndexError) && ClassifyConfig(data) == Enqueue("+I"))
    ensures IsInputEventLine(Body(data)) ==> ClassifyConfig(data) == Enqueue(Body(data))
  {
  }

  /** With an input callback the Gen2 engine classifies like the AT engine; without one it
      differs only in dropping input events. */
  lemma Gen2MatchesAt(data: string)
    ensures ClassifyGen2(data, true) == ClassifyAt(data)
    ensures ClassifyGen2(data, false) != ClassifyAt(data) ==>
      IsInputEventLine(Body(data)) && ClassifyGen2(data, false) == Drop
  {
  }

  /** An input event `+IEV: p,HIGH` reports pin p as high, `+IEV: p,LOW` as low. */
  lemma InputEventLevels(p: nat, rest: string)
    requires p < 10
    ensures InputEvent("+IEV: " + [DigitChar(p)] + "," + "HIGH" + rest) == InputChange(p, true)
    ensures InputEvent("+IEV: " + [DigitChar(p)] + "," + "LOW") == InputChange(p, false)
  {
    var hi := "+IEV: " + [DigitChar(p)] + "," + "HIGH" + rest;
    assert From(hi, 8) == "HIGH" + rest;
    ContainsSelf("HIGH" + rest, "HIGH");
    assert Int([DigitChar(p)]) == Some(p) by {
      assert Digits([DigitChar(p)], 10) == Some(p) by {
        assert [DigitChar(p)][..0] == [];
      }
    }
    var lo := "+IEV: " + [DigitChar(p)] + "," + "LOW";
    assert From(lo, 8) == "LOW";
    NotContainsShort("LOW", "HIGH");
  }

  /** `_data_received` applied to the reader: a queued line is appended to the receive
      queue, an input change calls the input callback; inventory lines and crashes are
      returned to the caller (the device module's handler, or the connection). */
  method DataReceived(r: Reader, data: string, gen2: bool) returns (a: Action)
    modifies r`receiveBuffer, r`events
    ensures a == (if gen2 then ClassifyGen2(data, old(r.cbInputChanged).Some?) else ClassifyAt(data))
    ensures r.receiveBuffer == old(r.receiveBuffer) + (if a.Enqueue? then [a.msg] else [])
    ensures r.events == old(r.events) +
      (if a.InputChange? && r.cbInputChanged.Some? then [InputFired(r.cbInputChanged.value, a.pin, a.high)] else [])
  {
    a := if gen2 then ClassifyGen2(data, r.cbInputChanged.Some?) else ClassifyAt(data);
    if a.Enqueue? {
      r.AddDataToReceiveBuffer(a.msg);
    } else if a.InputChange? {
      r.FireInputChangedEvent(a.pin, a.high);
    }
  }

  /** `_data_received_config` applied to the reader. */
  method DataReceivedConfig(r: Reader, data: string) returns (a: Action)
    modifies r`receiveBuffer
    ensures a == ClassifyConfig(data)
    ensures r.receiveBuffer == old(r.receiveBuffer) + (if a.Enqueue? then [a.msg] else [])
  {
    a := ClassifyConfig(data);
    if a.Enqueue? {
      r.AddDataToReceiveBuffer(a.msg);
    }
  }

  // ------------------------------------------------------------ the reply loop

  /** `ReaderAT` (echo optional, device-specific error parsing, `[]` for no data) or
      `ReaderGen2` (echo always, `[""]` for no data, the whole line as error text). */
  datatype Dialect = AtDialect | Gen2Dialect

  /** The result of `OK`: the last data line split at carriage returns. */
  function OkLines(response: string, dialect: Dialect): seq<string>
  {
    if response != "" then Split(response, '\r')
    else if dialect == AtDialect then [] else [""]
  }

  /** The exception for `ERROR`: the text between the last `<` and the last `>` of the last
      data line, passed through the device's error parser by the AT engine; without both
      brackets "<command> ERROR" (AT) or the whole line (Gen2). */
  function ErrorReply(response: string, command: string, dialect: Dialect, errorOf: string -> Error): Error
  {
    match (RIndex(response, '<'), RIndex(response, '>'))
    case (Some(i), Some(j)) =>
      var msg := Slice(response, i + 1, j);
      if dialect == AtDialect then errorOf(msg) else ReaderError(msg)
    case _ => if dialect == AtDialect then ReaderError(command + " ERROR") else ReaderError(response)
  }

  /** The exception when the replies stop before `OK` or `ERROR`. */
  function NoFinalReply(response: string, sendCommand: string): Error
  {
    if response == "" then ReaderError("no reader response for command " + sendCommand)
    else ReaderError("wrong response for command " + sendCommand + " - " + response)
  }

  /** The reply loop after the echo, over the lines the device sends: the result and the
      number of lines read. Each data line replaces the one before. */
  function ReplyLoop(replies: seq<string>, response: string, command: string, sendCommand: string,
                     dialect: Dialect, errorOf: string -> Error): (r: (Result<seq<string>>, nat))
    ensures r.1 <= |replies|
    decreases |replies|
  {
    if |replies| == 0 then (Err(NoFinalReply(response, sendCommand)), 0)
    else if replies[0] == "OK" then (Ok(OkLines(response, dialect)), 1)
    else if replies[0] == "ERROR" then (Err(ErrorReply(response, command, dialect, errorOf)), 1)
    else
      var rest := ReplyLoop(replies[1..], replies[0], command, sendCommand, dialect, errorOf);
      (rest.0, rest.1 + 1)
  }

  /** The whole exchange after sending: the echo check when enabled, then the reply loop.
      `running` is whether the status is at least RUNNING when the echo times out. */
  function CommandReply(replies: seq<string>, command: string, sendCommand: string, echo: bool,
                        running: bool, dialect: Dialect, errorOf: string -> Error): (r: (Result<seq<string>>, nat))
    ensures r.1 <= |replies|
  {
    if echo then
      if |replies| == 0 then (Err(ReaderError("Reader not " + (if running then "responding" else "connected"))), 0)
      else if !Contains(replies[0], sendCommand) then
        (Err(ReaderError("Not expected response for " + sendCommand + " - " + replies[0])), 1)
      else
        var rest := ReplyLoop(replies[1..], "", command, sendCommand, dialect, errorOf);
        (rest.0, rest.1 + 1)
    else ReplyLoop(replies, "", command, sendCommand, dialect, errorOf)
  }

  predicate DataLine(s: string) { s != "OK" && s != "ERROR" }

  /** The last data line before the final `OK`/`ERROR` decides the result: after data lines
      `lines`, the loop ends on the first final line with the last of them as response. */
  lemma {:induction false} ReplyLoopLast(lines: seq<string>, final: string, post: seq<string>, response: string,
                                         command: string, sendCommand: string, dialect: Dialect,
                                         errorOf: string -> Error)
    requires forall k :: 0 <= k < |lines| ==> DataLine(lines[k])
    requires !DataLine(final)
    ensures var last := if |lines| == 0 then response else lines[|lines|-1];
      ReplyLoop(lines + [final] + post, response, command, sendCommand, dialect, errorOf)
      == (if final == "OK" then Ok(OkLines(last, dialect)) else Err(ErrorReply(last, command, dialect, errorOf)),
          |lines| + 1)
    decreases |lines|
  {
    if |lines| > 0 {
      assert (lines + [final] + post)[1..] == lines[1..] + [final] + post;
      ReplyLoopLast(lines[1..], final, post, lines[0], command, sendCommand, dialect, errorOf);
    } else {
      assert (lines + [final] + post)[0] == final;
    }
  }

  /** Without a final line the loop reads everything and reports the missing answer. */
  lemma {:induction false} ReplyLoopNoFinal(lines: seq<string>, response: string, command: string,
                                            sendCommand: string, dialect: Dialect, errorOf: string -> Error)
    requires forall k :: 0 <= k < |lines| ==> DataLine(lines[k])
    ensures var last := if |lines| == 0 then response else lines[|lines|-1];
      ReplyLoop(lines, response, command, sendCommand, dialect, errorOf) == (Err(NoFinalReply(last, sendCommand)), |lines|)
    decreases |lines|
  {
    if |lines| > 0 {
      ReplyLoopNoFinal(lines[1..], lines[0], command, sendCommand, dialect, errorOf);
    }
  }

  /** The two dialects differ on `OK` only when no data line arrived: `[]` against `[""]`. */
  lemma OkDialects(response: string)
    ensures response != "" ==> OkLines(response, AtDialect) == OkLines(response, Gen2Dialect)
    ensures OkLines("", AtDialect) == [] && OkLines("", Gen2Dialect) == [""]
  {
  }

  /** On `ERROR` with a bracketed text both dialects report that text (the AT engine through
      its error parser); without brackets the AT engine names the command, Gen2 repeats the
      line. */
  lemma ErrorDialects(response: string, inner: string, command: string, errorOf: string -> Error)
    ensures '<' !in inner && '>' !in inner ==>
      ErrorReply("<" + inner + ">", command, AtDialect, errorOf) == errorOf(inner)
      && ErrorReply("<" + inner + ">", command, Gen2Dialect, errorOf) == ReaderError(inner)
    ensures '<' !in response ==>
      ErrorReply(response, command, AtDialect, errorOf) == ReaderError(command + " ERROR")
      && ErrorReply(response, command, Gen2Dialect, errorOf) == ReaderError(response)
  {
    if '<' !in inner && '>' !in inner {
      var s := "<" + inner + ">";
      assert s[0] == '<' && s[|s| - 1] == '>';
      forall k | 0 < k < |s| - 1 ensures s[k] != '<' && s[k] != '>' {
        assert s[k] == inner[k - 1];
      }
      assert RIndex(s, '<') == Some(0);
      assert RIndex(s, '>') == Some(|s| - 1);
      assert s[1..|s| - 1] == inner;
    }
    if '<' !in response {
      assert RIndex(response, '<') == None;
    }
  }

  /** `_send_command`: the receive queue is cleared, the command is sent with a carriage
      return, the device's `replies` arrive in the queue and are read until the exchange
      ends. The lines after the final one stay queued. */
  method SendCommand(r: Reader, command: string, params: seq<Param>, replies: seq<string>, echo: bool,
                     dialect: Dialect, errorOf: string -> Error) returns (res: Result<seq<string>>)
    modifies r`receiveBuffer, r`sent
    ensures var sc := PrepareCommand(command, params);
      var spec := CommandReply(replies, command, sc, echo, r.base.info.status >= 1, dialect, errorOf);
      (old(r.connected) ==> r.sent == old(r.sent) + [sc + "\r"] && res == spec.0 && r.receiveBuffer == replies[spec.1..])
      && (!old(r.connected) ==> r.sent == old(r.sent) && res == Err(ReaderError("Not connected")) && r.receiveBuffer == [])
  {
    var discarded := r.ClearResponseBuffer();
    var sendCommand := PrepareCommand(command, params);
    var sentOk := r.Send(sendCommand + "\r");
    if sentOk.Raise? {
      return Err(sentOk.error);
    }
    r.receiveBuffer := replies;
    if echo {
      var e := r.Recv();
      if e.Err? {
        return Err(ReaderError("Reader not " + (if r.base.info.status >= 1 then "responding" else "connected")));
      }
      if !Contains(e.value, sendCommand) {
        return Err(ReaderError("Not expected response for " + sendCommand + " - " + e.value));
      }
    }
    ghost var queued := r.receiveBuffer;
    res := ReadReply(r, command, sendCommand, dialect, errorOf);
    if echo {
      assert queued == replies[1..];
      ghost var n := ReplyLoop(queued, "", command, sendCommand, dialect, errorOf).1;
      assert queued[n..] == replies[n + 1..];
    }
  }

  /** The reply loop of `_send_command` on the queued lines: each line is read in turn until
      `OK` or `ERROR`, or until the queue runs dry. */
  method ReadReply(r: Reader, command: string, sendCommand: string, dialect: Dialect, errorOf: string -> Error)
    returns (res: Result<seq<string>>)
    modifies r`receiveBuffer
    ensures var spec := ReplyLoop(old(r.receiveBuffer), "", command, sendCommand, dialect, errorOf);
      res == spec.0 && r.receiveBuffer == old(r.receiveBuffer)[spec.1..]
  {
    ghost var target := ReplyLoop(r.receiveBuffer, "", command, sendCommand, dialect, errorOf);
    ghost var consumed := 0;
    var response := "";
    while true
      invariant consumed <= |old(r.receiveBuffer)| && r.receiveBuffer == old(r.receiveBuffer)[consumed..]
      invariant var rest := ReplyLoop(r.receiveBuffer, response, command, sendCommand, dialect, errorOf);
        rest.0 == target.0 && consumed + rest.1 == target.1
      decreases |r.receiveBuffer|
    {
      var next := r.Recv();
      if next.Err? {
        break;
      }
      consumed := consumed + 1;
      var resp := next.value;
      if resp == "OK" {
        return Ok(OkLines(response, dialect));
      }
      if resp == "ERROR" {
        return Err(ErrorReply(response, command, dialect, errorOf));
      }
      response := resp;
    }
    return Err(NoFinalReply(response, sendCommand));
  }

  /** `stop_inventory` (both engines): an error saying the inventory "is not running" counts
      as success. */
  function StopInventoryOutcome(reply: Result<seq<string>>): Outcome
  {
    if reply.Ok? then Done
    else if Contains(reply.error.msg, "is not running") then Done
    else Raise(reply.error)
  }

  method StopInventory(r: Reader, replies: seq<string>, echo: bool, dialect: Dialect, errorOf: string -> Error)
    returns (res: Outcome)
    modifies r`receiveBuffer, r`sent
    ensures var sc := PrepareCommand("AT+BINV", []);
      var spec := CommandReply(replies, "AT+BINV", sc, echo, r.base.info.status >= 1, dialect, errorOf);
      (old(r.connected) ==>
         r.sent == old(r.sent) + ["AT+BINV\r"] && r.receiveBuffer == replies[spec.1..] && res == StopInventoryOutcome(spec.0))
      && (!old(r.connected) ==> res == Raise(ReaderError("Not connected")) && r.sent == old(r.sent))
  {
    assert PrepareCommand("AT+BINV", []) + "\r" == "AT+BINV\r";
    var reply := SendCommand(r, "AT+BINV", [], replies, echo, dialect, errorOf);
    res := StopInventoryOutcome(reply);
  }

  /** Stopping an inventory that is not running succeeds; any other error is raised. */
  lemma StopInventoryNotRunning(e: Error)
    ensures Contains(e.msg, "is not running") ==> StopInventoryOutcome(Err(e)) == Done
    ensures !Contains(e.msg, "is not running") ==> StopInventoryOutcome(Err(e)) == Raise(e)
    ensures StopInventoryOutcome(Err(ReaderError("Inventory is not running"))) == Done
  {
    ContainsSelf("is not running", "is not running");
    ContainsAppend("Inventory ", "is not running", "is not running");
    assert "Inventory " + "is not running" == "Inventory is not running";
  }

  /** The handlers of pushed inventory lines do not report a parse error while the status is
      a WARNING about an antenna error (in any case). */
  predicate AntennaErrorShown(s: StatusInfo)
  {
    s.status == WARNING && Contains(Lower(s.message), "antenna error")
  }

  // ------------------------------------------------------------ I/O pins

  /** `get_inputs` (pin digit at 5, level from 7) and `get_outputs` (pin digit at 6, level
      from 8): one entry per reply line, later lines overwriting earlier ones. */
  function PinStates(response: seq<string>, pinAt: nat): Result<map<int, bool>>
    decreases |response|
  {
    if |response| == 0 then Ok(map[])
    else
      var prev :- PinStates(response[..|response|-1], pinAt);
      var msg := response[|response|-1];
      if pinAt >= |msg| then Err(IndexError)
      else match Int([msg[pinAt]])
        case None => Err(Fault("invalid literal for int()"))
        case Some(p) => Ok(prev[p := Contains(From(msg, pinAt + 2), "HIGH")])
  }

  /** The line the device sends for a pin: `prefix`, the pin digit, a comma, its level. */
  function PinLine(prefix: string, pin: nat, high: bool): string
    requires pin < 10
  {
    prefix + [DigitChar(pin)] + "," + (if high then "HIGH" else "LOW")
  }

  /** A well-formed pin line adds exactly its pin and level to the map. */
  lemma PinStatesLine(lines: seq<string>, prefix: string, pin: nat, high: bool)
    requires pin < 10 && PinStates(lines, |prefix|).Ok?
    ensures PinStates(lines + [PinLine(prefix, pin, high)], |prefix|) ==
      Ok(PinStates(lines, |prefix|).value[pin := high])
  {
    var line := PinLine(prefix, pin, high);
    assert (lines + [line])[..|lines|] == lines;
    assert line[|prefix|] == DigitChar(pin);
    assert Int([DigitChar(pin)]) == Some(pin) by {
      assert [DigitChar(pin)][..0] == [];
    }
    var level := if high then "HIGH" else "LOW";
    assert From(line, |prefix| + 2) == level;
    if high {
      ContainsSelf("HIGH", "HIGH");
    } else {
      NotContainsShort("LOW", "HIGH");
    }
  }

  /** `get_input(pin)`: the pin's level, or an error when the reply does not list it. */
  function InputOf(inputs: map<int, bool>, pin: int): Result<bool>
  {
    if pin in inputs then Ok(inputs[pin])
    else Err(ReaderError("Input pin " + IntToString(pin) + " not available"))
  }

  /** `get_output(pin)`. */
  function OutputOf(outputs: map<int, bool>, pin: int): Result<bool>
  {
    if pin in outputs then Ok(outputs[pin])
    else Err(ReaderError("Output pin " + IntToString(pin) + " not available"))
  }

  function Level(high: bool): string { if high then "HIGH" else "LOW" }

  /** The `AT+OUT` payload of `set_output(pin, value)`: four slots for pins 1..4, the level
      only in slot `pin`. */
  function OutputSlots(pin: int, value: bool): string
  {
    Join(seq(4, x => if x + 1 != pin then "" else Level(value)), ",")
  }

  /** The `AT+OUT` payload of `set_outputs(levels)`: slot x holds the level of pin x when the
      map has one, otherwise nothing. */
  function OutputsSlots(levels: map<int, bool>): string
  {
    Join(seq(4, x => if x + 1 !in levels then "" else Level(levels[x + 1])), ",")
  }

  /** Splitting a payload at the commas gives the four slots back. */
  lemma OutputSlotsParse(pin: int, value: bool, levels: map<int, bool>)
    ensures var s := Split(OutputSlots(pin, value), ',');
      |s| == 4 && forall x :: 0 <= x < 4 ==> s[x] == (if x + 1 == pin then Level(value) else "")
    ensures var s := Split(OutputsSlots(levels), ',');
      |s| == 4 && forall x :: 0 <= x < 4 ==> s[x] == (if x + 1 in levels then Level(levels[x + 1]) else "")
  {
    assert forall h :: ',' !in Level(h);
    var a := seq(4, x => if x + 1 != pin then "" else Level(value));
    var b := seq(4, x => if x + 1 !in levels then "" else Level(levels[x + 1]));
    SplitJoin(a, ',');
    SplitJoin(b, ',');
  }

  /** `get_inputs`. */
  method GetInputs(r: Reader, replies: seq<string>, errorOf: string -> Error) returns (res: Result<map<int, bool>>)
    modifies r`receiveBuffer, r`sent
    ensures var spec := CommandReply(replies, "AT+IN?", "AT+IN?", r.echoEnabled, r.base.info.status >= 1, AtDialect, errorOf);
      (old(r.connected) ==>
         r.sent == old(r.sent) + ["AT+IN?\r"]
         && res == (if spec.0.Ok? then PinStates(spec.0.value, 5) else Err(spec.0.error)))
      && (!old(r.connected) ==> r.sent == old(r.sent) && res == Err(ReaderError("Not connected")))
  {
    assert PrepareCommand("AT+IN?", []) + "\r" == "AT+IN?\r";
    var reply := SendCommand(r, "AT+IN?", [], replies, r.echoEnabled, AtDialect, errorOf);
    if reply.Err? {
      return Err(reply.error);
    }
    res := PinStates(reply.value, 5);
  }

  /** The output levels an `AT+OUT?` exchange over `replies` reports, as `get_outputs`
      reads them: the pin digit at offset 6 and "HIGH" after it. */
  function QueriedOutputs(replies: seq<string>, echo: bool, running: bool, errorOf: string -> Error): Result<map<int, bool>>
  {
    var spec := CommandReply(replies, "AT+OUT?", "AT+OUT?", echo, running, AtDialect, errorOf).0;
    if spec.Ok? then PinStates(spec.value, 6) else Err(spec.error)
  }

  /** `ReaderAT.get_outputs`: the levels are also remembered in the configuration. */
  method GetOutputs(r: Reader, replies: seq<string>, errorOf: string -> Error) returns (res: Result<map<int, bool>>)
    modifies r`receiveBuffer, r`sent, r`outputs
    ensures old(r.connected) ==>
      r.sent == old(r.sent) + ["AT+OUT?\r"]
      && res == QueriedOutputs(replies, r.echoEnabled, r.base.info.status >= 1, errorOf)
    ensures !old(r.connected) ==> r.sent == old(r.sent) && res == Err(ReaderError("Not connected"))
    ensures r.outputs == if res.Ok? then Some(res.value) else old(r.outputs)
  {
    assert PrepareCommand("AT+OUT?", []) + "\r" == "AT+OUT?\r";
    var reply := SendCommand(r, "AT+OUT?", [], replies, r.echoEnabled, AtDialect, errorOf);
    if reply.Err? {
      return Err(reply.error);
    }
    res := PinStates(reply.value, 6);
    if res.Ok? {
      r.outputs := Some(res.value);
    }
  }

  /** `ReaderAT.set_output(pin, value)`: the current levels are read first (the query is
      always sent, because the default of the configuration lookup is evaluated eagerly),
      then `AT+OUT` carries the level in slot `pin` only; on success the configuration holds
      the read levels with `pin` updated. */
  method SetOutput(r: Reader, pin: int, value: bool, queryReplies: seq<string>, setReplies: seq<string>,
                   errorOf: string -> Error) returns (res: Outcome)
    modifies r`receiveBuffer, r`sent, r`outputs
    ensures var current := QueriedOutputs(queryReplies, r.echoEnabled, r.base.info.status >= 1, errorOf);
      var sc := "AT+OUT=" + OutputSlots(pin, value);
      var answer := CommandReply(setReplies, "AT+OUT", sc, r.echoEnabled, r.base.info.status >= 1, AtDialect, errorOf).0;
      old(r.connected) ==>
        if current.Err? then
          res == Raise(current.error) && r.sent == old(r.sent) + ["AT+OUT?\r"] && r.outputs == old(r.outputs)
        else
          r.sent == old(r.sent) + ["AT+OUT?\r", sc + "\r"]
          && res == (if answer.Ok? then Done else Raise(answer.error))
          && r.outputs == Some(if answer.Ok? then current.value[pin := value] else current.value)
    ensures !old(r.connected) ==>
      res == Raise(ReaderError("Not connected")) && r.sent == old(r.sent) && r.outputs == old(r.outputs)
  {
    var current := GetOutputs(r, queryReplies, errorOf);
    if current.Err? {
      return Raise(current.error);
    }
    var levels := current.value[pin := value];
    PrepareCommandOne("AT+OUT", OutputSlots(pin, value));
    assert "AT+OUT" + "=" + OutputSlots(pin, value) == "AT+OUT=" + OutputSlots(pin, value);
    var reply := SendCommand(r, "AT+OUT", [PStr(OutputSlots(pin, value))], setReplies, r.echoEnabled, AtDialect, errorOf);
    if reply.Err? {
      return Raise(reply.error);
    }
    r.outputs := Some(levels);
    return Done;
  }

  /** `ReaderAT.set_outputs(levels)`: the read levels overridden by `levels` are sent; the
      configuration then remembers `levels` alone. */
  method SetOutputs(r: Reader, levels: map<int, bool>, queryReplies: seq<string>, setReplies: seq<string>,
                    errorOf: string -> Error) returns (res: Outcome)
    modifies r`receiveBuffer, r`sent, r`outputs
    ensures var current := QueriedOutputs(queryReplies, r.echoEnabled, r.base.info.status >= 1, errorOf);
      old(r.connected) ==>
        if current.Err? then
          res == Raise(current.error) && r.sent == old(r.sent) + ["AT+OUT?\r"] && r.outputs == old(r.outputs)
        else
          var sc := "AT+OUT=" + OutputsSlots(current.value + levels);
          var answer := CommandReply(setReplies, "AT+OUT", sc, r.echoEnabled, r.base.info.status >= 1, AtDialect, errorOf).0;
          r.sent == old(r.sent) + ["AT+OUT?\r", sc + "\r"]
          && res == (if answer.Ok? then Done else Raise(answer.error))
          && r.outputs == Some(if answer.Ok? then levels else current.value)
    ensures !old(r.connected) ==>
      res == Raise(ReaderError("Not connected")) && r.sent == old(r.sent) && r.outputs == old(r.outputs)
  {
    var current := GetOutputs(r, queryReplies, errorOf);
    if current.Err? {
      return Raise(current.error);
    }
    var merged := current.value + levels;
    PrepareCommandOne("AT+OUT", OutputsSlots(merged));
    assert "AT+OUT" + "=" + OutputsSlots(merged) == "AT+OUT=" + OutputsSlots(merged);
    var reply := SendCommand(r, "AT+OUT", [PStr(OutputsSlots(merged))], setReplies, r.echoEnabled, AtDialect, errorOf);
    if reply.Err? {
      return Raise(reply.error);
    }
    r.outputs := Some(levels);
    return Done;
  }

  /** The Gen2 engine reports the device's error text as it is. */
  function PlainError(msg: string): Error
  {
    ReaderError(msg)
  }

  /** `ReaderGen2.set_outputs(levels)`: slot x carries a level only for the pins in `levels`. */
  method SetOutputsGen2(r: Reader, levels: map<int, bool>, replies: seq<string>) returns (res: Outcome)
    modifies r`receiveBuffer, r`sent
    ensures var sc := "AT+OUT=" + OutputsSlots(levels);
      var spec := CommandReply(replies, "AT+OUT", sc, true, r.base.info.status >= 1, Gen2Dialect, PlainError);
      (old(r.connected) ==> r.sent == old(r.sent) + [sc + "\r"] && res == (if spec.0.Ok? then Done else Raise(spec.0.error)))
      && (!old(r.connected) ==> res == Raise(ReaderError("Not connected")))
  {
    PrepareCommandOne("AT+OUT", OutputsSlots(levels));
    assert "AT+OUT" + "=" + OutputsSlots(levels) == "AT+OUT=" + OutputsSlots(levels);
    var reply := SendCommand(r, "AT+OUT", [PStr(OutputsSlots(levels))], replies, true, Gen2Dialect, PlainError);
    res := if reply.Ok? then Done else Raise(reply.error);
  }

  /** `ReaderGen2.set_output(pin, value)`: only the payload is sent, nothing is remembered. */
  method SetOutputGen2(r: Reader, pin: int, value: bool, replies: seq<string>) returns (res: Outcome)
    modifies r`receiveBuffer, r`sent
    ensures var sc := "AT+OUT=" + OutputSlots(pin, value);
      var spec := CommandReply(replies, "AT+OUT", sc, true, r.base.info.status >= 1, Gen2Dialect, PlainError);
      (old(r.connected) ==> r.sent == old(r.sent) + [sc + "\r"] && res == (if spec.0.Ok? then Done else Raise(spec.0.error)))
      && (!old(r.connected) ==> res == Raise(ReaderError("Not connected")))
  {
    PrepareCommandOne("AT+OUT", OutputSlots(pin, value));
    assert "AT+OUT" + "=" + OutputSlots(pin, value) == "AT+OUT=" + OutputSlots(pin, value);
    var reply := SendCommand(r, "AT+OUT", [PStr(OutputSlots(pin, value))], replies, true, Gen2Dialect, PlainError);
    res := if reply.Ok? then Done else Raise(reply.error);
  }

  /** `get_input(pin)` (both engines): the inputs are read and the pin looked up. */
  method GetInput(r: Reader, pin: int, replies: seq<string>, echo: bool, dialect: Dialect, errorOf: string -> Error)
    returns (res: Result<bool>)
    modifies r`receiveBuffer, r`sent
    ensures var spec := CommandReply(replies, "AT+IN?", "AT+IN?", echo, r.base.info.status >= 1, dialect, errorOf);
      old(r.connected) ==>
        r.sent == old(r.sent) + ["AT+IN?\r"] && r.receiveBuffer == replies[spec.1..]
        && res == (if spec.0.Err? then Err(spec.0.error)
                   else if PinStates(spec.0.value, 5).Err? then Err(PinStates(spec.0.value, 5).error)
                   else InputOf(PinStates(spec.0.value, 5).value, pin))
    ensures !old(r.connected) ==> res == Err(ReaderError("Not connected")) && r.sent == old(r.sent)
  {
    assert PrepareCommand("AT+IN?", []) + "\r" == "AT+IN?\r";
    var reply := SendCommand(r, "AT+IN?", [], replies, echo, dialect, errorOf);
    if reply.Err? {
      return Err(reply.error);
    }
    var inputs := PinStates(reply.value, 5);
    if inputs.Err? {
      return Err(inputs.error);
    }
    res := InputOf(inputs.value, pin);
  }

  /** A reported input level is read back by `get_input`; a pin not reported is an error. */
  lemma InputOfLine(lines: seq<string>, pin: nat, high: bool, other: int)
    requires pin < 10 && PinStates(lines, 5).Ok?
    ensures var m := PinStates(lines + [PinLine("+IN: ", pin, high)], 5);
      m.Ok? && InputOf(m.value, pin) == Ok(high)
    ensures other !in PinStates(lines, 5).value ==>
      InputOf(PinStates(lines, 5).value, other) == Err(ReaderError("Input pin " + IntToString(other) + " not available"))
  {
    PinStatesLine(lines, "+IN: ", pin, high);
  }

  // ------------------------------------------------------------ reader identity

  /** The identity a device class expects (`_expected_reader`); each absent entry defaults
      to "unknown" for the names and firmware 1.00. Versions are in hundredths. */
  datatype Expected = Expected(firmwareName: Option<string>, hardwareName: Option<string>, minFirmware: Option<int>)

  function HardwareName(e: Expected): string { if e.hardwareName.Some? then e.hardwareName.value else "unknown" }
  function FirmwareName(e: Expected): string { if e.firmwareName.Some? then e.firmwareName.value else "unknown" }
  function MinFirmware(e: Expected): int { if e.minFirmware.Some? then e.minFirmware.value else 100 }

  /** A list as Python prints it, each item in single quotes. */
  function ListText(items: seq<string>): string
  {
    "[" + Join(seq(|items|, k requires 0 <= k < |items| => "'" + items[k] + "'"), ", ") + "]"
  }

  /** `get_reader_info`'s reply parsing: name and version from the first two lines (word 1
      and the last word for the AT engine, words 1 and 2 for Gen2), the serial number from
      word 1 of the third. A missing word is an error naming the reply. */
  function InfoOf(response: seq<string>, dialect: Dialect): Result<ReaderInfo>
  {
    var wrong := Err(ReaderError("Wrong reader - Not expected info response - " + ListText(response)));
    if |response| < 3 then wrong
    else
      var fw := Split(response[0], ' ');
      var hw := Split(response[1], ' ');
      var sn := Split(response[2], ' ');
      if dialect == AtDialect then
        if |fw| < 2 || |hw| < 2 || |sn| < 2 then wrong
        else Ok(ReaderInfo(fw[1], fw[|fw| - 1], hw[1], hw[|hw| - 1], Some(sn[1])))
      else
        if |fw| < 3 || |hw| < 3 || |sn| < 2 then wrong
        else Ok(ReaderInfo(fw[1], fw[2], hw[1], hw[2], Some(sn[1])))
  }

  /** A well-formed identity reply is read back word for word. */
  lemma InfoOfWords(fw: string, fwv: string, hw: string, hwv: string, sn: string)
    requires ' ' !in fw && ' ' !in fwv && ' ' !in hw && ' ' !in hwv && ' ' !in sn
    ensures var reply := [Join(["FW", fw, fwv], " "), Join(["HW", hw, hwv], " "), Join(["SN", sn], " ")];
      InfoOf(reply, AtDialect) == Ok(ReaderInfo(fw, fwv, hw, hwv, Some(sn)))
      && InfoOf(reply, Gen2Dialect) == Ok(ReaderInfo(fw, fwv, hw, hwv, Some(sn)))
  {
    SplitJoin(["FW", fw, fwv], ' ');
    SplitJoin(["HW", hw, hwv], ' ');
    SplitJoin(["SN", sn], ' ');
  }

  /** The version `MMmm...` as `float("MM.mm")` in hundredths: an optional sign and up to two
      integer digits, then up to two fraction digits; `None` when it is not a number. */
  function VersionHundredths(v: string): Option<int>
  {
    var whole := Slice(v, 0, 2);
    var frac := Slice(v, 2, 4);
    var neg := |whole| > 0 && whole[0] == '-';
    var digits := if |whole| > 0 && (whole[0] == '-' || whole[0] == '+') then whole[1..] else whole;
    var w := if digits == "" then Some(0) else Digits(digits, 10);
    var f := if frac == "" then Some(0) else Digits(frac, 10);
    if w.None? || f.None? || (digits == "" && frac == "") then None
    else
      var h: int := w.value * 100 + (if |frac| == 1 then f.value * 10 else f.value);
      Some(if neg then -h else h)
  }

  /** Four decimal digits `MMmm` are version MM.mm, that is MM * 100 + mm hundredths. */
  lemma VersionDigits(a: nat, b: nat, c: nat, d: nat)
    requires a < 10 && b < 10 && c < 10 && d < 10
    ensures VersionHundredths([DigitChar(a), DigitChar(b), DigitChar(c), DigitChar(d)])
      == Some((10 * a + b) * 100 + 10 * c + d)
  {
    var v := [DigitChar(a), DigitChar(b), DigitChar(c), DigitChar(d)];
    assert Slice(v, 0, 2) == [DigitChar(a), DigitChar(b)];
    assert Slice(v, 2, 4) == [DigitChar(c), DigitChar(d)];
    assert DigitChar(a) != '-' && DigitChar(a) != '+';
    DigitsSnoc([DigitChar(a)], b, 10);
    DigitsSnoc([DigitChar(c)], d, 10);
    assert [DigitChar(a)] + [DigitChar(b)] == [DigitChar(a), DigitChar(b)];
    assert [DigitChar(c)] + [DigitChar(d)] == [DigitChar(c), DigitChar(d)];
  }

  /** The fraction digits Python prints for `f` hundredths: one digit when the second is 0. */
  function FractionText(f: nat): string
    requires f < 100
  {
    if f % 10 == 0 then [DigitChar(f / 10)] else [DigitChar(f / 10), DigitChar(f % 10)]
  }

  /** `str(x)` of a float `x` with at most two decimals, given in hundredths: `1.0`, `2.18`,
      `2.2`, `-0.05`. */
  function FloatText(h: int): string
  {
    var a := if h < 0 then -h else h;
    (if h < 0 then "-" else "") + IntToString(a / 100) + "." + FractionText(a % 100)
  }

  /** The printed float reads back: the part before the point is the whole number, and the
      fraction digits, padded to two, are the hundredths. */
  lemma FloatTextReadsBack(h: nat)
    ensures var w := IntToString(h / 100);
      var t := FloatText(h);
      |t| > |w| && t[..|w|] == w && Int(w) == Some(h / 100) && t[|w|] == '.'
      && Digits(t[|w| + 1..] + (if |t| == |w| + 2 then "0" else ""), 10) == Some(h % 100)
  {
    var w := IntToString(h / 100);
    var f := h % 100;
    var t := FloatText(h);
    assert t == w + "." + FractionText(f);
    assert t[..|w|] == w;
    assert t[|w| + 1..] == FractionText(f);
    DigitsSnoc([DigitChar(f / 10)], if f % 10 == 0 then 0 else f % 10, 10);
    if f % 10 == 0 {
      assert "0" == [DigitChar(0)];
      assert FractionText(f) + "0" == [DigitChar(f / 10)] + [DigitChar(0)];
    } else {
      assert FractionText(f) == [DigitChar(f / 10)] + [DigitChar(f % 10)];
    }
  }

  /** `expected.get('min_firmware')` as the message prints it: `None` when it is not set. */
  function MinFirmwareText(e: Expected): string
  {
    if e.minFirmware.Some? then FloatText(e.minFirmware.value) else "None"
  }

  /** The message of a firmware below the minimum. */
  function FirmwareTooLow(exp: Expected, v: int): string
  {
    "Reader firmware too low, please update! Minimum " + MinFirmwareText(exp) + " expected, " + FloatText(v) + " found"
  }

  /** The firmware check shared by the engines: a version that is not a number raises, one
      below the minimum (1.0 when none is set) is rejected, naming both versions. */
  function VersionCheck(info: ReaderInfo, exp: Expected): Outcome
  {
    match VersionHundredths(info.firmwareVersion)
    case None => Raise(Fault("could not convert string to float"))
    case Some(v) =>
      if v < MinFirmware(exp) then Raise(ReaderError(FirmwareTooLow(exp, v)))
      else Done
  }

  /** The versions the readers expect print as Python prints them. */
  lemma FloatTextExamples()
    ensures FloatText(218) == "2.18" && FloatText(210) == "2.1" && FloatText(100) == "1.0" && FloatText(-5) == "-0.05"
  {
    assert IntToString(2) == "2" by { assert NatDigits(2, 10) == [DigitChar(2)]; }
    assert IntToString(1) == "1" by { assert NatDigits(1, 10) == [DigitChar(1)]; }
    assert IntToString(0) == "0" by { assert NatDigits(0, 10) == [DigitChar(0)]; }
    assert FractionText(18) == "18";
    assert FractionText(10) == "1";
    assert FractionText(0) == "0";
    assert FractionText(5) == "05";
  }

  /** `ReaderAT._config_reader`'s identity check: the expected names must occur in the
      reported ones, ignoring case. */
  function IdentityCheckAt(info: ReaderInfo, exp: Expected): Outcome
  {
    if !Contains(Lower(info.hardware), Lower(HardwareName(exp))) then
      Raise(ReaderError("Wrong reader type! " + HardwareName(exp) + " expected, " + info.hardware + " found"))
    else if !Contains(Lower(info.firmware), Lower(FirmwareName(exp))) then
      Raise(ReaderError("Wrong reader firmware! " + FirmwareName(exp) + " expected, " + info.firmware + " found"))
    else VersionCheck(info, exp)
  }

  /** `ReaderGen2.get_reader_info`'s identity check: the names must be equal. */
  function IdentityCheckGen2(info: ReaderInfo, exp: Expected): Outcome
  {
    if info.hardware != HardwareName(exp) then
      Raise(ReaderError("Wrong reader type! " + HardwareName(exp) + " expected, " + info.hardware + " found"))
    else if info.firmware != FirmwareName(exp) then
      Raise(ReaderError("Wrong reader firmware! " + FirmwareName(exp) + " expected, " + info.firmware + " found"))
    else VersionCheck(info, exp)
  }

  /** The Gen2 check accepts exactly the reports whose names equal the expected ones and whose
      version is a number no lower than the minimum; whatever it accepts the AT check accepts
      too. */
  lemma IdentityGen2Exact(info: ReaderInfo, exp: Expected)
    ensures IdentityCheckGen2(info, exp) == Done <==>
      info.hardware == HardwareName(exp) && info.firmware == FirmwareName(exp)
      && VersionHundredths(info.firmwareVersion).Some?
      && VersionHundredths(info.firmwareVersion).value >= MinFirmware(exp)
    ensures IdentityCheckGen2(info, exp) == Done ==> IdentityCheckAt(info, exp) == Done
  {
    if IdentityCheckGen2(info, exp) == Done {
      ContainsSelf(Lower(info.hardware), Lower(HardwareName(exp)));
      ContainsSelf(Lower(info.firmware), Lower(FirmwareName(exp)));
    }
  }

  /** The AT check also accepts a reported name that merely contains the expected one, in
      another case; the Gen2 check does not. */
  lemma IdentityAtSubstring()
    ensures IdentityCheckAt(ReaderInfo("A", "0123", "XA", "0100", Some("1")), Expected(Some("a"), Some("a"), None)) == Done
    ensures IdentityCheckGen2(ReaderInfo("A", "0123", "XA", "0100", Some("1")), Expected(Some("a"), Some("a"), None)).Raise?
  {
    assert Lower("XA") == "xa" && Lower("A") == "a" && Lower("a") == "a";
    assert OccursAt("xa", "a", 1);
    assert OccursAt("a", "a", 0);
    VersionDigits(0, 1, 2, 3);
    assert [DigitChar(0), DigitChar(1), DigitChar(2), DigitChar(3)] == "0123";
  }

  /** The identity check a dialect applies: the AT engine only when reader checking is on. */
  function IdentityCheck(info: ReaderInfo, exp: Expected, dialect: Dialect, checkReader: bool): Outcome
  {
    if dialect == Gen2Dialect then IdentityCheckGen2(info, exp)
    else if checkReader then IdentityCheckAt(info, exp) else Done
  }

  /** `get_antenna`: the number after `+ANT: ` in the first reply line. The AT engine turns
      an error mentioning "ERROR" into "Multiple antennas not supported". */
  function AntennaOf(reply: Result<seq<string>>, dialect: Dialect): Result<int>
  {
    if reply.Err? then
      if dialect == AtDialect && IsReaderException(reply.error) && Contains(reply.error.msg, "ERROR")
      then Err(ReaderError("Multiple antennas not supported"))
      else Err(reply.error)
    else if |reply.value| == 0 then
      Err(ReaderError("Not expected response for command AT+ANT? - " + ListText(reply.value)))
    else match Int(From(reply.value[0], 6))
      case None => Err(Fault("invalid literal for int()"))
      case Some(a) => Ok(a)
  }

  /** `_config_reader` (both engines): the identity is read and checked and remembered, then
      the current antenna, which defaults to 1 when the device reports a reader error. */
  method ConfigReader(r: Reader, infoReplies: seq<string>, antennaReplies: seq<string>, exp: Expected,
                      checkReader: bool, dialect: Dialect, errorOf: string -> Error) returns (res: Outcome)
    modifies r`receiveBuffer, r`sent, r`readerInfo, r`antenna
    ensures var running := r.base.info.status >= 1;
      var echo := dialect == Gen2Dialect || r.echoEnabled;
      var infoSpec := CommandReply(infoReplies, "ATI", "ATI", echo, running, dialect, errorOf);
      var lines := infoSpec.0;
      var info := if lines.Ok? then InfoOf(lines.value, dialect) else Err(lines.error);
      var identified := info.Ok? && IdentityCheck(info.value, exp, dialect, checkReader) == Done;
      var antSpec := CommandReply(antennaReplies, "AT+ANT?", "AT+ANT?", echo, running, dialect, errorOf);
      var ant := AntennaOf(antSpec.0, dialect);
      old(r.connected) ==>
        (res == Done <==> identified && (ant.Ok? || IsReaderException(ant.error)))
        && (res == Done ==> r.readerInfo == Some(info.value) && r.antenna == Some(if ant.Ok? then ant.value else 1))
        && (info.Err? ==> res == Raise(info.error) && r.readerInfo == old(r.readerInfo))
        && r.sent == old(r.sent) + ["ATI\r"] + (if identified then ["AT+ANT?\r"] else [])
        && r.receiveBuffer == (if identified then antennaReplies[antSpec.1..] else infoReplies[infoSpec.1..])
    ensures !old(r.connected) ==>
      res == Raise(ReaderError("Not connected")) && r.readerInfo == old(r.readerInfo) && r.sent == old(r.sent)
  {
    var echo := dialect == Gen2Dialect || r.echoEnabled;
    res := ReadIdentity(r, infoReplies, exp, echo, checkReader, dialect, errorOf);
    if res == Done {
      res := ReadAntenna(r, antennaReplies, echo, dialect, errorOf);
    }
  }

  /** The identity query of `_config_reader`: the `ATI` reply is decoded and checked, and
      only a reader that passes the check has its information stored. */
  method ReadIdentity(r: Reader, infoReplies: seq<string>, exp: Expected, echo: bool, checkReader: bool,
                      dialect: Dialect, errorOf: string -> Error) returns (res: Outcome)
    modifies r`receiveBuffer, r`sent, r`readerInfo
    ensures var spec := CommandReply(infoReplies, "ATI", "ATI", echo, r.base.info.status >= 1, dialect, errorOf);
      var lines := spec.0;
      var info := if lines.Ok? then InfoOf(lines.value, dialect) else Err(lines.error);
      old(r.connected) ==>
        (res == Done <==> info.Ok? && IdentityCheck(info.value, exp, dialect, checkReader) == Done)
        && (res == Done ==> r.readerInfo == Some(info.value))
        && (info.Err? ==> res == Raise(info.error) && r.readerInfo == old(r.readerInfo))
        && r.sent == old(r.sent) + ["ATI\r"] && r.receiveBuffer == infoReplies[spec.1..]
    ensures !old(r.connected) ==>
      res == Raise(ReaderError("Not connected")) && r.readerInfo == old(r.readerInfo) && r.sent == old(r.sent)
  {
    assert PrepareCommand("ATI", []) + "\r" == "ATI\r";
    var lines := SendCommand(r, "ATI", [], infoReplies, echo, dialect, errorOf);
    if lines.Err? {
      return Raise(lines.error);
    }
    var info := InfoOf(lines.value, dialect);
    if info.Err? {
      return Raise(info.error);
    }
    var check := IdentityCheck(info.value, exp, dialect, checkReader);
    if check.Raise? {
      return check;
    }
    r.readerInfo := Some(info.value);
    return Done;
  }

  /** The antenna query of `_config_reader`: a reader-side error leaves antenna 1, any
      other error is raised. */
  method ReadAntenna(r: Reader, antennaReplies: seq<string>, echo: bool, dialect: Dialect,
                     errorOf: string -> Error) returns (res: Outcome)
    requires r.connected
    modifies r`receiveBuffer, r`sent, r`antenna
    ensures var spec := CommandReply(antennaReplies, "AT+ANT?", "AT+ANT?", echo, r.base.info.status >= 1, dialect, errorOf);
      var ant := AntennaOf(spec.0, dialect);
      (res == Done <==> ant.Ok? || IsReaderException(ant.error))
      && (res == Done ==> r.antenna == Some(if ant.Ok? then ant.value else 1))
      && r.sent == old(r.sent) + ["AT+ANT?\r"] && r.receiveBuffer == antennaReplies[spec.1..]
  {
    assert PrepareCommand("AT+ANT?", []) + "\r" == "AT+ANT?\r";
    var reply := SendCommand(r, "AT+ANT?", [], antennaReplies, echo, dialect, errorOf);
    var ant := AntennaOf(reply, dialect);
    if ant.Ok? {
      r.antenna := Some(ant.value);
    } else if IsReaderException(ant.error) {
      r.antenna := Some(1);
    } else {
      return Raise(ant.error);
    }
    return Done;
  }

  // ------------------------------------------------------------ antenna check

  function AntennaKey(k: int): string
  {
    "Antenna " + IntToString(k)
  }

  lemma AntennaKeyInjective(i: int, j: int)
    requires AntennaKey(i) == AntennaKey(j)
    ensures i == j
  {
    assert IntToString(i) == AntennaKey(i)[8..];
    assert IntToString(j) == AntennaKey(j)[8..];
  }

  /** `config['error'][key] = error`, creating the entry when it is absent. */
  function ErrorsWith(errors: Option<map<string, string>>, key: string, error: string): map<string, string>
  {
    (if errors.Some? then errors.value else map[])[key := error]
  }

  /** How the inventory of one antenna in `check_antennas` ended. */
  datatype AntennaOutcome =
    | Found                               // `get_inventory` returned normally
    | Recorded(key: string, text: string) // the parser stored `text` under `key` in `config['error']`, then raised
    | Raised                              // a reader error that left `config['error']` alone

  /** Whether the outcome of `antenna` writes or deletes `key` of `config['error']`. The
      deletion on success reaches the configuration only when the local `errors` is the
      configuration's own dictionary (`aliased`), i.e. when the entry existed at the start. */
  predicate Touches(o: AntennaOutcome, antenna: int, key: string, aliased: bool)
  {
    match o
    case Found => aliased && AntennaKey(antenna) == key
    case Recorded(k, _) => k == key
    case Raised => false
  }

  /** `config['error']` after the inventories of antennas 1..|outcomes|: a failure that
      records an error writes into the configuration's entry (creating it), a success deletes
      the antenna's key from the local `errors`, which is the configuration's entry only
      when `aliased`. */
  function ErrorsAfter(errors: Option<map<string, string>>, aliased: bool, outcomes: seq<AntennaOutcome>): Option<map<string, string>>
    decreases |outcomes|
  {
    if |outcomes| == 0 then errors
    else
      var before := ErrorsAfter(errors, aliased, outcomes[..|outcomes| - 1]);
      var antenna := |outcomes|;
      match outcomes[antenna - 1]
      case Found =>
        if aliased && before.Some? && AntennaKey(antenna) in before.value
        then Some(before.value - {AntennaKey(antenna)}) else before
      case Recorded(key, text) => Some(ErrorsWith(before, key, text))
      case Raised => before
  }

  /** The error map after `check_antennas`: deleted when all four antennas succeed,
      otherwise as the inventories left it. */
  function CheckedErrors(errors: Option<map<string, string>>, outcomes: seq<AntennaOutcome>): Option<map<string, string>>
    requires |outcomes| == 4
  {
    if forall k :: 0 <= k < 4 ==> outcomes[k].Found? then None
    else ErrorsAfter(errors, errors.Some?, outcomes)
  }

  /** The last failure that records under `key` decides its text. */
  lemma {:induction false} ErrorsAfterRecorded(errors: Option<map<string, string>>, aliased: bool,
                                               outcomes: seq<AntennaOutcome>, i: nat, key: string, text: string)
    requires i < |outcomes| && outcomes[i] == Recorded(key, text)
    requires forall j :: i < j < |outcomes| ==> !Touches(outcomes[j], j + 1, key, aliased)
    ensures var e := ErrorsAfter(errors, aliased, outcomes); e.Some? && key in e.value && e.value[key] == text
    decreases |outcomes|
  {
    var n := |outcomes|;
    if i < n - 1 {
      var prefix := outcomes[..n - 1];
      assert forall j :: i < j < |prefix| ==> prefix[j] == outcomes[j];
      ErrorsAfterRecorded(errors, aliased, prefix, i, key, text);
      assert !Touches(outcomes[n - 1], n, key, aliased);
    }
  }

  /** A success deletes its antenna's entry when the configuration's map existed at the
      start, unless a later failure records it again. */
  lemma {:induction false} ErrorsAfterCleared(errors: Option<map<string, string>>, outcomes: seq<AntennaOutcome>, i: nat)
    requires errors.Some? && i < |outcomes| && outcomes[i].Found?
    requires forall j :: i < j < |outcomes| ==> !Touches(outcomes[j], j + 1, AntennaKey(i + 1), true)
    ensures var e := ErrorsAfter(errors, true, outcomes); e.Some? && AntennaKey(i + 1) !in e.value
    decreases |outcomes|
  {
    var n := |outcomes|;
    var prefix := outcomes[..n - 1];
    assert forall j :: 0 <= j < |prefix| ==> prefix[j] == outcomes[j];
    ErrorsAfterSome(errors, prefix);
    if i < n - 1 {
      ErrorsAfterCleared(errors, prefix, i);
      assert !Touches(outcomes[n - 1], n, AntennaKey(i + 1), true);
    }
  }

  /** A map that exists at the start exists throughout. */
  lemma {:induction false} ErrorsAfterSome(errors: Option<map<string, string>>, outcomes: seq<AntennaOutcome>)
    requires errors.Some?
    ensures ErrorsAfter(errors, true, outcomes).Some?
    decreases |outcomes|
  {
    if |outcomes| > 0 {
      ErrorsAfterSome(errors, outcomes[..|outcomes| - 1]);
    }
  }

  /** A key no outcome touches keeps its entry, or its absence. */
  lemma {:induction false} ErrorsAfterUntouched(errors: Option<map<string, string>>, aliased: bool,
                                                outcomes: seq<AntennaOutcome>, key: string)
    requires forall j :: 0 <= j < |outcomes| ==> !Touches(outcomes[j], j + 1, key, aliased)
    ensures var e := ErrorsAfter(errors, aliased, outcomes);
      (e.Some? && key in e.value) <==> (errors.Some? && key in errors.value)
    ensures var e := ErrorsAfter(errors, aliased, outcomes);
      errors.Some? && key in errors.value ==> e.Some? && e.value[key] == errors.value[key]
    decreases |outcomes|
  {
    var n := |outcomes|;
    if n > 0 {
      var prefix := outcomes[..n - 1];
      assert forall j :: 0 <= j < |prefix| ==> prefix[j] == outcomes[j];
      ErrorsAfterUntouched(errors, aliased, prefix, key);
      assert !Touches(outcomes[n - 1], n, key, aliased);
    }
  }

  /** The antennas whose inventory failed, in order. */
  function Failed(outcomes: seq<AntennaOutcome>, upTo: nat): seq<int>
    requires upTo <= |outcomes|
  {
    if upTo == 0 then [] else Failed(outcomes, upTo - 1) + (if outcomes[upTo - 1].Found? then [] else [upTo])
  }

  /** The failed antennas as the error message lists them, separated by spaces. */
  function AntennaList(failed: seq<int>): string
  {
    Join(seq(|failed|, i requires 0 <= i < |failed| => IntToString(failed[i])), " ")
  }

  /** `check_antennas`: each of the antennas 1..4 is selected and inventoried, and
      `outcomes` says how each inventory ended. The local `errors` is `config['error']` itself
      when that entry exists, and a fresh dictionary otherwise, so a success deletes the
      antenna's entry from the configuration only in the first case. When all four succeed
      the entry is deleted and an ERROR status becomes RUNNING; otherwise the failed antennas
      are raised. */
  method CheckAntennas(r: Reader, outcomes: seq<AntennaOutcome>, now: real) returns (res: Outcome)
    requires |outcomes| == 4
    modifies r`errors, r.base`info, r.base`notices
    ensures r.errors == CheckedErrors(old(r.errors), outcomes)
    ensures (forall k :: 0 <= k < 4 ==> outcomes[k].Found?) ==>
      (res == Done
       && (old(r.base.info.status) == ERROR ==>
             r.base.info == Updated(old(r.base.info), RUNNING, "running", None, now)
             && r.base.notices == old(r.base.notices) + Notices(old(r.base.info), RUNNING, "running", None, now, r.base.cbStatus))
       && (old(r.base.info.status) != ERROR ==> r.base.info == old(r.base.info) && r.base.notices == old(r.base.notices)))
    ensures (exists k :: 0 <= k < 4 && !outcomes[k].Found?) ==>
      res == Raise(ReaderError("Antenna error: " + AntennaList(Failed(outcomes, 4))))
      && r.base.info == old(r.base.info) && r.base.notices == old(r.base.notices)
  {
    var aliased := r.errors.Some?;
    var failed: seq<int> := [];
    for antenna := 1 to 5
      invariant failed == Failed(outcomes, antenna - 1)
      invariant r.errors == ErrorsAfter(old(r.errors), aliased, outcomes[..antenna - 1])
      invariant r.base.info == old(r.base.info) && r.base.notices == old(r.base.notices)
    {
      assert outcomes[..antenna][..antenna - 1] == outcomes[..antenna - 1];
      match outcomes[antenna - 1]
      case Found =>
        if aliased && r.errors.Some? && AntennaKey(antenna) in r.errors.value {
          r.errors := Some(r.errors.value - {AntennaKey(antenna)});
        }
      case Recorded(key, text) =>
        r.errors := Some(ErrorsWith(r.errors, key, text));
        failed := failed + [antenna];
      case Raised =>
        failed := failed + [antenna];
    }
    assert outcomes[..4] == outcomes;
    if |failed| == 0 {
      FailedEmpty(outcomes, 4);
      r.errors := None;
      if r.base.info.status == ERROR {
        r.base.UpdateStatus(RUNNING, "running", None, now);
      }
      return Done;
    }
    FailedMembers(outcomes, 4, failed[0]);
    return Raise(ReaderError("Antenna error: " + AntennaList(failed)));
  }

  lemma {:induction false} FailedEmpty(outcomes: seq<AntennaOutcome>, upTo: nat)
    requires upTo <= |outcomes| && |Failed(outcomes, upTo)| == 0
    ensures forall k :: 0 <= k < upTo ==> outcomes[k].Found?
  {
    if upTo > 0 {
      FailedEmpty(outcomes, upTo - 1);
    }
  }

  /** The failed antennas are exactly those whose inventory did not succeed. */
  lemma {:induction false} FailedMembers(outcomes: seq<AntennaOutcome>, upTo: nat, a: int)
    requires upTo <= |outcomes|
    ensures a in Failed(outcomes, upTo) <==> 1 <= a <= upTo && !outcomes[a - 1].Found?
  {
    if upTo > 0 {
      FailedMembers(outcomes, upTo - 1, a);
    }
  }
}
