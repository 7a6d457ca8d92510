/** The UHF reader of the Gen2 engine: the Q-value computation with its defaults, the
    inventory settings query and command, the mask queries, and the handler for pushed
    inventory lines (shared with the AT reader, which calls its listeners unconditionally).
    The inventory line parser is `UhfReaderAt.Inventory` with the `Gen2Parser` variant. */
module UhfReaderGen2 {
  import opened Results
  import opened Text
  import opened Tags
  import opened Status
  import opened Readers
  import AT = ReaderAt
  import U = UhfReaderAt

  /** A command of the Gen2 engine: the echo is always read, the device's error text is
      reported as it is. */
  method Command(r: Reader, command: string, params: seq<AT.Param>, replies: seq<string>)
    returns (res: Result<seq<string>>)
    modifies r`receiveBuffer, r`sent
    ensures var sc := AT.PrepareCommand(command, params);
      var spec := AT.CommandReply(replies, command, sc, true, r.base.info.status >= 1, AT.Gen2Dialect, AT.PlainError);
      (old(r.connected) ==> r.sent == old(r.sent) + [sc + "\r"] && res == spec.0 && r.receiveBuffer == replies[spec.1..])
      && (!old(r.connected) ==> r.sent == old(r.sent) && res == Err(ReaderError("Not connected")) && r.receiveBuffer == [])
  {
    res := AT.SendCommand(r, command, params, replies, true, AT.Gen2Dialect, AT.PlainError);
  }

  /** The reply of a Gen2 command, as a function of the replies the device sends. */
  function Reply(r: Reader, command: string, params: seq<AT.Param>, replies: seq<string>): Result<seq<string>>
    reads r, r.base
  {
    if !r.connected then Err(ReaderError("Not connected"))
    else AT.CommandReply(replies, command, AT.PrepareCommand(command, params), true, r.base.info.status >= 1,
                         AT.Gen2Dialect, AT.PlainError).0
  }

  // ------------------------------------------------------------ the Q value

  /** The Q value for the maximum: none when `max_tags` is 0. */
  function QMaxParam(maxTags: int): AT.Param
  {
    if maxTags != 0 then AT.PInt(U.LeastQ(maxTags)) else AT.PNone
  }

  /** The parameters of `AT+Q` from `set_tag_size(tags_size, min_tags, max_tags)`. A zero
      `min_tags` gives 0, which is also the least exponent covering 0. */
  function TagSizeParams(tagsSize: int, minTags: int, maxTags: int): seq<AT.Param>
  {
    [AT.PInt(U.LeastQ(tagsSize)), AT.PInt(U.LeastQ(minTags)), QMaxParam(maxTags)]
  }

  /** `set_tag_size(tags_size, min_tags, max_tags)`: three `ceil(log2)` loops, the minimum
      skipped (0) when `min_tags` is 0, the maximum left out when `max_tags` is 0. No
      combination of bounds is refused. */
  method SetTagSize(r: Reader, tagsSize: int, minTags: int, maxTags: int, replies: seq<string>) returns (res: Outcome)
    modifies r`receiveBuffer, r`sent
    ensures var params := TagSizeParams(tagsSize, minTags, maxTags);
      (old(r.connected) ==> r.sent == old(r.sent) + [AT.PrepareCommand("AT+Q", params) + "\r"])
      && (!old(r.connected) ==> r.sent == old(r.sent))
      && res == U.OutcomeOf(old(Reply(r, "AT+Q", params, replies)))
  {
    var qStart := U.CeilLog2(tagsSize);
    var qMin := 0;
    if minTags != 0 {
      qMin := U.CeilLog2(minTags);
    }
    var qMax := AT.PNone;
    if maxTags != 0 {
      var q := U.CeilLog2(maxTags);
      qMax := AT.PInt(q);
    }
    assert U.LeastQ(0) == 0;
    var reply := Command(r, "AT+Q", [AT.PInt(qStart), AT.PInt(qMin), qMax], replies);
    res := U.OutcomeOf(reply);
  }

  /** Each exponent sent is the least whose power of two covers its number; the maximum is
      absent exactly when `max_tags` is 0. */
  lemma TagSizeExponents(tagsSize: int, minTags: int, maxTags: int)
    ensures var p := TagSizeParams(tagsSize, minTags, maxTags);
      |p| == 3 && p[0].PInt? && p[1].PInt?
      && p[0].i >= 0 && tagsSize <= U.Pow2(p[0].i) && (p[0].i > 0 ==> U.Pow2(p[0].i - 1) < tagsSize)
      && p[1].i >= 0 && minTags <= U.Pow2(p[1].i) && (p[1].i > 0 ==> U.Pow2(p[1].i - 1) < minTags)
      && (minTags == 0 ==> p[1].i == 0)
      && (p[2].PNone? <==> maxTags == 0)
      && (p[2].PInt? ==> p[2].i >= 0 && maxTags <= U.Pow2(p[2].i) && (p[2].i > 0 ==> U.Pow2(p[2].i - 1) < maxTags))
  {
    U.LeastQIsLeast(tagsSize);
    U.LeastQIsLeast(minTags);
    U.LeastQIsLeast(maxTags);
    U.LeastQUnique(0, 0);
  }

  /** The defaults `min_tags = 0` and `max_tags = 32768` send the bounds 0 and 15. */
  lemma TagSizeDefaults(tagsSize: int)
    ensures TagSizeParams(tagsSize, 0, 32768) == [AT.PInt(U.LeastQ(tagsSize)), AT.PInt(0), AT.PInt(15)]
  {
    U.LeastQUnique(0, 0);
    assert U.Pow2(15) == 32768 by {
      assert U.Pow2(5) == 32;
      assert U.Pow2(10) == 1024;
    }
    forall j: nat | j < 15
      ensures U.Pow2(j) < 32768
    {
      U.Pow2Monotone(j, 14);
      assert U.Pow2(14) == 16384 by {
        assert U.Pow2(7) == 128;
      }
    }
    U.LeastQUnique(32768, 15);
  }

  // ------------------------------------------------------------ inventory settings

  /** `config['inventory']` of the Gen2 reader. */
  datatype InventoryConfig = InventoryConfig(onlyNewTag: bool, withRssi: bool, withTid: bool)

  /** The error for a settings reply that is too short. */
  function SettingsError(response: seq<string>): Error
  {
    ReaderError("Not expected response for command AT+INVS? - " + AT.ListText(response))
  }

  /** `get_inventory_settings`'s parsing: characters 7, 9 and 11 of the first reply line, each
      true when it is '1'. */
  function SettingsOf(response: seq<string>): Result<InventoryConfig>
  {
    if |response| == 0 || |response[0]| <= 11 then Err(SettingsError(response))
    else Ok(InventoryConfig(response[0][7] == '1', response[0][9] == '1', response[0][11] == '1'))
  }

  /** The parameters of `AT+INVS` from `set_inventory_settings`. */
  function SettingsParams(c: InventoryConfig): seq<AT.Param>
  {
    [AT.BoolParam(c.onlyNewTag), AT.BoolParam(c.withRssi), AT.BoolParam(c.withTid)]
  }

  /** The settings as the device reports them, in the format of the query's answer. */
  function SettingsLine(c: InventoryConfig): string
  {
    "+INVS: " + Join(AT.Present(SettingsParams(c)), ",")
  }

  /** What `set_inventory_settings` sends is what `get_inventory_settings` reads back when the
      device answers with the same arguments: the round trip gives the settings again, and
      the command carries the answer's payload after the `=`. */
  lemma SettingsRoundTrip(c: InventoryConfig, more: seq<string>)
    ensures SettingsOf([SettingsLine(c)] + more) == Ok(c)
    ensures AT.PrepareCommand("AT+INVS", SettingsParams(c)) == "AT+INVS=" + SettingsLine(c)[7..]
  {
    var j := AT.FlagsPayload(c.onlyNewTag, c.withRssi, c.withTid);
    var line := SettingsLine(c);
    assert |"+INVS: "| == 7;
    assert line[7..] == j;
    assert line[7] == j[0] && line[9] == j[2] && line[11] == j[4];
    assert ([line] + more)[0] == line;
    assert "AT+INVS" + "=" + j == "AT+INVS=" + j;
  }

  /** A reply line shorter than 12 characters, or no line at all, is refused with the reply
      in the message. */
  lemma SettingsShort(response: seq<string>)
    ensures SettingsOf(response).Err? <==> |response| == 0 || |response[0]| < 12
    ensures SettingsOf(response).Err? ==> SettingsOf(response).error == SettingsError(response)
  {
  }

  /** `get_inventory_settings`. */
  method GetInventorySettings(r: Reader, replies: seq<string>) returns (res: Result<InventoryConfig>)
    modifies r`receiveBuffer, r`sent
    ensures var reply := old(Reply(r, "AT+INVS?", [], replies));
      res == (if reply.Err? then Err(reply.error) else SettingsOf(reply.value))
    ensures old(r.connected) ==> r.sent == old(r.sent) + ["AT+INVS?\r"]
    ensures !old(r.connected) ==> r.sent == old(r.sent)
  {
    assert AT.PrepareCommand("AT+INVS?", []) + "\r" == "AT+INVS?\r";
    var reply := Command(r, "AT+INVS?", [], replies);
    if reply.Err? {
      return Err(reply.error);
    }
    res := SettingsOf(reply.value);
  }

  /** `_config_reader`'s use of the settings: they become the parser's configuration; the
      Gen2 parser knows no phase. */
  function ParserSettings(c: InventoryConfig): U.InventorySettings
  {
    U.InventorySettings(c.withTid, c.withRssi, false)
  }

  /** `set_inventory_settings(only_new_tag, with_rssi, with_tid)`: `AT+INVS` with the flags as
      0/1; the configuration changes only when the command succeeds. */
  method SetInventorySettings(u: U.UhfReader, c: InventoryConfig, replies: seq<string>) returns (res: Outcome)
    modifies u.reader`receiveBuffer, u.reader`sent, u`settings
    ensures var reply := old(Reply(u.reader, "AT+INVS", SettingsParams(c), replies));
      res == U.OutcomeOf(reply)
      && u.settings == (if reply.Ok? then ParserSettings(c) else old(u.settings))
    ensures old(u.reader.connected) ==>
      u.reader.sent == old(u.reader.sent) + [AT.PrepareCommand("AT+INVS", SettingsParams(c)) + "\r"]
    ensures !old(u.reader.connected) ==> u.reader.sent == old(u.reader.sent)
  {
    var reply := Command(u.reader, "AT+INVS", [AT.BoolParam(c.onlyNewTag), AT.BoolParam(c.withRssi), AT.BoolParam(c.withTid)], replies);
    if reply.Err? {
      return Raise(reply.error);
    }
    u.settings := ParserSettings(c);
    res := Done;
  }

  // ------------------------------------------------------------ masks

  /** A mask as `get_mask` and `get_bit_mask` report it. */
  datatype Mask = MaskOff | MaskOn(memory: string, start: int, mask: string)

  /** The parsing of `get_mask` (fields from 6) and `get_bit_mask` (fields from 7): "OFF",
      or memory, start and mask; a missing field or a start that is not a number raises. */
  function MaskOf(response: seq<string>, prefix: nat): Result<Mask>
  {
    if |response| == 0 then Err(AT.IndexError)
    else
      var data := Split(From(response[0], prefix), ',');
      if data[0] == "OFF" then Ok(MaskOff)
      else if |data| < 2 then Err(AT.IndexError)
      else match U.IntField(data[1])
        case Err(e) => Err(e)
        case Ok(start) => if |data| < 3 then Err(AT.IndexError) else Ok(MaskOn(data[0], start, data[2]))
  }

  /** The parameters `set_mask` and `set_bit_mask` send. */
  function MaskParams(memory: string, start: int, mask: string): seq<AT.Param>
  {
    [AT.PStr(memory), AT.PInt(start), AT.PStr(mask)]
  }

  /** The payload of the mask commands: memory, start and mask joined by commas. */
  lemma MaskPayload(command: string, memory: string, start: int, mask: string)
    ensures AT.PrepareCommand(command, MaskParams(memory, start, mask))
            == command + "=" + Join([memory, IntToString(start), mask], ",")
  {
    AT.PresentThree(AT.PStr(memory), AT.PInt(start), AT.PStr(mask));
  }

  /** A device that reports the mask it was given with `set_mask` (or `set_bit_mask`): the
      answer `<prefix>` plus the command's payload parses back to the same mask, provided the
      memory is not "OFF" and neither text holds a comma. */
  lemma MaskRoundTrip(prefix: string, memory: string, start: int, mask: string, more: seq<string>)
    requires ',' !in memory && ',' !in mask && memory != "OFF"
    ensures var payload := Join([memory, IntToString(start), mask], ",");
      MaskOf([prefix + payload] + more, |prefix|) == Ok(MaskOn(memory, start, mask))
  {
    var digits := IntToString(start);
    IntExcludes(digits, ',');
    var parts := [memory, digits, mask];
    var payload := Join(parts, ",");
    assert parts[1..] == [digits, mask] && [digits, mask][1..] == [mask];
    assert ([prefix + payload] + more)[0] == prefix + payload;
    assert From(prefix + payload, |prefix|) == payload;
    SplitJoin(parts, ',');
  }

  /** `reset_mask` sends "OFF", and the answer "OFF" reads as no mask. */
  lemma MaskOffRoundTrip(prefix: string, more: seq<string>)
    ensures AT.PrepareCommand("AT+MSK", [AT.PStr("OFF")]) == "AT+MSK=OFF"
    ensures MaskOf([prefix + "OFF"] + more, |prefix|) == Ok(MaskOff)
  {
    AT.PrepareCommandOne("AT+MSK", "OFF");
    assert ([prefix + "OFF"] + more)[0] == prefix + "OFF";
    assert From(prefix + "OFF", |prefix|) == "OFF";
    SplitFree("OFF", ',');
  }

  /** A reply whose first field is not "OFF" and that has no second field raises. */
  lemma MaskMissingStart(line: string, prefix: nat, more: seq<string>)
    requires ',' !in From(line, prefix) && From(line, prefix) != "OFF"
    ensures MaskOf([line] + more, prefix) == Err(AT.IndexError)
  {
    assert ([line] + more)[0] == line;
    SplitFree(From(line, prefix), ',');
  }

  /** `get_mask`: `AT+MSK?`, fields from offset 6. */
  method GetMask(r: Reader, replies: seq<string>) returns (res: Result<Mask>)
    modifies r`receiveBuffer, r`sent
    ensures var reply := old(Reply(r, "AT+MSK?", [], replies));
      res == (if reply.Err? then Err(reply.error) else MaskOf(reply.value, 6))
    ensures old(r.connected) ==> r.sent == old(r.sent) + ["AT+MSK?\r"]
    ensures !old(r.connected) ==> r.sent == old(r.sent)
  {
    assert AT.PrepareCommand("AT+MSK?", []) + "\r" == "AT+MSK?\r";
    var reply := Command(r, "AT+MSK?", [], replies);
    if reply.Err? {
      return Err(reply.error);
    }
    res := MaskOf(reply.value, 6);
  }

  /** `get_bit_mask`: `AT+BMSK?`, fields from offset 7. */
  method GetBitMask(r: Reader, replies: seq<string>) returns (res: Result<Mask>)
    modifies r`receiveBuffer, r`sent
    ensures var reply := old(Reply(r, "AT+BMSK?", [], replies));
      res == (if reply.Err? then Err(reply.error) else MaskOf(reply.value, 7))
    ensures old(r.connected) ==> r.sent == old(r.sent) + ["AT+BMSK?\r"]
    ensures !old(r.connected) ==> r.sent == old(r.sent)
  {
    assert AT.PrepareCommand("AT+BMSK?", []) + "\r" == "AT+BMSK?\r";
    var reply := Command(r, "AT+BMSK?", [], replies);
    if reply.Err? {
      return Err(reply.error);
    }
    res := MaskOf(reply.value, 7);
  }

  /** `set_mask(mask, start, memory)` (`AT+MSK`) and `set_bit_mask` (`AT+BMSK`). */
  method SetMask(r: Reader, command: string, mask: string, start: int, memory: string, replies: seq<string>)
    returns (res: Outcome)
    requires command == "AT+MSK" || command == "AT+BMSK"
    modifies r`receiveBuffer, r`sent
    ensures res == U.OutcomeOf(old(Reply(r, command, MaskParams(memory, start, mask), replies)))
    ensures old(r.connected) ==> r.sent == old(r.sent) + [AT.PrepareCommand(command, MaskParams(memory, start, mask)) + "\r"]
    ensures !old(r.connected) ==> r.sent == old(r.sent)
  {
    var reply := Command(r, command, [AT.PStr(memory), AT.PInt(start), AT.PStr(mask)], replies);
    res := U.OutcomeOf(reply);
  }

  // ------------------------------------------------------------ pushed inventory lines

  /** Where `_handle_inventory_events` sends a pushed line, and from which offset its fields
      are read. */
  datatype Route = Route(split: nat, isReport: bool)

  /** `+CMINV` (character 2 is 'M': offset 8), `+CINVR` (character 5 is 'R': a report,
      offset 8), anything else `+CINV` (offset 7). A line too short for the test raises. */
  function RouteOf(msg: string): Result<Route>
  {
    if |msg| <= 2 then Err(AT.IndexError)
    else if msg[2] == 'M' then Ok(Route(8, false))
    else if |msg| <= 5 then Err(AT.IndexError)
    else if msg[5] == 'R' then Ok(Route(8, true))
    else Ok(Route(7, false))
  }

  /** Each event prefix is routed to its listener with the offset just past the prefix. */
  lemma RoutesByPrefix(rest: string)
    ensures RouteOf("+CMINV: " + rest) == Ok(Route(|"+CMINV: "|, false))
    ensures RouteOf("+CINVR: " + rest) == Ok(Route(|"+CINVR: "|, true))
    ensures RouteOf("+CINV: " + rest) == Ok(Route(|"+CINV: "|, false))
  {
  }

  /** Whether the listener of a route is set. The Gen2 reader drops a line unparsed when it is
      not; the AT reader (`AtParser`) handles it anyway. */
  predicate Listening(u: U.UhfReader, route: Route, variant: U.Variant)
    reads u, u.reader
  {
    variant == U.AtParser || (if route.isReport then u.cbInventoryReport.Some? else u.reader.cbInventory.Some?)
  }

  /** The parse of a pushed line: its carriage-return lines read from the route's offset. */
  function EventParse(u: U.UhfReader, msg: string, route: Route, timestamp: real, variant: U.Variant): U.Parsed
    reads u, u.reader
  {
    U.Inventory(Split(msg, '\r'), U.OptionsOf(u, route.split, route.isReport, timestamp, variant), u.reader.errors)
  }

  /** `_handle_inventory_events(msg, timestamp)` of the Gen2 reader (`Gen2Parser`) or the AT
      reader (`AtParser`): route the line, parse it, hand the tags to the inventory callback or
      map (continuous) or to the report callback. A reader exception from the parse becomes a
      WARNING, unless an antenna error is already shown; any other error is raised. */
  method HandleInventoryEvents(u: U.UhfReader, msg: string, timestamp: real, now: real, variant: U.Variant)
    returns (res: Outcome)
    modifies u.reader`errors, u.reader`events, u.reader`inventory, u.reader.base`info, u.reader.base`notices
    ensures var route := RouteOf(msg);
      var parsed := if route.Ok? && old(Listening(u, route.value, variant))
        then old(EventParse(u, msg, route.value, timestamp, variant)) else U.Parsed(Ok([]), old(u.reader.errors));
      var failed := route.Err? || parsed.result.Err?;
      var error := if route.Err? then route.error else if parsed.result.Err? then parsed.result.error else AT.IndexError;
      var warn := failed && IsReaderException(error) && !AT.AntennaErrorShown(old(u.reader.base.info));
      u.reader.errors == parsed.errors
      && res == (if failed && !IsReaderException(error) then Raise(error) else Done)
      && (route.Ok? && old(Listening(u, route.value, variant)) && parsed.result.Ok? ==>
            var batch := parsed.result.value;
            if route.value.isReport then
              u.reader.events == old(u.reader.events) + U.ReportEvents(u.cbInventoryReport, u.fireEmptyReports, batch)
              && u.reader.inventory == old(u.reader.inventory)
            else
              u.reader.events == old(u.reader.events) + InventoryEvents(u.reader.cbInventory, u.reader.fireEmptyInventories, batch)
              && u.reader.inventory == InventoryAfterFire(old(u.reader.inventory), u.reader.cbInventory, batch, true))
      && (!(route.Ok? && old(Listening(u, route.value, variant)) && parsed.result.Ok?) ==>
            u.reader.events == old(u.reader.events) && u.reader.inventory == old(u.reader.inventory))
      && u.reader.base.info == (if warn then Updated(old(u.reader.base.info), WARNING, error.msg, None, now) else old(u.reader.base.info))
      && u.reader.base.notices == old(u.reader.base.notices) +
           (if warn then Notices(old(u.reader.base.info), WARNING, error.msg, None, now, u.reader.base.cbStatus) else [])
  {
    var route := RouteOf(msg);
    var result: Result<seq<TagVal>>;
    if route.Err? {
      result := Err(route.error);
    } else if !Listening(u, route.value, variant) {
      return Done;
    } else {
      result := U.ParseInventory(u, Split(msg, '\r'), timestamp, route.value.split, route.value.isReport, variant);
      if result.Ok? {
        if route.value.isReport {
          u.FireInventoryReportEvent(result.value, true);
        } else {
          u.reader.FireInventoryEvent(result.value, true);
        }
        return Done;
      }
    }
    if !IsReaderException(result.error) {
      return Raise(result.error);
    }
    if u.reader.base.info.status == WARNING && Contains(Lower(u.reader.base.info.message), "antenna error") {
      return Done;
    }
    u.reader.base.UpdateStatus(WARNING, result.error.msg, None, now);
    res := Done;
  }

  /** A warning raised from a pushed line holds back later ones exactly when its text
      mentions an antenna error, in any case. */
  lemma WarningHoldsBack(s: StatusInfo, message: string, now: real)
    ensures AT.AntennaErrorShown(Updated(s, WARNING, message, None, now)) <==> Contains(Lower(message), "antenna error")
  {
  }
}
