/** The legacy HF (ISO 15693) reader: the classification of the lines the device pushes,
    the inventory report with its antenna reports, the transponder-request reply, the
    request-flags byte and command codes of the ISO 15693 requests, the decoding of the
    system information, and the RF-interface flag. */
module HfReaderGen1 {
  import opened Results
  import opened Text
  import opened Tags
  import opened HfTags
  import opened Status
  import opened Readers
  import AT = ReaderAt
  import G1 = ReaderGen1

  const ListIndexError := Fault("list index out of range")

  /** `int(s)`: surrounding white space is stripped, and the rest is read as `Text.Int`
      reads it (an optional sign and ASCII digits); anything else raises ValueError. */
  function PyInt(s: string): (r: Result<int>)
    ensures r.Ok? <==> Text.Int(Strip(s)).Some?
    ensures r.Ok? ==> r.value == Text.Int(Strip(s)).value
  {
    match Text.Int(Strip(s))
    case None => Err(Fault("invalid literal for int() with base 10: '" + s + "'"))
    case Some(i) => Ok(i)
  }

  // ------------------------------------------------------------ the reader object

  /** An HF reader of the legacy protocol on top of the engine `reader`. The request record is
      the dictionary `_last_request`; its `'timestamp'` entry holding `None` is encoded as the
      key being absent. */
  class HfReader {
    const reader: Reader
    var transponders: Option<seq<TagVal>>
    var inventoryTimestamp: Option<real>
    var inventoryRequest: Option<string>
    var lastRequest: Fields
    var cbRequest: Option<CallbackId>
    var rfiEnabled: bool
    var singleSubCarrier: Option<bool>
    var modulationDepth: Option<int>

    /** `HfReaderGen1.__init__`: no inventory and no request yet, the RF interface off. */
    constructor (reader: Reader)
      ensures this.reader == reader && transponders == None && inventoryTimestamp == None
      ensures inventoryRequest == None && lastRequest == map[] && cbRequest == None && !rfiEnabled
      ensures singleSubCarrier == None && modulationDepth == None
    {
      this.reader := reader;
      transponders := None;
      inventoryTimestamp := None;
      inventoryRequest := None;
      lastRequest := map[];
      cbRequest := None;
      rfiEnabled := false;
      singleSubCarrier := None;
      modulationDepth := None;
    }

    /** `set_cb_request`: installs the callback and returns the previous one. */
    method SetCbRequest(callback: Option<CallbackId>) returns (previous: Option<CallbackId>)
      modifies this`cbRequest
      ensures previous == old(cbRequest) && cbRequest == callback
    {
      previous := cbRequest;
      cbRequest := callback;
    }
  }

  // ------------------------------------------------------------ pushed lines

  /** What `_data_received` does with a line. */
  datatype HfAction =
    | Heartbeat
    | RequestReply(data: string)
    | InventoryReport(data: string)
    | RfOff
    | Reset
    | Queue(data: string)
    | Crash(error: Error)

  /** The last two checks of `_data_received`: a line of at least ten characters ending in
      an `IVF nn` report is an inventory, anything else is queued. */
  function ClassifyTail(d: string): HfAction
  {
    if |d| >= 10 && Slice(d, -6, -3) == "IVF" then InventoryReport(d) else Queue(d)
  }

  /** `_data_received(data)`: the last character is cut off; then `H?T` heartbeats are dropped,
      `TD…`/`TN…` are request replies, `IV…` inventories, `R?W` clears the RF flag, `SRT…` is
      dropped, and everything else goes through the tail checks. A line too short for the
      character a check reads fails to index. */
  function Classify(raw: string): HfAction
  {
    var d := Slice(raw, 0, -1);
    if |d| == 0 then Crash(AT.IndexError)
    else if d[0] == 'H' then
      if |d| < 3 then Crash(AT.IndexError) else if d[2] == 'T' then Heartbeat else ClassifyTail(d)
    else if d[0] == 'T' then
      if |d| < 2 then Crash(AT.IndexError) else if d[1] == 'D' || d[1] == 'N' then RequestReply(d) else ClassifyTail(d)
    else if d[0] == 'I' then
      if |d| < 2 then Crash(AT.IndexError) else if d[1] == 'V' then InventoryReport(d) else ClassifyTail(d)
    else if d[0] == 'R' then
      if |d| < 3 then Crash(AT.IndexError) else if d[2] == 'W' then RfOff else ClassifyTail(d)
    else if d[0] == 'S' && StartsWith(d, "SRT") then Reset
    else ClassifyTail(d)
  }

  /** The line the actions carry is the input without its last character; each prefix goes
      where the protocol sends it, and a line that starts with none of the letters is an
      inventory exactly when it ends in an `IVF` report. */
  lemma ClassifyRoutes(body: string, last: char)
    ensures var a := Classify(body + [last]);
      (a.RequestReply? ==> a.data == body) && (a.InventoryReport? ==> a.data == body) && (a.Queue? ==> a.data == body)
    ensures |body| >= 3 && body[0] == 'H' && body[2] == 'T' ==> Classify(body + [last]) == Heartbeat
    ensures |body| >= 2 && body[0] == 'T' && (body[1] == 'D' || body[1] == 'N') ==> Classify(body + [last]) == RequestReply(body)
    ensures |body| >= 2 && body[0] == 'I' && body[1] == 'V' ==> Classify(body + [last]) == InventoryReport(body)
    ensures |body| >= 3 && body[0] == 'R' && body[2] == 'W' ==> Classify(body + [last]) == RfOff
    ensures |body| >= 1 && body[0] !in "HTIRS" ==>
      Classify(body + [last]) == (if |body| >= 10 && Slice(body, -6, -3) == "IVF" then InventoryReport(body) else Queue(body))
    ensures body == "" ==> Classify(body + [last]) == Crash(AT.IndexError)
  {
    assert Slice(body + [last], 0, -1) == body;
  }

  // ------------------------------------------------------------ the inventory report

  /** Every tag carries `antenna`. */
  function StampAll(tags: seq<TagVal>, antenna: int): (r: seq<TagVal>)
    ensures |r| == |tags|
    ensures forall k :: 0 <= k < |r| ==> r[k] == Set(tags[k], "antenna", Some(Int(antenna)))
  {
    seq(|tags|, k requires 0 <= k < |tags| => Set(tags[k], "antenna", Some(Int(antenna))))
  }

  /** One line of the inventory report: an `ARP nn` antenna report stamps its number on the
      tags seen so far; any other line is the TID of a new tag. */
  function InventoryLine(line: string, tags: seq<TagVal>, now: real): Result<seq<TagVal>>
  {
    if |line| < 2 then Err(AT.IndexError)
    else if line[1] == 'R' && |line| < 3 then Err(AT.IndexError)
    else if line[1] == 'R' && line[2] == 'P' then
      match PyInt(Slice(line, -2, |line|))
      case Err(e) => Err(e)
      case Ok(a) => Ok(StampAll(tags, a))
    else Ok(tags + [HfTagOf(HfKind, line, Some(now))])
  }

  function InventoryScanned(lines: seq<string>, tags: seq<TagVal>, now: real): Result<seq<TagVal>>
    decreases |lines|
  {
    if |lines| == 0 then Ok(tags)
    else match InventoryLine(lines[0], tags, now)
      case Err(e) => Err(e)
      case Ok(next) => InventoryScanned(lines[1..], next, now)
  }

  /** `_parse_inventory(data)`: every line but the last (the `IVF` count) in order. */
  function InventoryOf(data: string, now: real): Result<seq<TagVal>>
  {
    var lines := Split(data, '\r');
    InventoryScanned(lines[..|lines| - 1], [], now)
  }

  /** `_parse_inventory` on the reader: the tags and the time are stored in the inventory
      record and handed on as a continuous inventory. A failing line leaves everything as it
      was. */
  method ParseInventory(h: HfReader, data: string, now: real) returns (res: Outcome)
    modifies h`transponders, h`inventoryTimestamp, h.reader`events, h.reader`inventory
    ensures var r := InventoryOf(data, now);
      (r.Err? ==>
         res == Raise(r.error) && h.transponders == old(h.transponders) && h.inventoryTimestamp == old(h.inventoryTimestamp)
         && h.reader.events == old(h.reader.events) && h.reader.inventory == old(h.reader.inventory))
      && (r.Ok? ==>
         res == Done && h.transponders == Some(r.value) && h.inventoryTimestamp == Some(now)
         && h.reader.events == old(h.reader.events) + InventoryEvents(h.reader.cbInventory, h.reader.fireEmptyInventories, r.value)
         && h.reader.inventory == InventoryAfterFire(old(h.reader.inventory), h.reader.cbInventory, r.value, true))
  {
    var split := Split(data, '\r');
    var lines := split[..|split| - 1];
    var tags: seq<TagVal> := [];
    var i := 0;
    assert lines[0..] == lines;
    while i < |lines|
      invariant 0 <= i <= |lines|
      invariant InventoryOf(data, now) == InventoryScanned(lines[i..], tags, now)
    {
      assert lines[i..][1..] == lines[i + 1..];
      var line := lines[i];
      if |line| < 2 || (line[1] == 'R' && |line| < 3) {
        return Raise(AT.IndexError);
      }
      if line[1] == 'R' && line[2] == 'P' {
        var antenna := PyInt(Slice(line, -2, |line|));
        if antenna.Err? {
          return Raise(antenna.error);
        }
        var stamped := tags;
        for k := 0 to |stamped|
          invariant |stamped| == |tags|
          invariant forall j :: 0 <= j < k ==> stamped[j] == Set(tags[j], "antenna", Some(Int(antenna.value)))
          invariant forall j :: k <= j < |stamped| ==> stamped[j] == tags[j]
        {
          stamped := stamped[k := Set(stamped[k], "antenna", Some(Int(antenna.value)))];
        }
        assert stamped == StampAll(tags, antenna.value);
        tags := stamped;
      } else {
        tags := tags + [HfTagOf(HfKind, line, Some(now))];
      }
      i := i + 1;
    }
    h.transponders := Some(tags);
    h.inventoryTimestamp := Some(now);
    h.reader.FireInventoryEvent(tags, true);
    res := Done;
  }

  /** A line that is a TID, not an antenna report. */
  predicate TidLine(line: string)
  {
    |line| >= 2 && line[1] != 'R'
  }

  function TidTags(lines: seq<string>, now: real): (r: seq<TagVal>)
    ensures |r| == |lines|
  {
    seq(|lines|, k requires 0 <= k < |lines| => HfTagOf(HfKind, lines[k], Some(now)))
  }

  lemma TidTagsCons(lines: seq<string>, now: real)
    requires |lines| >= 1
    ensures [HfTagOf(HfKind, lines[0], Some(now))] + TidTags(lines[1..], now) == TidTags(lines, now)
  {
    var a := [HfTagOf(HfKind, lines[0], Some(now))] + TidTags(lines[1..], now);
    forall k | 0 <= k < |lines|
      ensures a[k] == TidTags(lines, now)[k]
    {
      if k > 0 {
        assert a[k] == TidTags(lines[1..], now)[k - 1];
        assert lines[1..][k - 1] == lines[k];
      }
    }
  }

  /** TID lines add one tag each, in order. */
  lemma {:induction false} TidLinesScan(lines: seq<string>, tags: seq<TagVal>, now: real)
    requires forall k :: 0 <= k < |lines| ==> TidLine(lines[k])
    ensures InventoryScanned(lines, tags, now) == Ok(tags + TidTags(lines, now))
    decreases |lines|
  {
    if |lines| == 0 {
      assert tags + TidTags(lines, now) == tags;
    } else {
      var t := HfTagOf(HfKind, lines[0], Some(now));
      assert TidLine(lines[0]);
      var next := tags + [t];
      assert InventoryLine(lines[0], tags, now) == Ok(next);
      assert InventoryScanned(lines, tags, now) == InventoryScanned(lines[1..], next, now);
      assert forall k :: 0 <= k < |lines[1..]| ==> TidLine(lines[1..][k]) by {
        forall k | 0 <= k < |lines[1..]| ensures TidLine(lines[1..][k]) {
          assert lines[1..][k] == lines[k + 1];
        }
      }
      TidLinesScan(lines[1..], next, now);
      TidTagsCons(lines, now);
      assert next + TidTags(lines[1..], now) == tags + TidTags(lines, now);
    }
  }

  /** Scanning two runs of lines is scanning the second from where the first ended. */
  lemma {:induction false} ScannedAppend(a: seq<string>, b: seq<string>, tags: seq<TagVal>, now: real)
    ensures InventoryScanned(a + b, tags, now) ==
      match InventoryScanned(a, tags, now) case Err(e) => Err(e) case Ok(t) => InventoryScanned(b, t, now)
    decreases |a|
  {
    if |a| == 0 {
      assert a + b == b;
    } else {
      assert (a + b)[0] == a[0] && (a + b)[1..] == a[1..] + b;
      match InventoryLine(a[0], tags, now)
      case Err(e) =>
      case Ok(next) => ScannedAppend(a[1..], b, next, now);
    }
  }

  /** The tags of TID lines, an antenna report and more TID lines: the first run stamped. */
  lemma AntennaReportScan(before: seq<string>, report: string, after: seq<string>, now: real, antenna: int)
    requires forall k :: 0 <= k < |before| ==> TidLine(before[k])
    requires forall k :: 0 <= k < |after| ==> TidLine(after[k])
    requires |report| >= 3 && report[1] == 'R' && report[2] == 'P' && PyInt(Slice(report, -2, |report|)) == Ok(antenna)
    ensures InventoryScanned(before + [report] + after, [], now) == Ok(StampAll(TidTags(before, now), antenna) + TidTags(after, now))
  {
    TidLinesScan(before, [], now);
    var t1 := TidTags(before, now);
    assert [] + t1 == t1;
    assert InventoryLine(report, t1, now) == Ok(StampAll(t1, antenna));
    assert InventoryScanned([report], t1, now) == Ok(StampAll(t1, antenna)) by {
      assert [report][0] == report && [report][1..] == [];
    }
    ScannedAppend(before, [report], [], now);
    ScannedAppend(before + [report], after, [], now);
    TidLinesScan(after, StampAll(t1, antenna), now);
  }

  lemma StampedTag(tid: string, now: real, antenna: int)
    ensures var t := Set(HfTagOf(HfKind, tid, Some(now)), "antenna", Some(Int(antenna)));
      Antenna(t) == Some(antenna) && HfTid(t) == tid
  {
    HfTagOfFields(HfKind, tid, Some(now), None, 1);
  }

  /** An antenna report stamps its antenna on the tags listed before it and on none listed
      after it: those carry no antenna at all. */
  lemma AntennaReportStampsEarlierTags(before: seq<string>, report: string, after: seq<string>, now: real, antenna: int)
    requires forall k :: 0 <= k < |before| ==> TidLine(before[k])
    requires forall k :: 0 <= k < |after| ==> TidLine(after[k])
    requires |report| >= 3 && report[1] == 'R' && report[2] == 'P' && PyInt(Slice(report, -2, |report|)) == Ok(antenna)
    ensures var r := InventoryScanned(before + [report] + after, [], now);
      r.Ok? && |r.value| == |before| + |after|
      && (forall k :: 0 <= k < |before| ==> Antenna(r.value[k]) == Some(antenna) && HfTid(r.value[k]) == before[k])
      && (forall k :: |before| <= k < |r.value| ==> "antenna" !in r.value[k].fields && HfTid(r.value[k]) == after[k - |before|])
  {
    AntennaReportScan(before, report, after, now, antenna);
    StampedThenPlain(before, after, now, antenna);
  }

  /** The stamped tags of one run of TID lines followed by the plain tags of another. */
  lemma StampedThenPlain(before: seq<string>, after: seq<string>, now: real, antenna: int)
    ensures var r := StampAll(TidTags(before, now), antenna) + TidTags(after, now);
      |r| == |before| + |after|
      && (forall k :: 0 <= k < |before| ==> Antenna(r[k]) == Some(antenna) && HfTid(r[k]) == before[k])
      && (forall k :: |before| <= k < |r| ==> "antenna" !in r[k].fields && HfTid(r[k]) == after[k - |before|])
  {
    var s := StampAll(TidTags(before, now), antenna);
    var t := TidTags(after, now);
    StampedTids(before, now, antenna);
    PlainTids(after, now);
    assert forall k :: 0 <= k < |before| ==> (s + t)[k] == s[k];
    assert forall k :: |before| <= k < |before| + |after| ==> (s + t)[k] == t[k - |before|];
  }

  lemma StampedTids(lines: seq<string>, now: real, antenna: int)
    ensures var s := StampAll(TidTags(lines, now), antenna);
      forall k :: 0 <= k < |s| ==> Antenna(s[k]) == Some(antenna) && HfTid(s[k]) == lines[k]
  {
    var s := StampAll(TidTags(lines, now), antenna);
    forall k | 0 <= k < |s|
      ensures Antenna(s[k]) == Some(antenna) && HfTid(s[k]) == lines[k]
    {
      StampedTag(lines[k], now, antenna);
    }
  }

  lemma PlainTids(lines: seq<string>, now: real)
    ensures var t := TidTags(lines, now);
      forall k :: 0 <= k < |t| ==> "antenna" !in t[k].fields && HfTid(t[k]) == lines[k]
  {
    var t := TidTags(lines, now);
    forall k | 0 <= k < |t|
      ensures "antenna" !in t[k].fields && HfTid(t[k]) == lines[k]
    {
      HfTagOfFields(HfKind, lines[k], Some(now), None, 1);
    }
  }

  // ------------------------------------------------------------ the request reply

  /** Python's `split[i]` for an index of at least -1. */
  function Item(lines: seq<string>, i: int): string
    requires -1 <= i < |lines| && |lines| >= 1
  {
    if i < 0 then lines[|lines| - 1] else lines[i]
  }

  /** The index of the status line: the last one, or the one before a trailing antenna
      report. */
  function StatusIndex(lines: seq<string>): (i: int)
    requires |lines| >= 1
    ensures -1 <= i < |lines|
  {
    if Contains(lines[|lines| - 1], "ARP") then |lines| - 2 else |lines| - 1
  }

  /** A trailing antenna report's number: the character at offset 4. */
  function RequestAntenna(lines: seq<string>): Option<Result<int>>
    requires |lines| >= 1
  {
    var last := lines[|lines| - 1];
    if !Contains(last, "ARP") then None
    else if |last| < 5 then Some(Err(AT.IndexError))
    else Some(PyInt([last[4]]))
  }

  /** The data and error of a request reply: with the status line NCL and line 2 COK, a line 1
      starting "00" carries the data between that prefix and the four CRC characters, and any
      other prefix is a transponder error code; NCL without COK reports line 2; any other
      status line is itself the error. */
  function RequestFields(lines: seq<string>): Result<(string, string)>
    requires |lines| >= 1
  {
    if Item(lines, StatusIndex(lines)) == "NCL" then
      if |lines| < 3 then Err(ListIndexError)
      else if lines[2] == "COK" then
        if Slice(lines[1], 0, 2) == "00" then Ok((Slice(lines[1], 2, -4), ""))
        else Ok(("", "TEC " + Slice(lines[1], 2, 4)))
      else Ok(("", lines[2]))
    else Ok(("", Item(lines, StatusIndex(lines))))
  }

  /** `_parse_request(data)` on the request record: the antenna is stored first, so a later
      failure keeps it; on success data, error and time are stored; the second component is
      the data or the failure. */
  function RequestUpdate(m: Fields, lines: seq<string>, now: real): (Fields, Result<string>)
    requires |lines| >= 1
  {
    var antenna := RequestAntenna(lines);
    if antenna.Some? && antenna.value.Err? then (m, Err(antenna.value.error))
    else
      var m1 := if antenna.Some? then m["antenna" := Int(antenna.value.value)] else m;
      match RequestFields(lines)
      case Err(e) => (m1, Err(e))
      case Ok(p) => (m1["data" := Str(p.0)]["error" := Str(p.1)]["timestamp" := Time(now)], Ok(p.0))
  }

  /** The calls of the request callback after a parse: one, with the data, when the parse
      succeeded with non-empty data and a callback is set. */
  function RequestEvents(cb: Option<CallbackId>, parsed: Result<string>): seq<Event>
  {
    if parsed.Ok? && cb.Some? && parsed.value != "" then [RequestFired(cb.value, parsed.value)] else []
  }

  /** `_parse_request` on the reader; the request callback gets non-empty data only. */
  method ParseRequest(h: HfReader, data: string, now: real) returns (res: Result<string>)
    modifies h`lastRequest, h.reader`events
    ensures var u := RequestUpdate(old(h.lastRequest), Split(data, '\r'), now);
      h.lastRequest == u.0 && res == u.1
      && h.reader.events == old(h.reader.events) + RequestEvents(h.cbRequest, u.1)
  {
    var split := Split(data, '\r');
    var antenna := RequestAntenna(split);
    if antenna.Some? {
      if antenna.value.Err? {
        return Err(antenna.value.error);
      }
      h.lastRequest := h.lastRequest["antenna" := Int(antenna.value.value)];
    }
    var fields := RequestFields(split);
    if fields.Err? {
      return Err(fields.error);
    }
    var tagData, error := fields.value.0, fields.value.1;
    h.lastRequest := h.lastRequest["data" := Str(tagData)]["error" := Str(error)]["timestamp" := Time(now)];
    if h.cbRequest.Some? && tagData != "" {
      h.reader.events := h.reader.events + [RequestFired(h.cbRequest.value, tagData)];
    }
    res := Ok(tagData);
  }

  /** A successful read: the data is line 1 without the "00" status and the four CRC
      characters, and there is no error. */
  lemma RequestData(head: string, payload: string, crc: string)
    requires |crc| == 4
    ensures RequestFields([head, "00" + payload + crc, "COK", "NCL"]) == Ok((payload, ""))
  {
    var line := "00" + payload + crc;
    assert Slice(line, 0, 2) == "00";
    assert Slice(line, 2, -4) == payload;
  }

  /** A transponder error: a status other than "00" is reported as "TEC" and its code. */
  lemma RequestTagError(head: string, status: string, code: string, rest: string)
    requires |status| == 2 && status != "00" && |code| == 2
    ensures RequestFields([head, status + code + rest, "COK", "NCL"]) == Ok(("", "TEC " + code))
  {
    var line := status + code + rest;
    assert Slice(line, 0, 2) == status;
    assert Slice(line, 2, 4) == code;
  }

  /** Without COK the line after the data is the error; without NCL the status line is the
      error (TNR: no tag, CDT: collision); both without data. */
  lemma RequestStatusErrors(head: string, line1: string, line2: string, status: string)
    requires line2 != "COK" && status != "NCL" && !Contains(status, "ARP")
    ensures RequestFields([head, line1, line2, "NCL"]) == Ok(("", line2))
    ensures RequestFields([status]) == Ok(("", status))
  {
    NotContainsChar("NCL", "ARP", 0);
  }

  /** A trailing antenna report `ARP d` stores antenna d and does not change the data or
      the error of the reply before it. */
  lemma RequestWithAntenna(lines: seq<string>, d: nat)
    requires (|lines| == 1 || |lines| >= 3) && !Contains(lines[|lines| - 1], "ARP") && d < 10
    ensures var more := lines + ["ARP " + [DigitChar(d)]];
      RequestAntenna(more) == Some(Ok(d)) && RequestFields(more) == RequestFields(lines)
  {
    var arp := "ARP " + [DigitChar(d)];
    var more := lines + [arp];
    assert more[|more| - 1] == arp;
    assert OccursAt(arp, "ARP", 0);
    assert [arp[4]] == [DigitChar(d)];
    DigitsNatDigits(d, 10);
    assert NatDigits(d, 10) == [DigitChar(d)];
    assert Strip([DigitChar(d)]) == [DigitChar(d)];
    assert StatusIndex(more) == |lines| - 1;
    assert StatusIndex(lines) == |lines| - 1;
    assert Item(more, |lines| - 1) == Item(lines, |lines| - 1);
    if |lines| >= 3 {
      assert more[1] == lines[1] && more[2] == lines[2];
    }
  }

  // ------------------------------------------------------------ ISO 15693 requests

  /** The request-flags byte of section 7.3.1 of ISO/IEC 15693-3 as the reader sends it:
      high data rate always, one or two sub-carriers, the Address flag when a tag id is
      given and the Option flag on request. */
  function FlagsByte(addressed: bool, optionFlag: bool, singleSubCarrier: bool): string
  {
    [if addressed then (if optionFlag then '6' else '2') else (if optionFlag then '4' else '0')]
    + [if singleSubCarrier then '2' else '3']
  }

  /** The bits of the flags byte: sub-carrier (0x01), data rate (0x02, always on), inventory
      (0x04) and select (0x10) off, address (0x20) iff a tag id is given, option (0x40) as
      requested. */
  lemma FlagsByteBits(addressed: bool, optionFlag: bool, singleSubCarrier: bool)
    ensures var f := FlagsByte(addressed, optionFlag, singleSubCarrier);
      |f| == 2 && Hex(f).Some? &&
      var v := Hex(f).value;
      0 <= v < 256 && Bit(v, 1) == !singleSubCarrier && Bit(v, 2) && !Bit(v, 4) && !Bit(v, 8)
      && !Bit(v, 16) && Bit(v, 32) == addressed && Bit(v, 64) == optionFlag && !Bit(v, 128)
  {
    var f := FlagsByte(addressed, optionFlag, singleSubCarrier);
    var hi := if addressed then (if optionFlag then 6 else 2) else (if optionFlag then 4 else 0);
    var lo := if singleSubCarrier then 2 else 3;
    assert f == [DigitChar(hi)] + [DigitChar(lo)];
    DigitsSnoc([DigitChar(hi)], lo, 16);
    assert [DigitChar(hi)] + [DigitChar(lo)] == [DigitChar(hi), DigitChar(lo)];
    assert Digits([DigitChar(hi)], 16) == Some(hi);
    assert Hex(f) == Some(hi * 16 + lo);
  }

  /** The single-sub-carrier setting; unrecorded counts as set. */
  function SingleSubCarrier(recorded: Option<bool>): bool
  {
    recorded.None? || recorded.value
  }

  /** The payload of `_send_request`: the flags byte, the command code, the tag id when one
      is given (non-empty) and the data when there is any. */
  function RequestPayload(tagCommand: string, data: Option<string>, tagId: Option<string>,
                          optionFlag: bool, single: Option<bool>): string
  {
    var addressed := tagId.Some? && tagId.value != "";
    FlagsByte(addressed, optionFlag, SingleSubCarrier(single)) + tagCommand
    + (if addressed then tagId.value else "") + (if data.Some? then data.value else "")
  }

  /** The payload reads back: two flag characters, then the command code, then the tag id
      exactly when one is addressed, then the data. */
  lemma PayloadLayout(tagCommand: string, data: Option<string>, tagId: Option<string>, optionFlag: bool,
                      single: Option<bool>)
    requires |tagCommand| == 2
    ensures var p := RequestPayload(tagCommand, data, tagId, optionFlag, single);
      var id := if tagId.Some? && tagId.value != "" then tagId.value else "";
      var d := if data.Some? then data.value else "";
      |p| == 4 + |id| + |d| && p[..2] == FlagsByte(id != "", optionFlag, SingleSubCarrier(single))
      && p[2..4] == tagCommand && p[4..4 + |id|] == id && p[4 + |id|..] == d
  {
  }

  /** The transponder operations of the reader. */
  datatype TagOp =
    | ReadBlock(block: int)
    | WriteBlock(block: int, data: string)
    | WriteAfi(afi: int)
    | LockAfi
    | WriteDsfid(dsfid: int)
    | LockDsfid
    | ReadInformation

  /** REQ for the reads, WRQ for the writes and locks. */
  function OpCommand(op: TagOp): string
  {
    if op.ReadBlock? || op.ReadInformation? then "REQ" else "WRQ"
  }

  /** The ISO 15693 command code of each operation. */
  function OpCode(op: TagOp): string
  {
    match op
    case ReadBlock(_) => "20"
    case WriteBlock(_, _) => "21"
    case WriteAfi(_) => "27"
    case LockAfi => "28"
    case WriteDsfid(_) => "29"
    case LockDsfid => "2A"
    case ReadInformation => "2B"
  }

  /** The data after the code: the block number, AFI or DSFID as `f"{x:02X}"`, then the block
      data; none for the locks and the information read. */
  function OpData(op: TagOp): Option<string>
  {
    match op
    case ReadBlock(b) => Some(HexFormat(b, 2))
    case WriteBlock(b, d) => Some(HexFormat(b, 2) + d)
    case WriteAfi(a) => Some(HexFormat(a, 2))
    case LockAfi => None
    case WriteDsfid(d) => Some(HexFormat(d, 2))
    case LockDsfid => None
    case ReadInformation => None
  }

  /** Each operation's code is the ISO 15693 command value (read single block 0x20, write
      single block 0x21, write AFI 0x27, lock AFI 0x28, write DSFID 0x29, lock DSFID 0x2A,
      get system information 0x2B), and a byte-sized argument is sent as two hex digits that
      read back as it. */
  lemma OpCodes(op: TagOp)
    ensures |OpCode(op)| == 2
    ensures Hex(OpCode(op)) == Some(match op
      case ReadBlock(_) => 0x20 case WriteBlock(_, _) => 0x21 case WriteAfi(_) => 0x27
      case LockAfi => 0x28 case WriteDsfid(_) => 0x29 case LockDsfid => 0x2A case ReadInformation => 0x2B)
    ensures (op.ReadBlock? && 0 <= op.block < 256) ==> |OpData(op).value| == 2 && Hex(OpData(op).value) == Some(op.block)
    ensures (op.WriteAfi? && 0 <= op.afi < 256) ==> |OpData(op).value| == 2 && Hex(OpData(op).value) == Some(op.afi)
    ensures (op.WriteDsfid? && 0 <= op.dsfid < 256) ==> |OpData(op).value| == 2 && Hex(OpData(op).value) == Some(op.dsfid)
  {
    OpCodeHex(op);
    match op
    case ReadBlock(b) => HexFormat2Width(b);
    case WriteAfi(a) => HexFormat2Width(a);
    case WriteDsfid(d) => HexFormat2Width(d);
    case _ =>
  }

  lemma OpCodeHex(op: TagOp)
    ensures |OpCode(op)| == 2 && Hex(OpCode(op)) == Some(16 * 2 + DigitValue(OpCode(op)[1]).value)
    ensures DigitValue(OpCode(op)[1]) == Some(match op
      case ReadBlock(_) => 0 case WriteBlock(_, _) => 1 case WriteAfi(_) => 7
      case LockAfi => 8 case WriteDsfid(_) => 9 case LockDsfid => 10 case ReadInformation => 11)
  {
    var c := OpCode(op);
    assert c == [c[0]] + [c[1]];
    DigitsSnoc([c[0]], DigitValue(c[1]).value, 16);
    assert DigitChar(DigitValue(c[1]).value) == c[1];
    assert Digits([c[0]], 16) == Some(2);
  }

  /** The command line of a request. */
  function RequestLine(h: HfReader, op: TagOp, tagId: Option<string>, optionFlag: bool): string
    reads h
  {
    G1.PrepareCommand(OpCommand(op), [AT.PStr(RequestPayload(OpCode(op), OpData(op), tagId, optionFlag, h.singleSubCarrier)), AT.PStr("CRC")])
  }

  /** The request record after a request and what the request returns, for a connected
      reader: the record loses its time and records the command, `reply` (the request reply
      the device pushes while the reader waits; `None`: nothing arrives) is parsed, and the
      record is returned once it has a time. Otherwise the wait ends in a timeout, or in "RF
      interface not enabled" when the RF flag is off. */
  function RequestOutcome(h: HfReader, op: TagOp, tagId: Option<string>, optionFlag: bool, reply: Option<string>, now: real)
    : (Fields, Result<Fields>)
    reads h
  {
    var cleared := Cleared(h, op, tagId, optionFlag);
    var parsed := if reply.Some? then RequestUpdate(cleared, Split(reply.value, '\r'), now).0 else cleared;
    (parsed,
     if "timestamp" in parsed && Truthy(parsed["timestamp"]) then Ok(parsed)
     else if h.rfiEnabled then Err(Timeout("no reader response for inventory command"))
     else Err(ReaderError("RF interface not enabled")))
  }

  /** The request record while the reader waits: no time, and the command line recorded. */
  function Cleared(h: HfReader, op: TagOp, tagId: Option<string>, optionFlag: bool): Fields
    reads h
  {
    (h.lastRequest - {"timestamp"})["request" := Str(RequestLine(h, op, tagId, optionFlag))]
  }

  /** The calls of the request callback while the reader waits: those of parsing `reply`. */
  function RequestOutcomeEvents(h: HfReader, op: TagOp, tagId: Option<string>, optionFlag: bool, reply: Option<string>, now: real)
    : seq<Event>
    reads h
  {
    if reply.None? then []
    else RequestEvents(h.cbRequest, RequestUpdate(Cleared(h, op, tagId, optionFlag), Split(reply.value, '\r'), now).1)
  }

  /** `_send_request` followed by the wait of `_get_last_request`: the command
      `<REQ|WRQ> <payload> CRC` is sent and the outcome is as above. */
  method SendRequest(h: HfReader, op: TagOp, tagId: Option<string>, optionFlag: bool, reply: Option<string>, now: real)
    returns (res: Result<Fields>)
    modifies h`lastRequest, h.reader`sent, h.reader`events
    ensures var line := old(RequestLine(h, op, tagId, optionFlag));
      var o := old(RequestOutcome(h, op, tagId, optionFlag, reply, now));
      (!old(h.reader.connected) ==>
         res == Err(ReaderError("Not connected")) && h.reader.sent == old(h.reader.sent)
         && h.lastRequest == old(Cleared(h, op, tagId, optionFlag)) && h.reader.events == old(h.reader.events))
      && (old(h.reader.connected) ==>
         h.reader.sent == old(h.reader.sent) + [line] && h.lastRequest == o.0 && res == o.1
         && h.reader.events == old(h.reader.events) + old(RequestOutcomeEvents(h, op, tagId, optionFlag, reply, now)))
  {
    ghost var o := RequestOutcome(h, op, tagId, optionFlag, reply, now);
    var line := RequestLine(h, op, tagId, optionFlag);
    h.lastRequest := (h.lastRequest - {"timestamp"})["request" := Str(line)];
    var s := h.reader.Send(line);
    if s.Raise? {
      return Err(s.error);
    }
    if reply.Some? {
      var _ := ParseRequest(h, reply.value, now);
    }
    assert h.lastRequest == o.0;
    if "timestamp" in h.lastRequest && Truthy(h.lastRequest["timestamp"]) {
      return Ok(h.lastRequest);
    }
    if h.rfiEnabled {
      return Err(Timeout("no reader response for inventory command"));
    }
    res := Err(ReaderError("RF interface not enabled"));
  }

  /** A reply that parses, at a non-zero time, ends the wait: the request returns the record
      with the reply's data. Without a reply the request fails. */
  lemma RequestCompletes(h: HfReader, op: TagOp, tagId: Option<string>, optionFlag: bool, reply: Option<string>, now: real)
    requires now != 0.0
    ensures var o := RequestOutcome(h, op, tagId, optionFlag, reply, now);
      var cleared := Cleared(h, op, tagId, optionFlag);
      (reply.Some? && RequestUpdate(cleared, Split(reply.value, '\r'), now).1.Ok? ==>
         o.1.Ok? && "data" in o.1.value && o.1.value["data"] == Str(RequestUpdate(cleared, Split(reply.value, '\r'), now).1.value))
      && (reply.None? ==> o.1.Err? && (o.1.error.Timeout? <==> h.rfiEnabled))
  {
    if reply.Some? {
      var cleared := Cleared(h, op, tagId, optionFlag);
      var lines := Split(reply.value, '\r');
      if RequestUpdate(cleared, lines, now).1.Ok? {
        RequestUpdateOk(cleared, lines, now);
      }
    }
  }

  /** A request reply that parses stamps the record with the time and stores its data. */
  lemma RequestUpdateOk(m: Fields, lines: seq<string>, now: real)
    requires |lines| >= 1 && RequestUpdate(m, lines, now).1.Ok?
    ensures var u := RequestUpdate(m, lines, now);
      "timestamp" in u.0 && u.0["timestamp"] == Time(now)
      && "data" in u.0 && u.0["data"] == Str(u.1.value)
  {
  }

  const KeyErrorData := Fault("KeyError: 'data'")

  /** What `read_tag_information` makes of the returned record: non-empty data is decoded into
      it as `HfTagInfo` decodes its information. */
  function InformationOf(m: Fields): Result<Fields>
  {
    if "data" !in m then Err(KeyErrorData)
    else if m["data"].Str? && m["data"].s != "" then AddInfo(m, m["data"].s)
    else Ok(m)
  }

  /** `read_tag_information(tag_id, option_flag)`: the get-system-information request, then
      the decoding, which writes into the request record itself. */
  method ReadTagInformation(h: HfReader, tagId: Option<string>, optionFlag: bool, reply: Option<string>, now: real)
    returns (res: Result<Fields>)
    modifies h`lastRequest, h.reader`sent, h.reader`events
    ensures old(h.reader.connected) ==>
      var o := old(RequestOutcome(h, ReadInformation, tagId, optionFlag, reply, now));
      res == (if o.1.Err? then Err(o.1.error) else InformationOf(o.1.value))
      && h.lastRequest == (if res.Ok? then res.value else o.0)
      && h.reader.sent == old(h.reader.sent) + [old(RequestLine(h, ReadInformation, tagId, optionFlag))]
      && h.reader.events == old(h.reader.events) + old(RequestOutcomeEvents(h, ReadInformation, tagId, optionFlag, reply, now))
    ensures !old(h.reader.connected) ==>
      res == Err(ReaderError("Not connected")) && h.reader.sent == old(h.reader.sent)
      && h.lastRequest == old(Cleared(h, ReadInformation, tagId, optionFlag)) && h.reader.events == old(h.reader.events)
  {
    var response := SendRequest(h, ReadInformation, tagId, optionFlag, reply, now);
    if response.Err? {
      return Err(response.error);
    }
    var m := response.value;
    if "data" !in m {
      return Err(KeyErrorData);
    }
    var data := m["data"];
    if !(data.Str? && data.s != "") {
      return Ok(m);
    }
    var decoded := AddInfo(m, data.s);
    if decoded.Err? {
      return Err(decoded.error);
    }
    h.lastRequest := decoded.value;
    res := Ok(decoded.value);
  }

  // ------------------------------------------------------------ the RF interface

  /** `enable_rf_interface(is_single_sub_carrier, modulation_depth)`: only depths 10 and 100
      are accepted; on success the sub-carrier setting is recorded as single whatever the
      argument, the depth is recorded and the RF flag is set. */
  method EnableRfInterface(h: HfReader, isSingleSubCarrier: bool, modulationDepth: int, replies: seq<string>)
    returns (res: Outcome)
    modifies h.reader`receiveBuffer, h.reader`sent, h`singleSubCarrier, h`modulationDepth, h`rfiEnabled
    ensures modulationDepth != 10 && modulationDepth != 100 ==>
      res == Raise(ReaderError("Modulation depth must be 100 or 10")) && h.reader.sent == old(h.reader.sent)
      && h.rfiEnabled == old(h.rfiEnabled) && h.singleSubCarrier == old(h.singleSubCarrier)
    ensures (modulationDepth == 10 || modulationDepth == 100) && old(h.reader.connected) ==>
      var params := [AT.PStr(if isSingleSubCarrier then "SS" else "DS"), AT.PInt(modulationDepth)];
      var e := G1.Exchange(old(h.reader.receiveBuffer) + replies, G1.TimeoutText("SRI", params));
      h.reader.sent == old(h.reader.sent) + [G1.PrepareCommand("SRI", params)]
      && res == G1.SetReply(e.0, "SRI", params) && h.reader.receiveBuffer == e.1
      && (res.Done? ==> h.singleSubCarrier == Some(true) && h.modulationDepth == Some(modulationDepth) && h.rfiEnabled)
      && (res.Raise? ==> h.singleSubCarrier == old(h.singleSubCarrier) && h.modulationDepth == old(h.modulationDepth)
                         && h.rfiEnabled == old(h.rfiEnabled))
    ensures (modulationDepth == 10 || modulationDepth == 100) && !old(h.reader.connected) ==>
      res == Raise(ReaderError("Not connected")) && h.reader.sent == old(h.reader.sent)
      && h.reader.receiveBuffer == old(h.reader.receiveBuffer)
    ensures !old(h.reader.connected) ==> h.rfiEnabled == old(h.rfiEnabled) && res.Raise?
  {
    if modulationDepth != 10 && modulationDepth != 100 {
      return Raise(ReaderError("Modulation depth must be 100 or 10"));
    }
    res := G1.SetCommand(h.reader, "SRI", [AT.PStr(if isSingleSubCarrier then "SS" else "DS"), AT.PInt(modulationDepth)], replies);
    if res.Raise? {
      return;
    }
    h.singleSubCarrier := Some(true);
    h.modulationDepth := Some(modulationDepth);
    h.rfiEnabled := true;
  }

  /** `disable_rf_interface`: `SRI OFF`; the RF flag is cleared on success. */
  method DisableRfInterface(h: HfReader, replies: seq<string>) returns (res: Outcome)
    modifies h.reader`receiveBuffer, h.reader`sent, h`rfiEnabled
    ensures old(h.reader.connected) ==>
      var e := G1.Exchange(old(h.reader.receiveBuffer) + replies, G1.TimeoutText("SRI", [AT.PStr("OFF")]));
      h.reader.sent == old(h.reader.sent) + ["SRI OFF\r"] && res == G1.SetReply(e.0, "SRI", [AT.PStr("OFF")])
      && h.reader.receiveBuffer == e.1
    ensures !old(h.reader.connected) ==>
      res == Raise(ReaderError("Not connected")) && h.reader.sent == old(h.reader.sent)
      && h.reader.receiveBuffer == old(h.reader.receiveBuffer)
    ensures h.rfiEnabled == (if res.Done? then false else old(h.rfiEnabled))
  {
    assert G1.PrepareCommand("SRI", [AT.PStr("OFF")]) == "SRI OFF\r" by {
      assert AT.Present([AT.PStr("OFF")]) == ["OFF"] by {
        assert [AT.PStr("OFF")][..0] == [];
      }
    }
    res := G1.SetCommand(h.reader, "SRI", [AT.PStr("OFF")], replies);
    if res.Done? {
      h.rfiEnabled := false;
    }
  }

  /** The RF flag after enabling with the double sub-carrier still makes requests claim a
      single sub-carrier. */
  lemma SubCarrierAfterEnable(recordedAfterEnable: Option<bool>, tagCommand: string)
    requires recordedAfterEnable == Some(true)
    ensures RequestPayload(tagCommand, None, None, false, recordedAfterEnable)[1] == '2'
  {
  }

  // ------------------------------------------------------------ _data_received

  /** `_data_received` on the reader. */
  method DataReceived(h: HfReader, raw: string, now: real) returns (res: Outcome)
    modifies h.reader`receiveBuffer, h`rfiEnabled, h`lastRequest, h`transponders, h`inventoryTimestamp,
             h.reader`events, h.reader`inventory
    ensures var a := Classify(raw);
      h.reader.receiveBuffer == old(h.reader.receiveBuffer) + (if a.Queue? then [a.data] else [])
      && h.rfiEnabled == (if a.RfOff? then false else old(h.rfiEnabled))
      && (a.Crash? ==> res == Raise(a.error))
      && (a.Heartbeat? || a.Reset? || a.RfOff? || a.Queue? ==> res == Done)
      && (!a.RequestReply? ==> h.lastRequest == old(h.lastRequest))
      && (a.RequestReply? ==>
            var u := RequestUpdate(old(h.lastRequest), Split(a.data, '\r'), now);
            h.lastRequest == u.0 && res == (if u.1.Err? then Raise(u.1.error) else Done)
            && h.reader.events == old(h.reader.events) + RequestEvents(h.cbRequest, u.1))
      && (!a.InventoryReport? ==>
            h.transponders == old(h.transponders) && h.inventoryTimestamp == old(h.inventoryTimestamp)
            && h.reader.inventory == old(h.reader.inventory))
      && (a.InventoryReport? ==>
            var r := InventoryOf(a.data, now);
            res == (if r.Err? then Raise(r.error) else Done)
            && h.transponders == (if r.Ok? then Some(r.value) else old(h.transponders))
            && h.inventoryTimestamp == (if r.Ok? then Some(now) else old(h.inventoryTimestamp))
            && h.reader.events == old(h.reader.events)
                 + (if r.Ok? then InventoryEvents(h.reader.cbInventory, h.reader.fireEmptyInventories, r.value) else [])
            && h.reader.inventory == (if r.Ok? then InventoryAfterFire(old(h.reader.inventory), h.reader.cbInventory, r.value, true)
                                      else old(h.reader.inventory)))
      && (!a.RequestReply? && !a.InventoryReport? ==> h.reader.events == old(h.reader.events))
  {
    var a := Classify(raw);
    match a
    case Crash(e) => res := Raise(e);
    case Heartbeat => res := Done;
    case Reset => res := Done;
    case RfOff =>
      h.rfiEnabled := false;
      res := Done;
    case Queue(d) =>
      h.reader.AddDataToReceiveBuffer(d);
      res := Done;
    case RequestReply(d) =>
      var r := ParseRequest(h, d, now);
      res := if r.Err? then Raise(r.error) else Done;
    case InventoryReport(d) =>
      res := ParseInventory(h, d, now);
  }
}
