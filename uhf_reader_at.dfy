/** The UHF readers of the AT protocol: the inventory parser with its markers, antenna
    stamping and error map, the multi-antenna inventory, the tag-status responses, the Q-value
    computation and the EPC rewrite. The line-group parser is shared with the UHF Gen2 reader,
    which differs in three places (`Variant`). */
module UhfReaderAt {
  import opened Results
  import opened Text
  import opened Tags
  import opened UhfTags
  import opened Status
  import opened Readers
  import AT = ReaderAt

  // ------------------------------------------------------------ the reader object

  /** `config['inventory']`: which optional fields an inventory line carries. */
  datatype InventorySettings = InventorySettings(withTid: bool, withRssi: bool, withPhase: bool)

  /** A UHF reader: the protocol engine's state plus the report callback, the fire-empty-reports
      switch and the inventory settings read from the device. */
  class UhfReader {
    const reader: Reader
    var cbInventoryReport: Option<CallbackId>
    var fireEmptyReports: bool
    var settings: InventorySettings

    /** `UhfReaderAT.__init__` on top of an engine `reader`. */
    constructor (reader: Reader, settings: InventorySettings)
      ensures this.reader == reader && this.settings == settings
      ensures cbInventoryReport == None && !fireEmptyReports
    {
      this.reader := reader;
      this.settings := settings;
      cbInventoryReport := None;
      fireEmptyReports := false;
    }

    /** `set_cb_inventory_report`: installs the callback and returns the previous one. */
    method SetCbInventoryReport(callback: Option<CallbackId>) returns (previous: Option<CallbackId>)
      modifies this`cbInventoryReport
      ensures previous == old(cbInventoryReport) && cbInventoryReport == callback
    {
      previous := cbInventoryReport;
      cbInventoryReport := callback;
    }

    method EnableFireEmptyReports(enable: bool)
      modifies this`fireEmptyReports
      ensures fireEmptyReports == enable
    {
      fireEmptyReports := enable;
    }

    /** `_fire_inventory_report_event`: the report callback gets the batch unless it is empty
        and empty reports are not fired. Without a callback the continuous case calls the
        coroutine `_update_inventory` without awaiting it, which has no effect. */
    method FireInventoryReportEvent(batch: seq<TagVal>, continuous: bool)
      modifies reader`events
      ensures reader.events == old(reader.events) + ReportEvents(cbInventoryReport, fireEmptyReports, batch)
    {
      if cbInventoryReport.None? {
        return;
      }
      if !fireEmptyReports && |batch| == 0 {
        return;
      }
      reader.events := reader.events + [ReportFired(cbInventoryReport.value, batch)];
    }
  }

  /** The report callback calls a report produces. */
  function ReportEvents(cb: Option<CallbackId>, fireEmpty: bool, batch: seq<TagVal>): seq<Event>
  {
    if cb.Some? && (fireEmpty || |batch| > 0) then [ReportFired(cb.value, batch)] else []
  }

  /** A report reaches the report callback exactly when one is set and the report is
      non-empty or empty reports are fired; the inventory callback is never called. */
  lemma ReportRouting(cb: Option<CallbackId>, fireEmpty: bool, batch: seq<TagVal>)
    ensures |ReportEvents(cb, fireEmpty, batch)| <= 1
    ensures ReportEvents(cb, fireEmpty, batch) != [] <==> cb.Some? && (fireEmpty || batch != [])
    ensures forall e :: e in ReportEvents(cb, fireEmpty, batch) ==> e == ReportFired(cb.value, batch)
  {
  }

  // ------------------------------------------------------------ one inventory line

  /** The two parsers that share this model. The AT parser guards the round marker by its
      length, skips a tag line with too few fields and knows the phase; the Gen2 parser reads
      the antenna of any round marker and lets a short tag line raise. */
  datatype Variant = AtParser | Gen2Parser

  /** Everything a parse depends on besides the lines and the error map. */
  datatype ParseOptions = ParseOptions(split: nat, isReport: bool, ignoreErrors: bool,
                                       settings: InventorySettings, timestamp: real, variant: Variant)

  /** `int(s)` inside the parser, with the sign-and-ASCII-digits reading of `Text.Int`: a
      ValueError is not caught. */
  function IntField(s: string): (r: Result<int>)
    ensures r.Ok? <==> Text.Int(s).Some?
    ensures r.Ok? ==> r.value == Text.Int(s).value
  {
    match Text.Int(s)
    case None => Err(Fault("invalid literal for int() with base 10: '" + s + "'"))
    case Some(i) => Ok(i)
  }

  /** A missing field: the AT parser skips the line (`None`), the Gen2 parser raises. */
  function MissingField(v: Variant): Result<Option<TagVal>>
  {
    if v == AtParser then Ok(None) else Err(AT.IndexError)
  }

  /** Where the RSSI is: field 2 after a TID, field 1 without one. */
  function RssiIndex(s: InventorySettings): nat
  {
    if s.withTid then 2 else 1
  }

  /** The tag a line's comma fields describe, in the order Python evaluates the constructor's
      arguments: the TID, the RSSI, the seen count (last field, reports only), then the phase
      (last two fields, AT only). */
  function TagOfInfo(info: seq<string>, o: ParseOptions): Result<Option<TagVal>>
    requires |info| >= 1
  {
    var s := o.settings;
    if s.withTid && |info| < 2 then MissingField(o.variant)
    else if s.withRssi && |info| <= RssiIndex(s) then MissingField(o.variant)
    else
      var rssi := if s.withRssi then IntField(info[RssiIndex(s)]) else Ok(0);
      var seen := if o.isReport then IntField(info[|info| - 1]) else Ok(1);
      if rssi.Err? then Err(rssi.error)
      else if seen.Err? then Err(seen.error)
      else
        var t := UhfTagOf(info[0], Some(o.timestamp), if s.withTid then Some(info[1]) else None,
                          None, seen.value, if s.withRssi then Some(rssi.value) else None);
        if o.variant == AtParser && s.withPhase then
          if |info| < 2 then Ok(None)
          else Ok(Some(Set(t, "phase", Some(Pair(info[|info| - 2], info[|info| - 1])))))
        else Ok(Some(t))
  }

  /** What the parser has collected so far: the tags, the antenna of the last round marker
      and the text of the last error marker. */
  datatype Scan = Scan(tags: seq<TagVal>, antenna: Option<int>, error: Option<string>)

  const Start := Scan([], None, None)

  /** One line of the loop of `_parse_inventory`. Lines not starting with '+' are skipped;
      `<N…` (no tags) changes nothing; `<R…` takes the digit before the closing '>' as the
      antenna; any other marker records its text as the error unless errors are ignored;
      every other line is a tag. An empty or too short line raises IndexError. */
  function LineStep(line: string, st: Scan, o: ParseOptions): Result<Scan>
  {
    if |line| == 0 then Err(AT.IndexError)
    else if line[0] != '+' then Ok(st)
    else if |line| <= o.split then Err(AT.IndexError)
    else if line[o.split] == '<' then
      if |line| <= o.split + 1 then Err(AT.IndexError)
      else if line[o.split + 1] == 'N' then Ok(st)
      else if line[o.split + 1] == 'R' then
        if o.variant == AtParser && |line| <= o.split + 16 then Ok(st)
        else match Text.Int(Slice(line, -2, -1))
          case None => Ok(st)
          case Some(a) => Ok(st.(antenna := Some(a)))
      else if o.ignoreErrors then Ok(st)
      else Ok(st.(error := Some(Slice(line, o.split + 1, -1))))
    else
      match TagOfInfo(Split(line[o.split..], ','), o)
      case Err(e) => Err(e)
      case Ok(None) => Ok(st)
      case Ok(Some(t)) => Ok(st.(tags := st.tags + [t]))
  }

  /** The loop over all lines; the first exception ends it. */
  function Scanned(lines: seq<string>, st: Scan, o: ParseOptions): Result<Scan>
    decreases |lines|
  {
    if |lines| == 0 then Ok(st)
    else match LineStep(lines[0], st, o)
      case Err(e) => Err(e)
      case Ok(next) => Scanned(lines[1..], next, o)
  }

  // ------------------------------------------------------------ after the loop

  /** Python truthiness of the antenna: set and not 0. */
  predicate AntennaSet(antenna: Option<int>)
  {
    antenna.Some? && antenna.value != 0
  }

  /** The key of `config['error']` an error is stored under. */
  function ErrorKey(antenna: Option<int>): string
  {
    if AntennaSet(antenna) then AT.AntennaKey(antenna.value) else "message"
  }

  /** The text of the exception raised for an error marker. */
  function ErrorText(error: string, antenna: Option<int>): string
  {
    error + if AntennaSet(antenna) then " - Antenna " + IntToString(antenna.value) + " " else ""
  }

  /** Every tag carries the antenna, when one was reported. */
  function Stamp(tags: seq<TagVal>, antenna: Option<int>): (r: seq<TagVal>)
    ensures |r| == |tags|
  {
    if AntennaSet(antenna) then seq(|tags|, k requires 0 <= k < |tags| => Set(tags[k], "antenna", Some(Int(antenna.value))))
    else tags
  }

  /** A parse's result and the error map it leaves (`None`: no 'error' entry). */
  datatype Parsed = Parsed(result: Result<seq<TagVal>>, errors: Option<map<string, string>>)

  /** The end of `_parse_inventory`: a non-empty error is stored and raised; otherwise the
      tags are stamped with the antenna. */
  function Finish(st: Scan, errors: Option<map<string, string>>): Parsed
  {
    if st.error.Some? && st.error.value != "" then
      Parsed(Err(ReaderError(ErrorText(st.error.value, st.antenna))),
             Some(AT.ErrorsWith(errors, ErrorKey(st.antenna), st.error.value)))
    else Parsed(Ok(Stamp(st.tags, st.antenna)), errors)
  }

  /** `_parse_inventory(lines, …)` as a whole. */
  function Inventory(lines: seq<string>, o: ParseOptions, errors: Option<map<string, string>>): Parsed
  {
    match Scanned(lines, Start, o)
    case Err(e) => Parsed(Err(e), errors)
    case Ok(st) => Finish(st, errors)
  }

  /** How a parse ends, in the terms of `check_antennas`: it returns, it records an error
      under its key and raises, or it fails on a malformed line. */
  function InventoryOutcome(lines: seq<string>, o: ParseOptions): AT.AntennaOutcome
  {
    match Scanned(lines, Start, o)
    case Err(_) => AT.Raised
    case Ok(st) =>
      if st.error.Some? && st.error.value != "" then AT.Recorded(ErrorKey(st.antenna), st.error.value) else AT.Found
  }

  /** The outcome says what the parse does: it succeeds exactly when it is `Found`, and it
      changes the error map exactly by the entry a `Recorded` outcome names. */
  lemma InventoryOutcomeEffect(lines: seq<string>, o: ParseOptions, errors: Option<map<string, string>>)
    ensures var p := Inventory(lines, o, errors);
      var oc := InventoryOutcome(lines, o);
      (oc.Found? <==> p.result.Ok?)
      && p.errors == (if oc.Recorded? then Some(AT.ErrorsWith(errors, oc.key, oc.text)) else errors)
  {
  }

  /** The options a parse of `u` runs with. */
  function OptionsOf(u: UhfReader, split: nat, isReport: bool, timestamp: real, variant: Variant): ParseOptions
    reads u, u.reader
  {
    ParseOptions(split, isReport, u.reader.ignoreErrors, u.settings, timestamp, variant)
  }

  /** `_parse_inventory(responses, timestamp, split_index, is_report)` of the AT reader
      (`variant` AtParser) or the Gen2 reader (Gen2Parser). */
  method ParseInventory(u: UhfReader, responses: seq<string>, timestamp: real, split: nat, isReport: bool,
                        variant: Variant) returns (res: Result<seq<TagVal>>)
    modifies u.reader`errors
    ensures Parsed(res, u.reader.errors) == Inventory(responses, OptionsOf(u, split, isReport, timestamp, variant), old(u.reader.errors))
  {
    var o := OptionsOf(u, split, isReport, timestamp, variant);
    var st := Start;
    var i := 0;
    while i < |responses|
      invariant 0 <= i <= |responses|
      invariant Scanned(responses, Start, o) == Scanned(responses[i..], st, o)
      invariant u.reader.errors == old(u.reader.errors)
    {
      assert responses[i..][1..] == responses[i + 1..];
      var next := LineStep(responses[i], st, o);
      if next.Err? {
        return next.PropagateFailure();
      }
      st := next.value;
      i := i + 1;
    }
    assert responses[i..] == [];
    if st.error.Some? && st.error.value != "" {
      u.reader.errors := Some(AT.ErrorsWith(u.reader.errors, ErrorKey(st.antenna), st.error.value));
      return Err(ReaderError(ErrorText(st.error.value, st.antenna)));
    }
    var tags := st.tags;
    if AntennaSet(st.antenna) {
      for k := 0 to |tags|
        invariant |tags| == |st.tags|
        invariant forall j :: 0 <= j < k ==> tags[j] == Set(st.tags[j], "antenna", Some(Int(st.antenna.value)))
        invariant forall j :: k <= j < |tags| ==> tags[j] == st.tags[j]
      {
        tags := tags[k := Set(tags[k], "antenna", Some(Int(st.antenna.value)))];
      }
      assert tags == Stamp(st.tags, st.antenna);
    }
    return Ok(tags);
  }

  // ------------------------------------------------------------ properties of the parser

  /** The loop over `a + b` is the loop over `a` followed by the loop over `b`. */
  lemma {:induction false} ScannedAppend(a: seq<string>, b: seq<string>, st: Scan, o: ParseOptions)
    ensures Scanned(a + b, st, o) == match Scanned(a, st, o) case Err(e) => Err(e) case Ok(s2) => Scanned(b, s2, o)
    decreases |a|
  {
    if |a| == 0 {
      assert a + b == b;
    } else {
      assert (a + b)[0] == a[0];
      assert (a + b)[1..] == a[1..] + b;
      match LineStep(a[0], st, o)
      case Err(e) =>
      case Ok(next) => ScannedAppend(a[1..], b, next, o);
    }
  }

  /** A line that starts with '+', is long enough and is not a marker. */
  predicate TagLine(line: string, split: nat)
  {
    |line| > split && line[0] == '+' && line[split] != '<'
  }

  /** A tag line whose fields make a tag under the options. */
  predicate ParsesToTag(line: string, o: ParseOptions)
  {
    TagLine(line, o.split) && TagOfInfo(Split(line[o.split..], ','), o).Ok?
    && TagOfInfo(Split(line[o.split..], ','), o).value.Some?
  }

  function LineTag(line: string, o: ParseOptions): TagVal
    requires ParsesToTag(line, o)
  {
    TagOfInfo(Split(line[o.split..], ','), o).value.value
  }

  /** Field 0 of a line: the EPC. */
  function FirstField(line: string, split: nat): string
    requires |line| > split
  {
    Split(line[split..], ',')[0]
  }

  /** A tag line adds its tag. */
  lemma TagLineStep(line: string, st: Scan, o: ParseOptions)
    requires ParsesToTag(line, o)
    ensures LineStep(line, st, o) == Ok(st.(tags := st.tags + [LineTag(line, o)]))
  {
  }

  /** The tags of a run of tag lines, in input order. */
  function LineTags(lines: seq<string>, o: ParseOptions): (r: seq<TagVal>)
    requires forall k :: 0 <= k < |lines| ==> ParsesToTag(lines[k], o)
    ensures |r| == |lines| && forall k :: 0 <= k < |lines| ==> r[k] == LineTag(lines[k], o)
    decreases |lines|
  {
    if |lines| == 0 then [] else [LineTag(lines[0], o)] + LineTags(lines[1..], o)
  }

  lemma {:induction false} TagLinesScan(lines: seq<string>, st: Scan, o: ParseOptions)
    requires forall k :: 0 <= k < |lines| ==> ParsesToTag(lines[k], o)
    ensures Scanned(lines, st, o) == Ok(st.(tags := st.tags + LineTags(lines, o)))
    decreases |lines|
  {
    if |lines| == 0 {
      assert st.tags + [] == st.tags;
    } else {
      var t := LineTag(lines[0], o);
      var next := st.(tags := st.tags + [t]);
      TagLineStep(lines[0], st, o);
      TagLinesScan(lines[1..], next, o);
      ConcatAssoc(st.tags, [t], LineTags(lines[1..], o));
    }
  }

  /** N tag lines without markers give N tags in input order, each identified by the line's
      field 0. */
  lemma TagLinesInOrder(lines: seq<string>, o: ParseOptions, errors: Option<map<string, string>>)
    requires forall k :: 0 <= k < |lines| ==> ParsesToTag(lines[k], o)
    ensures var p := Inventory(lines, o, errors);
      p.errors == errors && p.result.Ok? && |p.result.value| == |lines|
      && forall k :: 0 <= k < |lines| ==>
           p.result.value[k] == LineTag(lines[k], o) && Epc(p.result.value[k]) == Some(FirstField(lines[k], o.split))
  {
    TagLinesScan(lines, Start, o);
    forall k | 0 <= k < |lines|
      ensures Epc(LineTag(lines[k], o)) == Some(FirstField(lines[k], o.split))
    {
      FieldLayout(Split(lines[k][o.split..], ','), o);
    }
  }

  /** The tag a line describes before the phase is added. */
  function BaseTag(info: seq<string>, o: ParseOptions, seen: int, rssi: int): TagVal
    requires |info| >= 1 && (o.settings.withTid ==> |info| >= 2)
  {
    UhfTagOf(info[0], Some(o.timestamp), if o.settings.withTid then Some(info[1]) else None,
             None, seen, if o.settings.withRssi then Some(rssi) else None)
  }

  /** The tag of a line is its base tag, with the last two fields as phase for the AT parser
      when the phase is configured. */
  lemma TagOfInfoShape(info: seq<string>, o: ParseOptions)
    requires |info| >= 1 && TagOfInfo(info, o).Ok? && TagOfInfo(info, o).value.Some?
    ensures o.settings.withTid ==> |info| >= 2
    ensures o.settings.withRssi ==> |info| > RssiIndex(o.settings) && Text.Int(info[RssiIndex(o.settings)]).Some?
    ensures o.isReport ==> Text.Int(info[|info| - 1]).Some?
    ensures var rssi := if o.settings.withRssi then Text.Int(info[RssiIndex(o.settings)]).value else 0;
      var seen := if o.isReport then Text.Int(info[|info| - 1]).value else 1;
      var b := BaseTag(info, o, seen, rssi);
      TagOfInfo(info, o).value.value ==
        if o.variant == AtParser && o.settings.withPhase then Set(b, "phase", Some(Pair(info[|info| - 2], info[|info| - 1])))
        else b
  {
  }

  /** The base tag carries the given values and a phase added to it changes none of them. */
  lemma BaseTagFields(info: seq<string>, o: ParseOptions, seen: int, rssi: int, phase: Option<Val>)
    requires |info| >= 1 && (o.settings.withTid ==> |info| >= 2)
    ensures var t := Set(BaseTag(info, o, seen, rssi), "phase", phase);
      Epc(t) == Some(info[0]) && Timestamp(t) == Some(o.timestamp)
      && Tid(t) == (if o.settings.withTid then Some(info[1]) else None)
      && Rssi(t) == (if o.settings.withRssi then Some(rssi) else None)
      && SeenCount(t) == seen && Antenna(t) == None && !HasError(t)
  {
    var tid := if o.settings.withTid then Some(info[1]) else None;
    var rs := if o.settings.withRssi then Some(rssi) else None;
    UhfTagOfValues(info[0], Some(o.timestamp), tid, None, seen, rs);
    UhfTagOfKeys(info[0], Some(o.timestamp), tid, None, seen, rs);
    var b := BaseTag(info, o, seen, rssi);
    var t := Set(b, "phase", phase);
    PutKeepsOthers(b.fields, "phase", phase, "epc");
    PutKeepsOthers(b.fields, "phase", phase, "timestamp");
    PutKeepsOthers(b.fields, "phase", phase, "tid");
    PutKeepsOthers(b.fields, "phase", phase, "rssi");
    PutKeepsOthers(b.fields, "phase", phase, "seen_count");
    PutKeepsOthers(b.fields, "phase", phase, "antenna");
    PutKeepsOthers(b.fields, "phase", phase, "has_error");
    assert Epc(t) == Epc(b) && Timestamp(t) == Timestamp(b) && Tid(t) == Tid(b);
    assert Rssi(t) == Rssi(b) && SeenCount(t) == SeenCount(b) && Antenna(t) == Antenna(b);
  }

  /** The fields of a tag line: field 0 is the EPC; the TID is field 1 iff it is configured;
      the RSSI is field 2 with a TID, field 1 without one, absent when not configured; the seen
      count is the last field of a report and 1 otherwise. The tag has no antenna and no
      error. */
  lemma FieldLayout(info: seq<string>, o: ParseOptions)
    requires |info| >= 1 && TagOfInfo(info, o).Ok? && TagOfInfo(info, o).value.Some?
    ensures var t := TagOfInfo(info, o).value.value;
      var s := o.settings;
      Epc(t) == Some(info[0]) && Timestamp(t) == Some(o.timestamp)
      && Tid(t) == (if s.withTid then Some(info[1]) else None)
      && Rssi(t) == (if s.withRssi && s.withTid then Text.Int(info[2]) else if s.withRssi then Text.Int(info[1]) else None)
      && SeenCount(t) == (if o.isReport then Text.Int(info[|info| - 1]).value else 1)
      && Antenna(t) == None && !HasError(t)
  {
    TagOfInfoShape(info, o);
    var s := o.settings;
    var rssi := if s.withRssi then Text.Int(info[RssiIndex(s)]).value else 0;
    var seen := if o.isReport then Text.Int(info[|info| - 1]).value else 1;
    var b := BaseTag(info, o, seen, rssi);
    if o.variant == AtParser && s.withPhase {
      BaseTagFields(info, o, seen, rssi, Some(Pair(info[|info| - 2], info[|info| - 1])));
    } else {
      BaseTagFields(info, o, seen, rssi, None);
      BaseTagNoPhase(info, o, seen, rssi);
    }
  }

  /** The base tag has no phase, so removing one changes nothing. */
  lemma BaseTagNoPhase(info: seq<string>, o: ParseOptions, seen: int, rssi: int)
    requires |info| >= 1 && (o.settings.withTid ==> |info| >= 2)
    ensures Set(BaseTag(info, o, seen, rssi), "phase", None) == BaseTag(info, o, seen, rssi)
  {
    var b := BaseTag(info, o, seen, rssi);
    UhfTagOfKeys(info[0], Some(o.timestamp), if o.settings.withTid then Some(info[1]) else None, None, seen,
                 if o.settings.withRssi then Some(rssi) else None);
    FieldsExt(Set(b, "phase", None).fields, b.fields);
  }

  /** The AT parser stores the last two fields as the phase exactly when it is configured; the
      Gen2 parser never stores one. */
  lemma PhaseLayout(info: seq<string>, o: ParseOptions)
    requires |info| >= 1 && TagOfInfo(info, o).Ok? && TagOfInfo(info, o).value.Some?
    ensures var t := TagOfInfo(info, o).value.value;
      ("phase" in t.fields <==> o.variant == AtParser && o.settings.withPhase)
      && ("phase" in t.fields ==> t.fields["phase"] == Pair(info[|info| - 2], info[|info| - 1]))
  {
    TagOfInfoShape(info, o);
    var s := o.settings;
    var rssi := if s.withRssi then Text.Int(info[RssiIndex(s)]).value else 0;
    var seen := if o.isReport then Text.Int(info[|info| - 1]).value else 1;
    UhfTagOfKeys(info[0], Some(o.timestamp), if s.withTid then Some(info[1]) else None, None, seen,
                 if s.withRssi then Some(rssi) else None);
  }

  /** The AT parser never raises for a short tag line (it skips it), and the Gen2 parser
      never skips one (it raises). */
  lemma ShortLines(info: seq<string>, o: ParseOptions)
    requires |info| >= 1
    ensures o.variant == AtParser ==> TagOfInfo(info, o) != Err(AT.IndexError)
    ensures o.variant == Gen2Parser ==> TagOfInfo(info, o) != Ok(None)
  {
  }

  /** A round marker sets the antenna to the digit before its closing '>'; the AT parser reads
      it only from a line longer than split_index + 16. */
  lemma RoundMarker(line: string, st: Scan, o: ParseOptions, d: nat)
    requires |line| >= o.split + 3 && line[0] == '+' && line[o.split] == '<' && line[o.split + 1] == 'R'
    requires d < 10 && line[|line| - 2] == DigitChar(d)
    ensures o.variant == Gen2Parser || |line| > o.split + 16 ==> LineStep(line, st, o) == Ok(st.(antenna := Some(d)))
    ensures o.variant == AtParser && |line| <= o.split + 16 ==> LineStep(line, st, o) == Ok(st)
  {
    assert Slice(line, -2, -1) == [DigitChar(d)];
  }

  /** Tag lines followed by a round marker for antenna d != 0: every tag is stamped with d. */
  lemma LastRoundMarkerStamps(lines: seq<string>, marker: string, o: ParseOptions,
                              errors: Option<map<string, string>>, d: nat)
    requires forall k :: 0 <= k < |lines| ==> ParsesToTag(lines[k], o)
    requires |marker| > o.split + 16 && marker[0] == '+' && marker[o.split] == '<' && marker[o.split + 1] == 'R'
    requires 0 < d < 10 && marker[|marker| - 2] == DigitChar(d)
    ensures var p := Inventory(lines + [marker], o, errors);
      p.errors == errors && p.result.Ok? && |p.result.value| == |lines|
      && forall k :: 0 <= k < |lines| ==>
           p.result.value[k] == Set(LineTag(lines[k], o), "antenna", Some(Int(d)))
           && Antenna(p.result.value[k]) == Some(d)
  {
    ScannedAppend(lines, [marker], Start, o);
    TagLinesScan(lines, Start, o);
    var st := Start.(tags := Start.tags + LineTags(lines, o));
    RoundMarker(marker, st, o, d);
    assert Scanned([marker], st, o) == Ok(st.(antenna := Some(d)));
  }

  /** An error marker followed by the round marker of antenna d (`<Antenna Error>` then
      `<ROUND FINISHED, ANT=d>`): the error text is stored under "Antenna d" and raised with
      the antenna named, unless errors are ignored. */
  lemma ErrorOnAntenna(errLine: string, marker: string, o: ParseOptions, errors: Option<map<string, string>>, d: nat)
    requires |errLine| > o.split + 2 && errLine[0] == '+' && errLine[o.split] == '<'
    requires errLine[o.split + 1] != 'N' && errLine[o.split + 1] != 'R'
    requires |marker| > o.split + 16 && marker[0] == '+' && marker[o.split] == '<' && marker[o.split + 1] == 'R'
    requires 0 < d < 10 && marker[|marker| - 2] == DigitChar(d)
    ensures var text := errLine[o.split + 1 .. |errLine| - 1];
      var p := Inventory([errLine, marker], o, errors);
      (!o.ignoreErrors ==>
         p.result == Err(ReaderError(text + " - Antenna " + IntToString(d) + " "))
         && p.errors == Some(AT.ErrorsWith(errors, AT.AntennaKey(d), text)))
      && (o.ignoreErrors ==> p == Parsed(Ok([]), errors))
  {
    assert Slice(errLine, o.split + 1, -1) == errLine[o.split + 1 .. |errLine| - 1];
    var st := if o.ignoreErrors then Start else Start.(error := Some(errLine[o.split + 1 .. |errLine| - 1]));
    assert LineStep(errLine, Start, o) == Ok(st);
    RoundMarker(marker, st, o, d);
    assert AntennaSet(Some(d)) && ErrorKey(Some(d)) == AT.AntennaKey(d);
    var text := errLine[o.split + 1 .. |errLine| - 1];
    assert |text| > 0;
    assert ErrorText(text, Some(d)) == text + " - Antenna " + IntToString(d) + " ";
    assert [errLine, marker][1..] == [marker];
    assert Scanned([marker], st, o) == Ok(st.(antenna := Some(d))) by {
      assert [marker][1..] == [];
    }
    assert [errLine, marker][0] == errLine;
    assert Scanned([errLine, marker], Start, o) == Scanned([marker], st, o);
  }

  /** Only the error markers raise a ReaderError: every other exception of the loop is an
      IndexError or ValueError, and with errors ignored no error is ever recorded. */
  lemma {:induction false} ScanFaults(lines: seq<string>, st: Scan, o: ParseOptions)
    ensures Scanned(lines, st, o).Err? ==> Scanned(lines, st, o).error.Fault?
    ensures o.ignoreErrors && st.error.None? && Scanned(lines, st, o).Ok? ==> Scanned(lines, st, o).value.error.None?
    decreases |lines|
  {
    if |lines| > 0 {
      match LineStep(lines[0], st, o)
      case Err(e) =>
      case Ok(next) => ScanFaults(lines[1..], next, o);
    }
  }

  /** With errors ignored the error map is never touched and no ReaderError is raised. */
  lemma IgnoredErrors(lines: seq<string>, o: ParseOptions, errors: Option<map<string, string>>)
    requires o.ignoreErrors
    ensures var p := Inventory(lines, o, errors);
      p.errors == errors && (p.result.Err? ==> p.result.error.Fault?)
  {
    ScanFaults(lines, Start, o);
  }

  // ------------------------------------------------------------ the multi-antenna inventory

  /** The reply line that ends one antenna's section. */
  predicate IsRoundLine(line: string)
  {
    StartsWith(line, "+MINV: <R")
  }

  /** The sections of a multi-inventory: `piece` is the section being collected; a round line
      closes it. Lines after the last round line form no section. */
  function Cut(lines: seq<string>, piece: seq<string>): seq<seq<string>>
    decreases |lines|
  {
    if |lines| == 0 then []
    else if IsRoundLine(lines[0]) then [piece + [lines[0]]] + Cut(lines[1..], [])
    else Cut(lines[1..], piece + [lines[0]])
  }

  function Segments(lines: seq<string>): seq<seq<string>>
  {
    Cut(lines, [])
  }

  /** The section still open after `lines`. */
  function Pending(lines: seq<string>, piece: seq<string>): seq<string>
    decreases |lines|
  {
    if |lines| == 0 then piece
    else if IsRoundLine(lines[0]) then Pending(lines[1..], [])
    else Pending(lines[1..], piece + [lines[0]])
  }

  function Flatten(segs: seq<seq<string>>): seq<string>
  {
    if |segs| == 0 then [] else segs[0] + Flatten(segs[1..])
  }

  predicate NoRoundLine(lines: seq<string>)
  {
    forall k :: 0 <= k < |lines| ==> !IsRoundLine(lines[k])
  }

  /** A section ends with its round line and has no other. */
  predicate Closed(seg: seq<string>)
  {
    |seg| >= 1 && IsRoundLine(seg[|seg| - 1]) && NoRoundLine(seg[..|seg| - 1])
  }

  /** The sections and the open rest are the lines in order; every section ends with its round
      line and has no other; the open rest has none. */
  lemma {:induction false} CutCovers(lines: seq<string>, piece: seq<string>)
    requires NoRoundLine(piece)
    ensures Flatten(Cut(lines, piece)) + Pending(lines, piece) == piece + lines
    ensures NoRoundLine(Pending(lines, piece))
    ensures forall j :: 0 <= j < |Cut(lines, piece)| ==> Closed(Cut(lines, piece)[j])
    decreases |lines|
  {
    if |lines| > 0 {
      if IsRoundLine(lines[0]) {
        CutCovers(lines[1..], []);
        var first := piece + [lines[0]];
        assert first[..|first| - 1] == piece;
        var segs := Cut(lines, piece);
        assert segs == [first] + Cut(lines[1..], []);
        assert Closed(first);
        calc {
          Flatten(Cut(lines, piece)) + Pending(lines, piece);
          first + Flatten(Cut(lines[1..], [])) + Pending(lines[1..], []);
          { ConcatAssoc(first, Flatten(Cut(lines[1..], [])), Pending(lines[1..], [])); }
          first + lines[1..];
          { assert lines == [lines[0]] + lines[1..]; ConcatAssoc(piece, [lines[0]], lines[1..]); }
          piece + lines;
        }
      } else {
        CutCovers(lines[1..], piece + [lines[0]]);
        assert lines == [lines[0]] + lines[1..];
        ConcatAssoc(piece, [lines[0]], lines[1..]);
      }
    }
  }

  /** Appending lines splits the sections accordingly. */
  lemma {:induction false} CutAppend(a: seq<string>, b: seq<string>, piece: seq<string>)
    ensures Cut(a + b, piece) == Cut(a, piece) + Cut(b, Pending(a, piece))
    decreases |a|
  {
    if |a| == 0 {
      assert a + b == b;
    } else {
      assert (a + b)[0] == a[0];
      assert (a + b)[1..] == a[1..] + b;
      if IsRoundLine(a[0]) {
        CutAppend(a[1..], b, []);
      } else {
        CutAppend(a[1..], b, piece + [a[0]]);
      }
    }
  }

  lemma {:induction false} CutNoRound(lines: seq<string>, piece: seq<string>)
    requires NoRoundLine(lines)
    ensures Cut(lines, piece) == []
    decreases |lines|
  {
    if |lines| > 0 {
      CutNoRound(lines[1..], piece + [lines[0]]);
    }
  }

  /** The tags of `p` followed by those of `q`, unless `p` raised. */
  function Then(p: Parsed, q: Parsed): Parsed
  {
    if p.result.Err? then p
    else if q.result.Err? then q
    else Parsed(Ok(p.result.value + q.result.value), q.errors)
  }

  /** Each section parsed on its own with split index 7; the first exception ends it. */
  function MultiInventory(segs: seq<seq<string>>, o: ParseOptions, errors: Option<map<string, string>>): Parsed
    decreases |segs|
  {
    if |segs| == 0 then Parsed(Ok([]), errors)
    else
      var p := Inventory(segs[0], o, errors);
      Then(p, MultiInventory(segs[1..], o, p.errors))
  }

  /** One more line of the input: a round marker closes the open section with it, any other
      line joins the open section. */
  lemma CutStep(lines: seq<string>, last: nat, index: nat)
    requires last <= index < |lines|
    ensures IsRoundLine(lines[index]) ==>
      Cut(lines[index..], lines[last..index]) == [lines[last..index + 1]] + Cut(lines[index + 1..], [])
    ensures !IsRoundLine(lines[index]) ==>
      Cut(lines[index..], lines[last..index]) == Cut(lines[index + 1..], lines[last..index + 1])
  {
    assert lines[index..][0] == lines[index];
    assert lines[index..][1..] == lines[index + 1..];
    assert lines[last..index] + [lines[index]] == lines[last..index + 1];
  }

  /** The first section is parsed first and hands its error map to the rest. */
  lemma MultiInventoryCons(seg: seq<string>, rest: seq<seq<string>>, o: ParseOptions, errors: Option<map<string, string>>)
    ensures var p := Inventory(seg, o, errors);
      MultiInventory([seg] + rest, o, errors) == Then(p, MultiInventory(rest, o, p.errors))
  {
    assert ([seg] + rest)[0] == seg && ([seg] + rest)[1..] == rest;
  }

  /** Tags collected so far followed by a section that parsed, then the rest. */
  lemma ThenAssoc(a: seq<TagVal>, e: Option<map<string, string>>, p: Parsed, m: Parsed)
    requires p.result.Ok?
    ensures Then(Parsed(Ok(a), e), Then(p, m)) == Then(Parsed(Ok(a + p.result.value), p.errors), m)
  {
    if m.result.Ok? {
      assert a + (p.result.value + m.result.value) == a + p.result.value + m.result.value;
    }
  }

  lemma ThenEmpty(e: Option<map<string, string>>, m: Parsed)
    ensures Then(Parsed(Ok([]), e), m) == m
  {
    if m.result.Ok? {
      assert [] + m.result.value == m.result.value;
    }
  }

  /** Lines after the last round line yield no tags and change nothing. */
  lemma TrailingLinesIgnored(lines: seq<string>, more: seq<string>, o: ParseOptions, errors: Option<map<string, string>>)
    requires NoRoundLine(more)
    ensures Segments(lines + more) == Segments(lines)
    ensures MultiInventory(Segments(lines + more), o, errors) == MultiInventory(Segments(lines), o, errors)
  {
    CutAppend(lines, more, []);
    CutNoRound(more, Pending(lines, []));
    assert Segments(lines) + [] == Segments(lines);
  }

  /** The splitting loop of `get_inventory_multi`: sections are cut after each round line and
      parsed one by one as the AT parser does. */
  method InventoryMulti(u: UhfReader, responses: seq<string>, timestamp: real) returns (res: Result<seq<TagVal>>)
    modifies u.reader`errors
    ensures Parsed(res, u.reader.errors) ==
      MultiInventory(Segments(responses), OptionsOf(u, 7, false, timestamp, AtParser), old(u.reader.errors))
  {
    ghost var o := OptionsOf(u, 7, false, timestamp, AtParser);
    var inventory: seq<TagVal> := [];
    var last := 0;
    var index := 0;
    assert responses[0..] == responses && responses[0..0] == [];
    ThenEmpty(u.reader.errors, MultiInventory(Segments(responses), o, u.reader.errors));
    while index < |responses|
      invariant 0 <= last <= index <= |responses|
      invariant o == OptionsOf(u, 7, false, timestamp, AtParser)
      invariant MultiInventory(Segments(responses), o, old(u.reader.errors)) ==
        Then(Parsed(Ok(inventory), u.reader.errors), MultiInventory(Cut(responses[index..], responses[last..index]), o, u.reader.errors))
    {
      CutStep(responses, last, index);
      if StartsWith(responses[index], "+MINV: <R") {
        ghost var before := u.reader.errors;
        ghost var rest := Cut(responses[index + 1..], []);
        var part := ParseInventory(u, responses[last..index + 1], timestamp, 7, false, AtParser);
        ghost var p := Parsed(part, u.reader.errors);
        assert p == Inventory(responses[last..index + 1], o, before);
        MultiInventoryCons(responses[last..index + 1], rest, o, before);
        if part.Err? {
          return part;
        }
        ThenAssoc(inventory, before, p, MultiInventory(rest, o, p.errors));
        inventory := inventory + part.value;
        last := index + 1;
        assert responses[last..index + 1] == [];
      }
      index := index + 1;
    }
    assert Cut(responses[index..], responses[last..index]) == [];
    assert inventory + [] == inventory;
    res := Ok(inventory);
  }

  /** `get_inventory_multi(ignore_error)`: `AT+MINV` on all antennas, the sections parsed,
      and the tags handed to the inventory callback (not a continuous inventory). */
  method GetInventoryMulti(u: UhfReader, ignoreError: bool, replies: seq<string>, timestamp: real)
    returns (res: Result<seq<TagVal>>)
    modifies u.reader`ignoreErrors, u.reader`receiveBuffer, u.reader`sent, u.reader`errors, u.reader`events,
             u.reader`inventory
    ensures u.reader.ignoreErrors == ignoreError
    ensures var r := u.reader;
      var spec := AT.CommandReply(replies, "AT+MINV", "AT+MINV", r.echoEnabled, r.base.info.status >= 1, AT.AtDialect, AT.PlainError);
      var expected := if spec.0.Err? then Parsed(Err(spec.0.error), old(r.errors))
        else MultiInventory(Segments(spec.0.value), OptionsOf(u, 7, false, timestamp, AtParser), old(r.errors));
      (old(r.connected) ==>
         r.sent == old(r.sent) + ["AT+MINV\r"] && Parsed(res, r.errors) == expected)
      && (!old(r.connected) ==> r.sent == old(r.sent) && res == Err(ReaderError("Not connected")) && r.errors == old(r.errors))
    ensures u.reader.inventory == old(u.reader.inventory)
    ensures u.reader.events == old(u.reader.events) +
      (if res.Ok? then InventoryEvents(u.reader.cbInventory, u.reader.fireEmptyInventories, res.value) else [])
  {
    u.reader.ignoreErrors := ignoreError;
    assert AT.PrepareCommand("AT+MINV", []) + "\r" == "AT+MINV\r";
    var reply := AT.SendCommand(u.reader, "AT+MINV", [], replies, u.reader.echoEnabled, AT.AtDialect, AT.PlainError);
    if reply.Err? {
      return Err(reply.error);
    }
    res := InventoryMulti(u, reply.value, timestamp);
    if res.Ok? {
      u.reader.FireInventoryEvent(res.value, false);
    }
  }

  // ------------------------------------------------------------ tag-status responses

  /** A list result with `tags` in front, unless it failed. */
  function Prepend(tags: seq<TagVal>, r: Result<seq<TagVal>>): Result<seq<TagVal>>
  {
    if r.Ok? then Ok(tags + r.value) else r
  }

  lemma PrependEmpty(r: Result<seq<TagVal>>)
    ensures Prepend([], r) == r
  {
    if r.Ok? {
      assert [] + r.value == r.value;
    }
  }

  /** The tag of one status line split at commas: field 0 is the EPC, field 1 the status,
      which becomes the error message unless it is "OK". */
  function StatusTag(info: seq<string>, timestamp: real): TagVal
    requires |info| >= 2
  {
    var t := UhfTagOf(info[0], Some(timestamp));
    if info[1] != "OK" then WithErrorMessage(t, Some(info[1])) else t
  }

  /** `_parse_tag_responses(responses, prefix_length)`: a marker line (`<` after the prefix)
      is skipped once the character after `<` has been read; every other line is a tag of its
      fields. A line too short for the prefix, a marker line that ends at `<`, or a tag line
      without field 1 raises IndexError. */
  function TagResponses(lines: seq<string>, prefix: nat, timestamp: real): Result<seq<TagVal>>
    decreases |lines|
  {
    if |lines| == 0 then Ok([])
    else if |lines[0]| <= prefix then Err(AT.IndexError)
    else if lines[0][prefix] == '<' then
      if |lines[0]| <= prefix + 1 then Err(AT.IndexError) else TagResponses(lines[1..], prefix, timestamp)
    else
      var info := Split(lines[0][prefix..], ',');
      if |info| < 2 then Err(AT.IndexError)
      else Prepend([StatusTag(info, timestamp)], TagResponses(lines[1..], prefix, timestamp))
  }

  method ParseTagResponses(responses: seq<string>, prefix: nat, timestamp: real) returns (res: Result<seq<TagVal>>)
    ensures res == TagResponses(responses, prefix, timestamp)
  {
    var tags: seq<TagVal> := [];
    assert responses[0..] == responses;
    PrependEmpty(TagResponses(responses, prefix, timestamp));
    for i := 0 to |responses|
      invariant TagResponses(responses, prefix, timestamp) == Prepend(tags, TagResponses(responses[i..], prefix, timestamp))
    {
      assert responses[i..][0] == responses[i];
      assert responses[i..][1..] == responses[i + 1..];
      var response := responses[i];
      if |response| <= prefix {
        return Err(AT.IndexError);
      }
      if response[prefix] == '<' {
        if |response| <= prefix + 1 {
          return Err(AT.IndexError);
        }
        continue;
      }
      var info := Split(response[prefix..], ',');
      if |info| < 2 {
        return Err(AT.IndexError);
      }
      var tag := UhfTagOf(info[0], Some(timestamp));
      if info[1] != "OK" {
        tag := WithErrorMessage(tag, Some(info[1]));
      }
      assert tag == StatusTag(info, timestamp);
      ghost var rest := TagResponses(responses[i + 1..], prefix, timestamp);
      if rest.Ok? {
        ConcatAssoc(tags, [tag], rest.value);
      }
      tags := tags + [tag];
    }
    assert responses[|responses|..] == [];
    assert tags + [] == tags;
    return Ok(tags);
  }

  /** A line that reports one tag: long enough, not a marker, with a status field. */
  predicate StatusLine(line: string, prefix: nat)
  {
    |line| > prefix && line[prefix] != '<' && |Split(line[prefix..], ',')| >= 2
  }

  /** Tag `t` is the report of status line `line`: identified by field 0, with the status in
      field 1 as error message unless it is "OK", and with an error exactly when that message is
      set and not empty. */
  predicate Reports(t: TagVal, line: string, prefix: nat)
  {
    StatusLine(line, prefix)
    && var info := Split(line[prefix..], ',');
       Epc(t) == Some(info[0])
       && (HasError(t) <==> info[1] != "OK" && info[1] != "")
       && ErrorMessage(t) == (if info[1] != "OK" then Some(info[1]) else None)
  }

  lemma StatusTagReports(line: string, prefix: nat, timestamp: real)
    requires StatusLine(line, prefix)
    ensures Reports(StatusTag(Split(line[prefix..], ','), timestamp), line, prefix)
  {
    var info := Split(line[prefix..], ',');
    UhfTagOfValues(info[0], Some(timestamp), None, None, 1, None);
    UhfTagOfKeys(info[0], Some(timestamp), None, None, 1, None);
    var t := UhfTagOf(info[0], Some(timestamp));
    assert "error_message" !in t.fields;
    if info[1] != "OK" {
      ErrorMessageSetsFlag(t, Some(info[1]));
    }
  }

  lemma TagResponsesCons(lines: seq<string>, prefix: nat, timestamp: real)
    requires |lines| > 0 && StatusLine(lines[0], prefix)
    ensures TagResponses(lines, prefix, timestamp)
            == Prepend([StatusTag(Split(lines[0][prefix..], ','), timestamp)], TagResponses(lines[1..], prefix, timestamp))
  {
  }

  /** When every line is a status line, there is one tag per line, in order, each the report
      of its line. */
  lemma {:induction false} TagResponsesStatus(lines: seq<string>, prefix: nat, timestamp: real)
    requires forall k :: 0 <= k < |lines| ==> StatusLine(lines[k], prefix)
    ensures var r := TagResponses(lines, prefix, timestamp);
      r.Ok? && |r.value| == |lines| && forall k :: 0 <= k < |lines| ==> Reports(r.value[k], lines[k], prefix)
    decreases |lines|
  {
    if |lines| > 0 {
      assert StatusLine(lines[0], prefix);
      assert forall k :: 0 <= k < |lines[1..]| ==> lines[1..][k] == lines[k + 1];
      TagResponsesStatus(lines[1..], prefix, timestamp);
      StatusTagReports(lines[0], prefix, timestamp);
      TagResponsesCons(lines, prefix, timestamp);
      var first := StatusTag(Split(lines[0][prefix..], ','), timestamp);
      var rest := TagResponses(lines[1..], prefix, timestamp).value;
      assert TagResponses(lines, prefix, timestamp).value == [first] + rest;
      ReportsCons(first, rest, lines, prefix);
    }
  }

  /** The report of the first line followed by the reports of the others. */
  lemma ReportsCons(first: TagVal, rest: seq<TagVal>, lines: seq<string>, prefix: nat)
    requires |lines| > 0 && |rest| == |lines| - 1 && Reports(first, lines[0], prefix)
    requires forall k :: 0 <= k < |rest| ==> Reports(rest[k], lines[1..][k], prefix)
    ensures forall k :: 0 <= k < |lines| ==> Reports(([first] + rest)[k], lines[k], prefix)
  {
    forall k | 1 <= k < |lines|
      ensures Reports(([first] + rest)[k], lines[k], prefix)
    {
      assert ([first] + rest)[k] == rest[k - 1];
      assert lines[k] == lines[1..][k - 1];
    }
  }

  /** Marker lines add nothing: the tags are those of the other lines. */
  lemma {:induction false} MarkerLinesSkipped(lines: seq<string>, markers: seq<string>, prefix: nat, timestamp: real)
    requires forall k :: 0 <= k < |markers| ==> |markers[k]| > prefix + 1 && markers[k][prefix] == '<'
    ensures TagResponses(markers + lines, prefix, timestamp) == TagResponses(lines, prefix, timestamp)
    decreases |markers|
  {
    if |markers| > 0 {
      var all := markers + lines;
      assert all[0] == markers[0];
      assert |all[0]| > prefix + 1 && all[0][prefix] == '<';
      assert all[1..] == markers[1..] + lines;
      assert TagResponses(all, prefix, timestamp) == TagResponses(all[1..], prefix, timestamp);
      MarkerLinesSkipped(lines, markers[1..], prefix, timestamp);
    } else {
      assert markers + lines == lines;
    }
  }

  /** A marker line that ends right after `<` raises IndexError, whatever follows it, in
      both the tag-status parser and the read parser. */
  lemma TruncatedMarker(lines: seq<string>, prefix: nat, memory: string, timestamp: real)
    ensures TagResponses([seq(prefix, _ => '+') + "<"] + lines, prefix, timestamp) == Err(AT.IndexError)
    ensures ReadTags(["+READ: <"] + lines, memory, timestamp) == Err(AT.IndexError)
  {
    var marker := seq(prefix, _ => '+') + "<";
    assert ([marker] + lines)[0] == marker && marker[prefix] == '<';
    assert (["+READ: <"] + lines)[0] == "+READ: <";
  }

  /** The optional EPC mask parameter of the tag commands. */
  function MaskParam(epcMask: Option<string>): AT.Param
  {
    if epcMask.Some? then AT.PStr(epcMask.value) else AT.PNone
  }

  /** The reply lines of a command, parsed as tag-status responses with the given prefix. */
  function StatusReply(reply: Result<seq<string>>, prefix: nat, timestamp: real): Result<seq<TagVal>>
  {
    if reply.Err? then Err(reply.error) else TagResponses(reply.value, prefix, timestamp)
  }

  /** `write_tag_data(data, start, memory, epc_mask)`: `AT+WRT` and the tag-status
      responses (prefix "+WRT: "). */
  method WriteTagData(r: Reader, data: string, start: int, memory: string, epcMask: Option<string>,
                      replies: seq<string>, timestamp: real) returns (res: Result<seq<TagVal>>)
    modifies r`receiveBuffer, r`sent
    ensures var params := [AT.PStr(memory), AT.PInt(start), AT.PStr(data), MaskParam(epcMask)];
      var spec := AT.CommandReply(replies, "AT+WRT", AT.PrepareCommand("AT+WRT", params), r.echoEnabled,
                                  r.base.info.status >= 1, AT.AtDialect, AT.PlainError);
      (old(r.connected) ==> r.sent == old(r.sent) + [AT.PrepareCommand("AT+WRT", params) + "\r"]
                            && res == StatusReply(spec.0, 6, timestamp))
      && (!old(r.connected) ==> r.sent == old(r.sent) && res == Err(ReaderError("Not connected")))
  {
    var reply := AT.SendCommand(r, "AT+WRT", [AT.PStr(memory), AT.PInt(start), AT.PStr(data), MaskParam(epcMask)],
                                replies, r.echoEnabled, AT.AtDialect, AT.PlainError);
    if reply.Err? {
      return Err(reply.error);
    }
    res := ParseTagResponses(reply.value, 6, timestamp);
  }

  // ------------------------------------------------------------ reading tag memory

  /** The tag of one `+READ:` line: on status "OK" field 2 is the data, stored under the lower-
      cased memory name and as `data`; another status is the error message. A missing field
      leaves the tag as it is. */
  function ReadTag(info: seq<string>, memory: string, timestamp: real): TagVal
    requires |info| >= 1
  {
    var t := UhfTagOf(info[0], Some(timestamp));
    if |info| < 2 then t
    else if info[1] == "OK" then
      if |info| < 3 then t else Set(Set(t, Lower(memory), Some(Str(info[2]))), "data", Some(Str(info[2])))
    else WithErrorMessage(t, Some(info[1]))
  }

  /** The loop of `read_tag_data` over the reply lines; a line shorter than 8 characters, or
      a marker line that ends at `<`, raises IndexError. */
  function ReadTags(lines: seq<string>, memory: string, timestamp: real): Result<seq<TagVal>>
    decreases |lines|
  {
    if |lines| == 0 then Ok([])
    else if |lines[0]| <= 7 then Err(AT.IndexError)
    else if lines[0][7] == '<' then
      if |lines[0]| <= 8 then Err(AT.IndexError) else ReadTags(lines[1..], memory, timestamp)
    else Prepend([ReadTag(Split(lines[0][7..], ','), memory, timestamp)], ReadTags(lines[1..], memory, timestamp))
  }

  /** `read_tag_data(start, length, memory, epc_mask)`. */
  method ReadTagData(r: Reader, start: int, length: int, memory: string, epcMask: Option<string>,
                     replies: seq<string>, timestamp: real) returns (res: Result<seq<TagVal>>)
    modifies r`receiveBuffer, r`sent
    ensures var params := [AT.PStr(memory), AT.PInt(start), AT.PInt(length), MaskParam(epcMask)];
      var spec := AT.CommandReply(replies, "AT+READ", AT.PrepareCommand("AT+READ", params), r.echoEnabled,
                                  r.base.info.status >= 1, AT.AtDialect, AT.PlainError);
      (old(r.connected) ==> r.sent == old(r.sent) + [AT.PrepareCommand("AT+READ", params) + "\r"]
                            && res == (if spec.0.Err? then Err(spec.0.error) else ReadTags(spec.0.value, memory, timestamp)))
      && (!old(r.connected) ==> r.sent == old(r.sent) && res == Err(ReaderError("Not connected")))
  {
    var reply := AT.SendCommand(r, "AT+READ", [AT.PStr(memory), AT.PInt(start), AT.PInt(length), MaskParam(epcMask)],
                                replies, r.echoEnabled, AT.AtDialect, AT.PlainError);
    if reply.Err? {
      return Err(reply.error);
    }
    var lines := reply.value;
    res := ReadTagsOf(lines, memory, timestamp);
  }

  /** The loop of `read_tag_data` over the reply lines. */
  method ReadTagsOf(lines: seq<string>, memory: string, timestamp: real) returns (res: Result<seq<TagVal>>)
    ensures res == ReadTags(lines, memory, timestamp)
  {
    var tags: seq<TagVal> := [];
    assert lines[0..] == lines;
    PrependEmpty(ReadTags(lines, memory, timestamp));
    for i := 0 to |lines|
      invariant ReadTags(lines, memory, timestamp) == Prepend(tags, ReadTags(lines[i..], memory, timestamp))
    {
      assert lines[i..][0] == lines[i];
      assert lines[i..][1..] == lines[i + 1..];
      if |lines[i]| <= 7 {
        return Err(AT.IndexError);
      }
      if lines[i][7] == '<' {
        if |lines[i]| <= 8 {
          return Err(AT.IndexError);
        }
        continue;
      }
      var tag := ReadTag(Split(lines[i][7..], ','), memory, timestamp);
      ghost var rest := ReadTags(lines[i + 1..], memory, timestamp);
      if rest.Ok? {
        ConcatAssoc(tags, [tag], rest.value);
      }
      tags := tags + [tag];
    }
    assert lines[|lines|..] == [];
    assert tags + [] == tags;
    return Ok(tags);
  }

  /** On "OK" with a data field the data is stored both as `data` and under the memory name,
      and the tag has no error. */
  lemma ReadTagData_Ok(info: seq<string>, memory: string, timestamp: real)
    requires |info| >= 3 && info[1] == "OK"
    ensures var t := ReadTag(info, memory, timestamp);
      Epc(t) == Some(info[0]) || Lower(memory) == "epc"
    ensures var t := ReadTag(info, memory, timestamp);
      Data(t) == Some(info[2]) && GetStr(t, Lower(memory)) == Some(info[2]) && !HasError(t)
  {
    UhfTagOfValues(info[0], Some(timestamp), None, None, 1, None);
    UhfTagOfKeys(info[0], Some(timestamp), None, None, 1, None);
  }

  /** On another status the tag keeps its EPC and carries the status as error message. */
  lemma ReadTagData_Failed(info: seq<string>, memory: string, timestamp: real)
    requires |info| >= 2 && info[1] != "OK"
    ensures var t := ReadTag(info, memory, timestamp);
      Epc(t) == Some(info[0]) && ErrorMessage(t) == Some(info[1]) && HasError(t) == (info[1] != "")
  {
    UhfTagOfValues(info[0], Some(timestamp), None, None, 1, None);
    ErrorMessageSetsFlag(UhfTagOf(info[0], Some(timestamp)), Some(info[1]));
  }

  // ------------------------------------------------------------ tag population and Q value

  function Pow2(q: nat): (r: nat)
    ensures r >= 1
  {
    if q == 0 then 1 else 2 * Pow2(q - 1)
  }

  lemma {:induction false} Pow2Monotone(a: nat, b: nat)
    requires a <= b
    ensures Pow2(a) <= Pow2(b)
    decreases b
  {
    if a < b {
      Pow2Monotone(a, b - 1);
    }
  }

  /** The first q from `q` on with `n <= 2^q`. */
  function LeastQFrom(n: int, q: nat): nat
    decreases n - Pow2(q)
  {
    if n > Pow2(q) then LeastQFrom(n, q + 1) else q
  }

  /** The least q with `n <= 2^q`: the ceiling of log2 n, and 0 for n <= 1. */
  function LeastQ(n: int): nat
  {
    LeastQFrom(n, 0)
  }

  lemma {:induction false} LeastQFromIsLeast(n: int, q: nat)
    requires forall j: nat :: j < q ==> Pow2(j) < n
    ensures n <= Pow2(LeastQFrom(n, q))
    ensures forall j: nat :: j < LeastQFrom(n, q) ==> Pow2(j) < n
    decreases n - Pow2(q)
  {
    if n > Pow2(q) {
      LeastQFromIsLeast(n, q + 1);
    }
  }

  /** LeastQ(n) covers n, and every smaller exponent does not. */
  lemma LeastQIsLeast(n: int)
    ensures n <= Pow2(LeastQ(n))
    ensures forall j: nat :: j < LeastQ(n) ==> Pow2(j) < n
  {
    LeastQFromIsLeast(n, 0);
  }

  /** It is the only exponent with that property. */
  lemma LeastQUnique(n: int, q: nat)
    requires n <= Pow2(q) && forall j: nat :: j < q ==> Pow2(j) < n
    ensures q == LeastQ(n)
  {
    LeastQIsLeast(n);
  }

  /** The `while n > pow(2, q): q += 1` loop of `set_tag_size`. */
  method CeilLog2(n: int) returns (q: nat)
    ensures q == LeastQ(n)
  {
    q := 0;
    while n > Pow2(q)
      invariant forall j: nat :: j < q ==> Pow2(j) < n
      decreases n - Pow2(q)
    {
      q := q + 1;
    }
    LeastQUnique(n, q);
  }

  /** Exactly one of the two bounds given (non-negative) is refused. */
  predicate BothOrNeither(a: int, b: int)
  {
    (a >= 0 && b >= 0) || (a < 0 && b < 0)
  }

  /** The parameters of `AT+Q` from `set_tag_size(tags_size, min_tags, max_tags)`. */
  function TagSizeParams(tagsSize: int, minTags: int, maxTags: int): seq<AT.Param>
  {
    [AT.PInt(LeastQ(tagsSize)),
     if minTags >= 0 then AT.PInt(LeastQ(minTags)) else AT.PNone,
     if maxTags >= 0 then AT.PInt(LeastQ(maxTags)) else AT.PNone]
  }

  /** The outcome of a command whose reply is not used. */
  function OutcomeOf(reply: Result<seq<string>>): Outcome
  {
    if reply.Ok? then Done else Raise(reply.error)
  }

  /** `set_tag_size(tags_size, min_tags, max_tags)`: refuses a single bound; otherwise sends
      `AT+Q` with the least exponents covering each given number. */
  method SetTagSize(r: Reader, tagsSize: int, minTags: int, maxTags: int, replies: seq<string>) returns (res: Outcome)
    modifies r`receiveBuffer, r`sent
    ensures !BothOrNeither(minTags, maxTags) ==>
      res == Raise(ReaderError("min_tags and max_tags must be set, or none of the these")) && r.sent == old(r.sent)
    ensures BothOrNeither(minTags, maxTags) ==>
      var sc := AT.PrepareCommand("AT+Q", TagSizeParams(tagsSize, minTags, maxTags));
      var spec := AT.CommandReply(replies, "AT+Q", sc, r.echoEnabled, r.base.info.status >= 1, AT.AtDialect, AT.PlainError);
      (old(r.connected) ==> r.sent == old(r.sent) + [sc + "\r"] && res == OutcomeOf(spec.0))
      && (!old(r.connected) ==> r.sent == old(r.sent) && res == Raise(ReaderError("Not connected")))
  {
    if !((minTags >= 0 && maxTags >= 0) || (minTags < 0 && maxTags < 0)) {
      return Raise(ReaderError("min_tags and max_tags must be set, or none of the these"));
    }
    var qStart := CeilLog2(tagsSize);
    var qMin := AT.PNone;
    var qMax := AT.PNone;
    if minTags >= 0 {
      var q := CeilLog2(minTags);
      qMin := AT.PInt(q);
    }
    if maxTags >= 0 {
      var q := CeilLog2(maxTags);
      qMax := AT.PInt(q);
    }
    var reply := AT.SendCommand(r, "AT+Q", [AT.PInt(qStart), qMin, qMax], replies, r.echoEnabled, AT.AtDialect, AT.PlainError);
    res := OutcomeOf(reply);
  }

  /** The parameters of `AT+Q` from `set_q_value(q_start, q_min, q_max)`. */
  function QValueParams(qStart: int, qMin: int, qMax: int): seq<AT.Param>
  {
    [AT.PInt(qStart), if qMin >= 0 then AT.PInt(qMin) else AT.PNone, if qMax >= 0 then AT.PInt(qMax) else AT.PNone]
  }

  /** `set_q_value(q_start, q_min, q_max)`: the same guard, the exponents sent as given. */
  method SetQValue(r: Reader, qStart: int, qMin: int, qMax: int, replies: seq<string>) returns (res: Outcome)
    modifies r`receiveBuffer, r`sent
    ensures !BothOrNeither(qMin, qMax) ==>
      res == Raise(ReaderError("q_min and q_max must be set, or none of the these")) && r.sent == old(r.sent)
    ensures BothOrNeither(qMin, qMax) ==>
      var sc := AT.PrepareCommand("AT+Q", QValueParams(qStart, qMin, qMax));
      var spec := AT.CommandReply(replies, "AT+Q", sc, r.echoEnabled, r.base.info.status >= 1, AT.AtDialect, AT.PlainError);
      (old(r.connected) ==> r.sent == old(r.sent) + [sc + "\r"] && res == OutcomeOf(spec.0))
      && (!old(r.connected) ==> r.sent == old(r.sent) && res == Raise(ReaderError("Not connected")))
  {
    if !((qMin >= 0 && qMax >= 0) || (qMax < 0 && qMin < 0)) {
      return Raise(ReaderError("q_min and q_max must be set, or none of the these"));
    }
    var reply := AT.SendCommand(r, "AT+Q", QValueParams(qStart, qMin, qMax), replies, r.echoEnabled, AT.AtDialect, AT.PlainError);
    res := OutcomeOf(reply);
  }

  /** `set_tag_size` is `set_q_value` with the least covering exponents. */
  lemma TagSizeIsQValue(tagsSize: int, minTags: int, maxTags: int)
    requires BothOrNeither(minTags, maxTags)
    ensures TagSizeParams(tagsSize, minTags, maxTags)
            == QValueParams(LeastQ(tagsSize), if minTags >= 0 then LeastQ(minTags) else -1,
                            if maxTags >= 0 then LeastQ(maxTags) else -1)
  {
  }
}
