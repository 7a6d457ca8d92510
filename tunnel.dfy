/** The tunnel: a scan starts when the front input reaches its trigger level and stops when
    the back input reaches its level. While a scan runs, the reader's inventory reports are
    collected into the scan's tag map, deduplicated by tag id; when it stops, the scan is
    handed to the scan callback with its tags as a list, and it becomes the last scan.
    The reader's start/stop-inventory calls and connect are parameters (their outcome); the
    start and stop delays are configuration only, since waiting is not modelled. */
module Tunnels {
  import opened Results
  import opened Text
  import opened Tags
  import opened Status
  import opened Readers

  // ------------------------------------------------------------ handler identities

  /** The tunnel's own bound methods, as the callback identities it installs on the reader:
      `_input_changed`, `_reader_status_changed`, `_new_inventory_ignore`, `_new_inventory`. */
  const InputHandler: CallbackId := 1001
  const StatusHandler: CallbackId := 1002
  const IgnoreHandler: CallbackId := 1003
  const CollectHandler: CallbackId := 1004

  // ------------------------------------------------------------ configuration values

  /** A delay as Python holds it: an int (the parameter default `0`) or a float. */
  datatype Number = NumInt(i: int) | NumFloat(r: real)

  /** A value found in a configuration dictionary supplied by the caller. */
  datatype CVal = CInt(i: int) | CBool(b: bool) | CFloat(r: real) | CStr(s: string) | CNone

  type Config = map<string, CVal>

  /** The trigger settings of a tunnel. */
  datatype Settings = Settings(startInput: int, startOnHigh: bool, startDelay: Number,
                               stopInput: int, stopOnHigh: bool, stopDelay: Number)

  /** A trigger value means "high" when its upper-cased text contains "HIGH". */
  predicate OnHigh(v: string)
  {
    Contains(Upper(v), "HIGH")
  }

  /** `isinstance(v, int)`: a bool is an int in Python, and compares as 0 or 1. `set_config`
      stores the bool itself, so a later `get_config` gives back `True`/`False` where the
      model gives 1/0; the pin comparisons of `_input_changed` agree on both. */
  function IntArg(v: CVal): (r: Option<int>)
    ensures r.Some? <==> v.CInt? || v.CBool?
  {
    match v
    case CInt(i) => Some(i)
    case CBool(b) => Some(if b then 1 else 0)
    case _ => None
  }

  function Pin(m: Config, k: string, d: int): int
  {
    if k in m && IntArg(m[k]).Some? then IntArg(m[k]).value else d
  }

  function Trigger(m: Config, k: string, d: bool): bool
  {
    if k in m && m[k].CStr? then OnHigh(m[k].s) else d
  }

  function Delay(m: Config, k: string, d: Number): Number
  {
    if k in m && m[k].CFloat? then NumFloat(m[k].r) else d
  }

  /** `set_config(config)` on the settings; `None` stands for an argument that is not a
      dictionary. */
  function Configured(s: Settings, config: Option<Config>): Settings
  {
    if config.None? || config.value == map[] then s
    else
      var m := config.value;
      Settings(Pin(m, "start_input", s.startInput), Trigger(m, "start_trigger_value", s.startOnHigh),
               Delay(m, "start_delay", s.startDelay), Pin(m, "stop_input", s.stopInput),
               Trigger(m, "stop_trigger_value", s.stopOnHigh), Delay(m, "stop_delay", s.stopDelay))
  }

  function NumberVal(n: Number): CVal
  {
    match n case NumInt(i) => CInt(i) case NumFloat(r) => CFloat(r)
  }

  /** `get_config()`: the six settings; the triggers come back as bools. */
  function ConfigOf(s: Settings): Config
  {
    map["start_input" := CInt(s.startInput), "start_trigger_value" := CBool(s.startOnHigh),
        "start_delay" := NumberVal(s.startDelay), "stop_input" := CInt(s.stopInput),
        "stop_trigger_value" := CBool(s.stopOnHigh), "stop_delay" := NumberVal(s.stopDelay)]
  }

  /** Feeding the configuration back changes no setting: pins and float delays are written
      back as they were, and the bool triggers and int delays are not accepted at all. */
  lemma ConfigRoundTrip(s: Settings)
    ensures Configured(s, Some(ConfigOf(s))) == s
  {
    var m := ConfigOf(s);
    assert m != map[] by { assert "start_input" in m; }
    assert Pin(m, "start_input", s.startInput) == s.startInput;
    assert Pin(m, "stop_input", s.stopInput) == s.stopInput;
    assert Trigger(m, "start_trigger_value", s.startOnHigh) == s.startOnHigh;
    assert Trigger(m, "stop_trigger_value", s.stopOnHigh) == s.stopOnHigh;
    assert Delay(m, "start_delay", s.startDelay) == s.startDelay;
    assert Delay(m, "stop_delay", s.stopDelay) == s.stopDelay;
  }

  /** A non-dictionary or empty argument changes nothing; otherwise each setting takes the
      value under its key exactly when that value has the setting's type (an int or bool for
      a pin, a string for a trigger, a float for a delay), and keeps its value otherwise. */
  lemma ConfigTyped(s: Settings, config: Option<Config>)
    ensures config.None? || config == Some(map[]) ==> Configured(s, config) == s
    ensures config.Some? && config.value != map[] ==>
      var m := config.value;
      var r := Configured(s, config);
      ("start_input" in m && m["start_input"].CInt? ==> r.startInput == m["start_input"].i)
      && ("start_input" !in m || m["start_input"].CFloat? || m["start_input"].CStr? || m["start_input"].CNone? ==> r.startInput == s.startInput)
      && ("start_trigger_value" in m && m["start_trigger_value"].CStr? ==> r.startOnHigh == OnHigh(m["start_trigger_value"].s))
      && ("start_trigger_value" !in m || !m["start_trigger_value"].CStr? ==> r.startOnHigh == s.startOnHigh)
      && ("start_delay" in m && m["start_delay"].CFloat? ==> r.startDelay == NumFloat(m["start_delay"].r))
      && ("start_delay" !in m || !m["start_delay"].CFloat? ==> r.startDelay == s.startDelay)
      && ("stop_input" in m && m["stop_input"].CInt? ==> r.stopInput == m["stop_input"].i)
      && ("stop_input" !in m || m["stop_input"].CFloat? || m["stop_input"].CStr? || m["stop_input"].CNone? ==> r.stopInput == s.stopInput)
      && ("stop_trigger_value" in m && m["stop_trigger_value"].CStr? ==> r.stopOnHigh == OnHigh(m["stop_trigger_value"].s))
      && ("stop_trigger_value" !in m || !m["stop_trigger_value"].CStr? ==> r.stopOnHigh == s.stopOnHigh)
      && ("stop_delay" in m && m["stop_delay"].CFloat? ==> r.stopDelay == NumFloat(m["stop_delay"].r))
      && ("stop_delay" !in m || !m["stop_delay"].CFloat? ==> r.stopDelay == s.stopDelay)
  {
  }

  /** Applying the same configuration twice is the same as applying it once. */
  lemma ConfigIdempotent(s: Settings, config: Option<Config>)
    ensures Configured(Configured(s, config), config) == Configured(s, config)
  {
  }

  /** Upper-casing twice is upper-casing once. */
  lemma UpperIdempotent(v: string)
    ensures Upper(Upper(v)) == Upper(v)
  {
    assert forall k :: 0 <= k < |v| ==> Upper(Upper(v))[k] == Upper(v)[k];
  }

  /** The trigger test ignores case. */
  lemma TriggerIgnoresCase(v: string)
    ensures OnHigh(Upper(v)) == OnHigh(v)
  {
    UpperIdempotent(v);
  }

  /** A value whose first four characters upper-case to "HIGH" is high. */
  lemma TriggerHighPrefix(v: string)
    requires |v| >= 4 && Upper(v[..4]) == "HIGH"
    ensures OnHigh(v)
  {
    assert Upper(v)[..4] == Upper(v[..4]);
    ContainsSelf(Upper(v), "HIGH");
  }

  /** A value shorter than four characters, or one without an 'h' or 'H', is low. */
  lemma TriggerLow(v: string)
    requires |v| < 4 || ('h' !in v && 'H' !in v)
    ensures !OnHigh(v)
  {
    if |v| < 4 {
      NotContainsShort(Upper(v), "HIGH");
    } else {
      forall k | 0 <= k < |v|
        ensures Upper(v)[k] != 'H'
      {
        assert v[k] != 'h' && v[k] != 'H';
      }
      NotContainsChar(Upper(v), "HIGH", 0);
    }
  }

  /** Python's `int(x)` of a float: truncation toward zero. */
  function Trunc(r: real): (n: int)
    ensures r >= 0.0 ==> n >= 0 && n as real <= r < n as real + 1.0
    ensures r < 0.0 ==> n <= 0 && n as real - 1.0 < r <= n as real
  {
    if r >= 0.0 then r.Floor else -((-r).Floor)
  }

  /** `int(v)` as `set_tunnel_config` applies it, text being stripped and read as `Text.Int`
      reads it; `None` for the TypeError or ValueError it catches. */
  function PyIntOf(v: CVal): (r: Option<int>)
    ensures v.CInt? ==> r == Some(v.i)
    ensures v.CNone? ==> r.None?
    ensures v.CStr? ==> r == Text.Int(Strip(v.s))
  {
    match v
    case CInt(i) => Some(i)
    case CBool(b) => Some(if b then 1 else 0)
    case CFloat(r) => Some(Trunc(r))
    case CStr(s) => Text.Int(Strip(s))
    case CNone => None
  }

  /** `set_tunnel_config(config)` on the two pins; a value `int()` refuses leaves the pin as
      it was (a warning is logged). */
  function TunnelConfigured(s: Settings, config: Option<Config>): Settings
  {
    if config.None? || config.value == map[] then s
    else
      var m := config.value;
      var start := if "input_start" in m && PyIntOf(m["input_start"]).Some? then PyIntOf(m["input_start"]).value else s.startInput;
      var stop := if "input_stop" in m && PyIntOf(m["input_stop"]).Some? then PyIntOf(m["input_stop"]).value else s.stopInput;
      s.(startInput := start, stopInput := stop)
  }

  /** `get_tunnel_config()`. */
  function TunnelConfigOf(s: Settings): Config
  {
    map["input_start" := CInt(s.startInput), "input_stop" := CInt(s.stopInput)]
  }

  /** The pins survive a round trip through the tunnel configuration, and the tunnel
      configuration touches nothing but the pins. */
  lemma TunnelConfigRoundTrip(s: Settings, config: Option<Config>)
    ensures TunnelConfigured(s, Some(TunnelConfigOf(s))) == s
    ensures var r := TunnelConfigured(s, config);
      r.startOnHigh == s.startOnHigh && r.stopOnHigh == s.stopOnHigh
      && r.startDelay == s.startDelay && r.stopDelay == s.stopDelay
  {
    var m := TunnelConfigOf(s);
    assert "input_start" in m;
  }

  /** A pin given as a float is truncated toward zero, one given as a numeric string is
      parsed, and one that is None is ignored. */
  lemma TunnelConfigConversions(s: Settings)
    ensures TunnelConfigured(s, Some(map["input_start" := CFloat(-2.5)])).startInput == -2
    ensures TunnelConfigured(s, Some(map["input_start" := CFloat(2.5)])).startInput == 2
    ensures TunnelConfigured(s, Some(map["input_stop" := CNone])) == s
    ensures TunnelConfigured(s, Some(map["input_stop" := CStr("7")])).stopInput == 7
  {
    assert "input_start" in map["input_start" := CFloat(-2.5)];
    assert "input_start" in map["input_start" := CFloat(2.5)];
    assert "input_stop" in map["input_stop" := CStr("7")];
    assert Trunc(-2.5) == -2;
    assert Trunc(2.5) == 2;
    assert Strip("7") == "7";
    assert Digits("7", 10) == Some(7);
    assert map["input_stop" := CNone] != map[] by { assert "input_stop" in map["input_stop" := CNone]; }
  }

  // ------------------------------------------------------------ scans

  /** A scan: its id, start time, stop time (set when it stops) and its tags by id. The
      initial last scan has no `'tags'` entry, which is read as an empty map here. */
  datatype Scan = Scan(id: int, startTime: real, stopTime: Option<real>, tags: map<string, TagVal>)

  /** `_current_scan`: empty, a running scan, or the `{'stop_time': t}` left behind when a stop
      finds no scan. */
  datatype Current = Idle | Scanning(scan: Scan) | StopStamped(stopTime: real)

  /** The dictionary handed to the scan callback: the scan with `'inventory'` = the values of
      its tag map and no `'tags'` entry. */
  datatype ScanReport = ScanReport(callback: CallbackId, id: int, startTime: real, stopTime: real,
                                   inventory: seq<TagVal>)

  /** `inv` holds each value of the map once per key. */
  predicate Lists(inv: seq<TagVal>, tags: map<string, TagVal>)
  {
    |inv| == |tags.Keys|
    && (forall k :: k in tags ==> tags[k] in inv)
    && (forall t :: t in inv ==> t in tags.Values)
  }

  predicate ReportOf(r: ScanReport, callback: CallbackId, s: Scan)
  {
    r.callback == callback && r.id == s.id && r.startTime == s.startTime
    && s.stopTime == Some(r.stopTime) && Lists(r.inventory, s.tags)
  }

  /** One reported tag collected into the scan: a stored, non-empty tag with the same id gets
      the new tag's timestamp as last seen and the summed seen count; otherwise the new tag
      is stored with its timestamp as first seen. */
  function CollectTag(m: map<string, TagVal>, t: TagVal): map<string, TagVal>
  {
    var id := Id(t);
    if id in m && m[id].fields != map[] then
      var cur := m[id];
      m[id := Set(Set(cur, "last_seen", Get(t, "timestamp")), "seen_count", Some(Int(SeenCount(cur) + SeenCount(t))))]
    else m[id := Set(t, "first_seen", Get(t, "timestamp"))]
  }

  /** `_new_inventory(batch)` on the scan's tag map: the tags collected in order. */
  function Collect(m: map<string, TagVal>, batch: seq<TagVal>): map<string, TagVal>
    decreases |batch|
  {
    if |batch| == 0 then m else CollectTag(Collect(m, batch[..|batch|-1]), batch[|batch|-1])
  }

  /** The effect of one tag on the map, key by key. */
  lemma CollectTagStep(m: map<string, TagVal>, t: TagVal)
    ensures var r := CollectTag(m, t);
      r.Keys == m.Keys + {Id(t)}
      && (forall k :: k in m && k != Id(t) ==> r[k] == m[k])
      && (Id(t) in m && m[Id(t)].fields != map[] ==>
            Get(r[Id(t)], "last_seen") == Get(t, "timestamp")
            && SeenCount(r[Id(t)]) == SeenCount(m[Id(t)]) + SeenCount(t)
            && Get(r[Id(t)], "first_seen") == Get(m[Id(t)], "first_seen")
            && Get(r[Id(t)], "timestamp") == Get(m[Id(t)], "timestamp"))
      && (Id(t) !in m || m[Id(t)].fields == map[] ==>
            Get(r[Id(t)], "first_seen") == Get(t, "timestamp")
            && SeenCount(r[Id(t)]) == SeenCount(t)
            && r[Id(t)].kind == t.kind)
  {
  }

  /** After a batch the map's keys are its old keys plus the batch's ids. */
  lemma {:induction false} CollectKeys(m: map<string, TagVal>, batch: seq<TagVal>)
    ensures Collect(m, batch).Keys == m.Keys + Ids(batch)
    decreases |batch|
  {
    if |batch| > 0 {
      CollectKeys(m, batch[..|batch|-1]);
      CollectTagStep(Collect(m, batch[..|batch|-1]), batch[|batch|-1]);
    }
  }

  /** Stored tags whose id the batch does not mention are untouched. */
  lemma {:induction false} CollectUntouched(m: map<string, TagVal>, batch: seq<TagVal>, k: string)
    requires k in m && k !in Ids(batch)
    ensures k in Collect(m, batch) && Collect(m, batch)[k] == m[k]
    decreases |batch|
  {
    if |batch| > 0 {
      CollectUntouched(m, batch[..|batch|-1], k);
      CollectTagStep(Collect(m, batch[..|batch|-1]), batch[|batch|-1]);
    }
  }

  /** The seen count stored under an id is its count before the batch (0 for a new id) plus
      the seen counts of every tag of the batch with that id. An empty stored tag counts 0,
      so replacing it keeps the sum. */
  lemma {:induction false} CollectSeenCount(m: map<string, TagVal>, batch: seq<TagVal>, k: string)
    requires k in m || k in Ids(batch)
    ensures k in Collect(m, batch)
    ensures SeenCount(Collect(m, batch)[k]) == (if k in m then SeenCount(m[k]) else 0) + SeenSum(batch, k)
    decreases |batch|
  {
    CollectKeys(m, batch);
    if |batch| > 0 {
      var p := batch[..|batch|-1];
      var t := batch[|batch|-1];
      var prev := Collect(m, p);
      CollectKeys(m, p);
      CollectTagStep(prev, t);
      if k in m || k in Ids(p) {
        CollectSeenCount(m, p, k);
        if Id(t) == k && prev[k].fields == map[] {
          assert SeenCount(prev[k]) == 0;
        }
      } else {
        SeenSumAbsent(p, k);
        assert Id(t) == k;
      }
    }
  }

  /** The action `_input_changed` schedules. */
  datatype Action = NoAction | StartScan(id: int) | StopScan(id: int)

  /** `_input_changed(pin, high)`: the start pin at its level starts scan `lastId + 1`; any
      other pin that is the stop pin at its level stops the current scan, and nothing happens
      when there is none (the KeyError is caught). */
  function Triggered(s: Settings, current: Current, lastId: int, pin: int, high: bool): Action
  {
    if pin == s.startInput then
      if high == s.startOnHigh then StartScan(lastId + 1) else NoAction
    else if pin == s.stopInput && high == s.stopOnHigh && current.Scanning? then StopScan(current.scan.id)
    else NoAction
  }

  /** When each action is scheduled. The start pin is checked first, so a tunnel whose two
      pins are the same never stops from its input. */
  lemma TriggerDecisions(s: Settings, current: Current, lastId: int, pin: int, high: bool)
    ensures var a := Triggered(s, current, lastId, pin, high);
      (a.StartScan? <==> pin == s.startInput && high == s.startOnHigh)
      && (a.StartScan? ==> a.id == lastId + 1)
      && (a.StopScan? <==> pin != s.startInput && pin == s.stopInput && high == s.stopOnHigh && current.Scanning?)
      && (a.StopScan? ==> a.id == current.scan.id)
      && (s.startInput == s.stopInput ==> !a.StopScan?)
      && (!current.Scanning? ==> !a.StopScan?)
  {
  }

  // ------------------------------------------------------------ scan start and stop

  /** What a scan start or stop ends in: ignored, a scan begun, a scan finished, a retry of the
      same scan scheduled, a logged failure on a disconnected reader, or an uncaught error. */
  datatype ScanStep = Ignored | Began | Finished | Retry(id: int) | GaveUp | Crashed(error: Error)

  const KeyErrorId := Fault("KeyError: 'id'")
  const KeyErrorTags := Fault("KeyError: 'tags'")

  /** `_start_scan(scanId)` as written: a failed start on a connected reader schedules its
      retry with `self._current_scan['id']`, and the current scan is empty on that path, so the
      retry raises KeyError instead. */
  function StartScanAsWritten(current: Current, scanId: int, started: Outcome, connected: bool): ScanStep
  {
    if current != Idle then Ignored
    else match started
      case Done => Began
      case Raise(e) =>
        if IsReaderException(e) then (if connected then Crashed(KeyErrorId) else GaveUp)
        else Crashed(e)
  }

  /** A start failing on a connected reader never schedules the retry it logs. */
  lemma StartRetryCrashes(scanId: int, msg: string)
    ensures StartScanAsWritten(Idle, scanId, Raise(ReaderError(msg)), true) == Crashed(KeyErrorId)
    ensures StartScanResult(Idle, scanId, Raise(ReaderError(msg)), true) == Retry(scanId)
  {
  }

  /** `_start_scan(scanId)` with the retry that was evidently intended: the same scan id. A
      scan in progress, or the left-over stop stamp, makes the start ignored; the reader's
      `start_inventory` outcome decides the rest. */
  function StartScanResult(current: Current, scanId: int, started: Outcome, connected: bool): ScanStep
  {
    if current != Idle then Ignored
    else match started
      case Done => Began
      case Raise(e) =>
        if IsReaderException(e) then (if connected then Retry(scanId) else GaveUp)
        else Crashed(e)
  }

  /** A start begins a scan exactly when none is current and the reader started; the retry
      repeats the same id; the corrected start differs from the written one only there. */
  lemma StartScanOutcomes(current: Current, scanId: int, started: Outcome, connected: bool)
    ensures var r := StartScanResult(current, scanId, started, connected);
      (r == Ignored <==> current != Idle)
      && (r == Began <==> current == Idle && started == Done)
      && (r.Retry? <==> current == Idle && started.Raise? && IsReaderException(started.error) && connected)
      && (r.Retry? ==> r.id == scanId)
      && (r.Crashed? <==> current == Idle && started.Raise? && !IsReaderException(started.error))
      && (!r.Retry? ==> StartScanAsWritten(current, scanId, started, connected) == r)
  {
  }

  /** `_stop_scan(scanId)`: the reader's `stop_inventory` outcome decides; a stop that succeeds
      without a running scan fails with KeyError. The scan id is only logged. */
  function StopScanResult(current: Current, scanId: int, stopped: Outcome, connected: bool): ScanStep
  {
    match stopped
    case Done => if current.Scanning? then Finished else Crashed(KeyErrorTags)
    case Raise(e) =>
      if IsReaderException(e) then (if connected then Retry(scanId) else GaveUp)
      else Crashed(e)
  }

  /** The stop stamp a stop without a scan leaves is never cleared by a later input: starts
      are ignored and the stop pin schedules nothing, so the tunnel stays stuck. */
  lemma StopStampBlocks(s: Settings, t: real, scanId: int, started: Outcome, connected: bool,
                        lastId: int, pin: int, high: bool, stopped: Outcome)
    ensures StartScanResult(StopStamped(t), scanId, started, connected) == Ignored
    ensures !Triggered(s, StopStamped(t), lastId, pin, high).StopScan?
    ensures StopScanResult(StopStamped(t), scanId, stopped, connected) != Finished
    ensures StopScanResult(Idle, scanId, Done, connected) == Crashed(KeyErrorTags)
  {
  }

  // ------------------------------------------------------------ the tunnel object

  class Tunnel {
    const base: StatusRecord
    const reader: Reader
    var isStarted: bool
    var cbScanFinished: Option<CallbackId>
    /** `_reader_org_values`: the reader's connection flag and callbacks before `start`. */
    var orgConnected: bool
    var orgCbInputChanged: Option<CallbackId>
    var orgCbStatus: Option<CallbackId>
    var orgCbInventory: Option<CallbackId>
    var startInput: int
    var startOnHigh: bool
    var startDelay: Number
    var stopInput: int
    var stopOnHigh: bool
    var stopDelay: Number
    var current: Current
    var lastScan: Scan
    /** Every call of the scan callback, oldest first. */
    var reports: seq<ScanReport>

    /** The tunnel's status record is its own, not its reader's. */
    predicate Valid()
    {
      base != reader.base
    }

    function GetSettings(): Settings
      reads this
    {
      Settings(startInput, startOnHigh, startDelay, stopInput, stopOnHigh, stopDelay)
    }

    /** `Tunnel.__init__(reader, instance)`. */
    constructor (reader: Reader, instance: string, now: real)
      ensures this.reader == reader && fresh(base) && Valid()
      ensures base.name == InstanceName(instance, "Tunnel") && base.info == InitialStatus(instance, now)
      ensures base.cbStatus == None && base.notices == []
      ensures !isStarted && cbScanFinished == None
      ensures GetSettings() == Settings(1, true, NumFloat(0.0), 2, false, NumFloat(0.0))
      ensures current == Idle && lastScan == Scan(0, 0.0, Some(0.0), map[]) && reports == []
    {
      base := new StatusRecord(instance, "Tunnel", now);
      this.reader := reader;
      isStarted := false;
      cbScanFinished := None;
      orgConnected := false;
      orgCbInputChanged := None;
      orgCbStatus := None;
      orgCbInventory := None;
      startInput := 1;
      startOnHigh := true;
      startDelay := NumFloat(0.0);
      stopInput := 2;
      stopOnHigh := false;
      stopDelay := NumFloat(0.0);
      current := Idle;
      lastScan := Scan(0, 0.0, Some(0.0), map[]);
      reports := [];
    }

    /** `set_cb_scan`: installs the callback and returns the previous one. */
    method SetCbScan(callback: Option<CallbackId>) returns (previous: Option<CallbackId>)
      modifies this`cbScanFinished
      ensures previous == old(cbScanFinished) && cbScanFinished == callback
    {
      previous := cbScanFinished;
      cbScanFinished := callback;
    }

    /** `set_input_start(pin, triggerValue, delay)`. */
    method SetInputStart(pin: int, triggerValue: string, delay: Number)
      modifies this`startInput, this`startOnHigh, this`startDelay
      ensures GetSettings() == old(GetSettings()).(startInput := pin, startOnHigh := OnHigh(triggerValue), startDelay := delay)
    {
      startInput := pin;
      startOnHigh := Contains(Upper(triggerValue), "HIGH");
      startDelay := delay;
    }

    /** `set_input_stop(pin, triggerValue, delay)`. */
    method SetInputStop(pin: int, triggerValue: string, delay: Number)
      modifies this`stopInput, this`stopOnHigh, this`stopDelay
      ensures GetSettings() == old(GetSettings()).(stopInput := pin, stopOnHigh := OnHigh(triggerValue), stopDelay := delay)
    {
      stopInput := pin;
      stopOnHigh := Contains(Upper(triggerValue), "HIGH");
      stopDelay := delay;
    }

    /** `get_config`. */
    method GetConfig() returns (config: Config)
      ensures config == ConfigOf(GetSettings())
      ensures Configured(GetSettings(), Some(config)) == GetSettings()
    {
      config := map["start_input" := CInt(startInput), "start_trigger_value" := CBool(startOnHigh),
                    "start_delay" := NumberVal(startDelay), "stop_input" := CInt(stopInput),
                    "stop_trigger_value" := CBool(stopOnHigh), "stop_delay" := NumberVal(stopDelay)];
      ConfigRoundTrip(GetSettings());
    }

    /** `set_config(config)`; `None` stands for an argument that is not a dictionary. */
    method SetConfig(config: Option<Config>)
      modifies this`startInput, this`startOnHigh, this`startDelay, this`stopInput, this`stopOnHigh, this`stopDelay
      ensures GetSettings() == Configured(old(GetSettings()), config)
    {
      if config.None? || config.value == map[] {
        return;
      }
      var m := config.value;
      // each key is taken only when present with a value of the accepted type
      startInput := Pin(m, "start_input", startInput);
      startOnHigh := Trigger(m, "start_trigger_value", startOnHigh);
      startDelay := Delay(m, "start_delay", startDelay);
      stopInput := Pin(m, "stop_input", stopInput);
      stopOnHigh := Trigger(m, "stop_trigger_value", stopOnHigh);
      stopDelay := Delay(m, "stop_delay", stopDelay);
    }

    /** `set_tunnel_config(config)`. */
    method SetTunnelConfig(config: Option<Config>)
      modifies this`startInput, this`stopInput
      ensures GetSettings() == TunnelConfigured(old(GetSettings()), config)
    {
      if config.None? || config.value == map[] {
        return;
      }
      var m := config.value;
      if "input_start" in m && PyIntOf(m["input_start"]).Some? {
        startInput := PyIntOf(m["input_start"]).value;
      }
      if "input_stop" in m && PyIntOf(m["input_stop"]).Some? {
        stopInput := PyIntOf(m["input_stop"]).value;
      }
    }

    /** `get_tunnel_config`. */
    method GetTunnelConfig() returns (config: Config)
      ensures config == TunnelConfigOf(GetSettings())
      ensures TunnelConfigured(GetSettings(), Some(config)) == GetSettings()
    {
      config := map["input_start" := CInt(startInput), "input_stop" := CInt(stopInput)];
      TunnelConfigRoundTrip(GetSettings(), None);
    }

    /** `start`: a started tunnel returns at once. Otherwise the reader's connection state is
        remembered and, when it is not connected, `connect` is awaited (its outcome is a
        parameter; a failure propagates and leaves the tunnel stopped). Then the tunnel
        installs its handlers, keeps the reader's previous callbacks, and reports RUNNING. */
    method Start(connect: Outcome, now: real) returns (res: Outcome)
      requires Valid()
      modifies this`isStarted, this`orgConnected, this`orgCbInputChanged, this`orgCbStatus, this`orgCbInventory
      modifies base`info, base`notices, reader`connected, reader`cbInputChanged, reader`inputEventsPending, reader`cbInventory, reader.base`cbStatus
      ensures old(isStarted) ==>
        (res == Done && isStarted && orgConnected == old(orgConnected)
         && orgCbInputChanged == old(orgCbInputChanged) && orgCbStatus == old(orgCbStatus) && orgCbInventory == old(orgCbInventory)
         && unchanged(base) && unchanged(reader) && unchanged(reader.base))
      ensures !old(isStarted) ==> orgConnected == old(reader.connected)
      ensures !old(isStarted) && !old(reader.connected) && connect.Raise? ==>
        res == connect && !isStarted && unchanged(base) && unchanged(reader) && unchanged(reader.base)
      ensures !old(isStarted) && (old(reader.connected) || connect == Done) ==>
        res == Done && isStarted && reader.connected
        && orgCbInputChanged == old(reader.cbInputChanged) && orgCbStatus == old(reader.base.cbStatus)
        && orgCbInventory == old(reader.cbInventory)
        && reader.cbInputChanged == Some(InputHandler) && reader.base.cbStatus == Some(StatusHandler)
        && reader.cbInventory == Some(IgnoreHandler)
        && reader.inputEventsPending == old(reader.inputEventsPending) + (if old(reader.base.info.status) == RUNNING then [true] else [])
        && base.info == Updated(old(base.info), RUNNING, "running", None, now)
        && base.notices == old(base.notices) + Notices(old(base.info), RUNNING, "running", None, now, base.cbStatus)
    {
      if isStarted {
        return Done;
      }
      orgConnected := reader.connected;
      if !reader.connected {
        if connect.Raise? {
          return connect;
        }
        // the link `connect` establishes
        reader.connected := true;
      }
      isStarted := true;
      orgCbInputChanged := reader.SetCbInputChanged(Some(InputHandler));
      orgCbStatus := reader.base.SetCbStatus(Some(StatusHandler));
      orgCbInventory := reader.SetCbInventory(Some(IgnoreHandler));
      base.UpdateStatus(RUNNING, "running", None, now);
      res := Done;
    }

    /** `stop`: a stopped tunnel returns at once. Otherwise the reader's callbacks are put
        back, the status becomes ERROR "stopped", and a reader that was connected only for the
        tunnel is disconnected. */
    method Stop(now: real)
      requires Valid()
      modifies this`isStarted, base`info, base`notices
      modifies reader`inventory, reader`connected, reader`cbInputChanged, reader`inputEventsPending, reader`cbInventory, reader.base`cbStatus
      ensures !old(isStarted) ==> !isStarted && unchanged(base) && unchanged(reader) && unchanged(reader.base)
      ensures old(isStarted) ==>
        !isStarted
        && reader.cbInputChanged == orgCbInputChanged && reader.base.cbStatus == orgCbStatus
        && reader.cbInventory == orgCbInventory
        && reader.inputEventsPending == old(reader.inputEventsPending)
             + (if old(reader.base.info.status) == RUNNING then [orgCbInputChanged.Some?] else [])
        && base.info == Updated(old(base.info), ERROR, "stopped", None, now)
        && base.notices == old(base.notices) + Notices(old(base.info), ERROR, "stopped", None, now, base.cbStatus)
        && (!orgConnected && old(reader.connected) ==> !reader.connected && reader.inventory == map[])
        && (orgConnected || !old(reader.connected) ==>
              reader.connected == old(reader.connected) && reader.inventory == old(reader.inventory))
    {
      if !isStarted {
        return;
      }
      isStarted := false;
      var _ := reader.SetCbInputChanged(orgCbInputChanged);
      var _ := reader.base.SetCbStatus(orgCbStatus);
      var _ := reader.SetCbInventory(orgCbInventory);
      base.UpdateStatus(ERROR, "stopped", None, now);
      if !orgConnected && reader.connected {
        reader.Disconnect();
      }
    }

    /** A tunnel started on a reader and stopped again leaves the reader's callbacks and its
        connection state as it found them. */
    method StartThenStop(connect: Outcome, t1: real, t2: real)
      requires Valid() && !isStarted
      requires reader.connected || connect == Done
      modifies this`isStarted, this`orgConnected, this`orgCbInputChanged, this`orgCbStatus, this`orgCbInventory
      modifies base`info, base`notices
      modifies reader`inventory, reader`connected, reader`cbInputChanged, reader`inputEventsPending, reader`cbInventory, reader.base`cbStatus
      ensures !isStarted
      ensures reader.connected == old(reader.connected)
      ensures reader.cbInputChanged == old(reader.cbInputChanged) && reader.cbInventory == old(reader.cbInventory)
      ensures reader.base.cbStatus == old(reader.base.cbStatus)
    {
      var _ := Start(connect, t1);
      Stop(t2);
    }

    /** `_reader_status_changed(status)`: the reader's status, with its message prefixed by
        "Reader - " and its timestamp, becomes the tunnel's. */
    method ReaderStatusChanged(status: StatusInfo, now: real)
      modifies base`info, base`notices
      ensures base.info == Updated(old(base.info), status.status, "Reader - " + status.message, Some(status.timestamp), now)
      ensures base.notices == old(base.notices)
        + Notices(old(base.info), status.status, "Reader - " + status.message, Some(status.timestamp), now, base.cbStatus)
    {
      base.UpdateStatus(status.status, "Reader - " + status.message, Some(status.timestamp), now);
    }

    /** `_input_changed(pin, high)`: the scan start or stop it schedules. */
    method InputChanged(pin: int, high: bool) returns (a: Action)
      ensures a == Triggered(GetSettings(), current, lastScan.id, pin, high)
      ensures a.StartScan? ==> a.id == lastScan.id + 1 && pin == startInput
      ensures a.StopScan? ==> current.Scanning? && a.id == current.scan.id && pin == stopInput && pin != startInput
    {
      if pin == startInput {
        a := if high == startOnHigh then StartScan(lastScan.id + 1) else NoAction;
      } else if pin == stopInput && high == stopOnHigh && current.Scanning? {
        a := StopScan(current.scan.id);
      } else {
        a := NoAction;
      }
    }

    /** `_new_inventory(batch)`: the tags are collected into the running scan; a non-empty
        batch without a running scan fails with KeyError. */
    method NewInventory(batch: seq<TagVal>) returns (res: Outcome)
      modifies this`current
      ensures old(current).Scanning? ==>
        res == Done && current == Scanning(old(current).scan.(tags := Collect(old(current).scan.tags, batch)))
      ensures !old(current).Scanning? && |batch| > 0 ==> res == Raise(KeyErrorTags) && current == old(current)
      ensures !old(current).Scanning? && |batch| == 0 ==> res == Done && current == old(current)
    {
      if !current.Scanning? {
        return if |batch| == 0 then Done else Raise(KeyErrorTags);
      }
      var tags := current.scan.tags;
      for i := 0 to |batch|
        invariant tags == Collect(old(current).scan.tags, batch[..i])
      {
        assert batch[..i+1][..i] == batch[..i];
        tags := CollectTag(tags, batch[i]);
      }
      assert batch[..|batch|] == batch;
      current := Scanning(current.scan.(tags := tags));
      res := Done;
    }

    /** `_start_scan(scanId)` with the reader's `start_inventory` outcome: a begun scan is the
        current one, with no tags, and the tunnel's collecting handler takes the reader's
        reports. A retry is returned rather than scheduled. */
    method StartScanStep(scanId: int, started: Outcome, now: real) returns (r: ScanStep)
      modifies this`current, reader`cbInventory
      ensures r == StartScanResult(old(current), scanId, started, reader.connected)
      ensures r == Began ==> current == Scanning(Scan(scanId, now, None, map[])) && reader.cbInventory == Some(CollectHandler)
      ensures r != Began ==> current == old(current) && reader.cbInventory == old(reader.cbInventory)
    {
      if current != Idle {
        return Ignored;
      }
      match started {
        case Done =>
          current := Scanning(Scan(scanId, now, None, map[]));
          var _ := reader.SetCbInventory(Some(CollectHandler));
          r := Began;
        case Raise(e) =>
          if !IsReaderException(e) {
            return Crashed(e);
          }
          r := if reader.connected then Retry(scanId) else GaveUp;
      }
    }

    /** The scan's tags as a list, each stored tag once. */
    method TagList(tags: map<string, TagVal>) returns (inv: seq<TagVal>)
      ensures Lists(inv, tags)
    {
      var left := tags.Keys;
      inv := [];
      while left != {}
        invariant left <= tags.Keys
        invariant |inv| + |left| == |tags.Keys|
        invariant forall k :: k in tags && k !in left ==> tags[k] in inv
        invariant forall t :: t in inv ==> t in tags.Values
        decreases |left|
      {
        var k :| k in left;
        inv := inv + [tags[k]];
        left := left - {k};
      }
    }

    /** `_stop_scan(scanId)` with the reader's `stop_inventory` outcome. A finished scan gets
        its stop time, is reported to the scan callback with its tags as the inventory,
        becomes the last scan, and the reader's reports are ignored again. A stop that
        succeeds without a running scan leaves only the stop stamp and fails. */
    method StopScanStep(scanId: int, stopped: Outcome, now: real) returns (r: ScanStep)
      modifies this`current, this`lastScan, this`reports, reader`cbInventory
      ensures r == StopScanResult(old(current), scanId, stopped, reader.connected)
      ensures r == Finished ==>
        var s := old(current).scan.(stopTime := Some(now));
        current == Idle && lastScan == s && reader.cbInventory == Some(IgnoreHandler)
        && (cbScanFinished.None? ==> reports == old(reports))
        && (cbScanFinished.Some? ==>
              |reports| == |old(reports)| + 1 && reports[..|old(reports)|] == old(reports)
              && ReportOf(reports[|old(reports)|], cbScanFinished.value, s))
      ensures r == Crashed(KeyErrorTags) && stopped == Done ==>
        current == StopStamped(now) && lastScan == old(lastScan) && reports == old(reports)
        && reader.cbInventory == old(reader.cbInventory)
      ensures stopped.Raise? ==>
        current == old(current) && lastScan == old(lastScan) && reports == old(reports)
        && reader.cbInventory == old(reader.cbInventory)
    {
      match stopped {
        case Raise(e) =>
          if !IsReaderException(e) {
            return Crashed(e);
          }
          return if reader.connected then Retry(scanId) else GaveUp;
        case Done =>
      }
      if !current.Scanning? {
        current := StopStamped(now);
        return Crashed(KeyErrorTags);
      }
      var s := current.scan.(stopTime := Some(now));
      var inv := TagList(s.tags);
      if cbScanFinished.Some? {
        reports := reports + [ScanReport(cbScanFinished.value, s.id, s.startTime, now, inv)];
      }
      var _ := reader.SetCbInventory(Some(IgnoreHandler));
      lastScan := s;
      current := Idle;
      r := Finished;
    }
  }
}
