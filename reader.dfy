/** The state every reader shares: the status record, the deduplicating inventory map that
    collects tags when no inventory callback is set, the FIFO queue of reply lines, the
    callbacks and the log of what was sent to the device and which callbacks were called.
    The device-specific engines in the other modules work on a `Reader` object. */
module Readers {
  import opened Results
  import opened Tags
  import opened Status

  // ------------------------------------------------------------ aggregation

  /** One tag of a batch merged into the map: a known id has its seen count summed and its
      last-seen time replaced by the new tag's (removed when that has none); a new id is
      inserted as the tag itself. */
  function MergeTag(inv: map<string, TagVal>, t: TagVal): map<string, TagVal>
  {
    var id := Id(t);
    if id in inv then
      var cur := inv[id];
      inv[id := Set(Set(cur, "seen_count", Some(Int(SeenCount(cur) + SeenCount(t)))), "last_seen", OptTime(LastSeen(t)))]
    else inv[id := t]
  }

  /** `_update_inventory(batch)`: the tags of the batch merged in order. */
  function Merge(inv: map<string, TagVal>, batch: seq<TagVal>): map<string, TagVal>
    decreases |batch|
  {
    if |batch| == 0 then inv else MergeTag(Merge(inv, batch[..|batch|-1]), batch[|batch|-1])
  }

  /** The ids of a batch. */
  function Ids(batch: seq<TagVal>): set<string>
    decreases |batch|
  {
    if |batch| == 0 then {} else Ids(batch[..|batch|-1]) + {Id(batch[|batch|-1])}
  }

  /** The seen counts of the batch's tags with id `k`, summed. */
  function SeenSum(batch: seq<TagVal>, k: string): int
    decreases |batch|
  {
    if |batch| == 0 then 0
    else SeenSum(batch[..|batch|-1], k) + (if Id(batch[|batch|-1]) == k then SeenCount(batch[|batch|-1]) else 0)
  }

  /** The ids of a batch are the ids of its elements. */
  lemma {:induction false} IdsMembers(batch: seq<TagVal>, k: string)
    ensures k in Ids(batch) <==> exists j :: 0 <= j < |batch| && Id(batch[j]) == k
    decreases |batch|
  {
    if |batch| > 0 {
      var p := batch[..|batch|-1];
      IdsMembers(p, k);
      if k in Ids(p) {
        var j :| 0 <= j < |p| && Id(p[j]) == k;
        assert batch[j] == p[j];
      }
      if exists j :: 0 <= j < |batch| && Id(batch[j]) == k {
        var j :| 0 <= j < |batch| && Id(batch[j]) == k;
        if j < |p| {
          assert p[j] == batch[j];
        }
      }
    }
  }

  /** After a merge the map's keys are the old keys plus the batch's ids. */
  lemma {:induction false} MergeKeys(inv: map<string, TagVal>, batch: seq<TagVal>)
    ensures Merge(inv, batch).Keys == inv.Keys + Ids(batch)
    decreases |batch|
  {
    if |batch| > 0 {
      MergeKeys(inv, batch[..|batch|-1]);
    }
  }

  /** Entries whose id is not in the batch are untouched. */
  lemma {:induction false} MergeUntouched(inv: map<string, TagVal>, batch: seq<TagVal>, k: string)
    requires k in inv && k !in Ids(batch)
    ensures k in Merge(inv, batch) && Merge(inv, batch)[k] == inv[k]
    decreases |batch|
  {
    if |batch| > 0 {
      MergeUntouched(inv, batch[..|batch|-1], k);
    }
  }

  /** A merge step on a known id sums the counts and takes the new last-seen time; on a new
      id it inserts the tag. */
  lemma MergeTagStep(inv: map<string, TagVal>, t: TagVal)
    ensures var r := MergeTag(inv, t);
      Id(t) in r
      && (Id(t) in inv ==>
            SeenCount(r[Id(t)]) == SeenCount(inv[Id(t)]) + SeenCount(t)
            && LastSeen(r[Id(t)]) == LastSeen(t)
            && FirstSeen(r[Id(t)]) == FirstSeen(inv[Id(t)]))
      && (Id(t) !in inv ==> r[Id(t)] == t)
  {
  }

  lemma {:induction false} SeenSumAbsent(batch: seq<TagVal>, k: string)
    requires k !in Ids(batch)
    ensures SeenSum(batch, k) == 0
    decreases |batch|
  {
    if |batch| > 0 {
      SeenSumAbsent(batch[..|batch|-1], k);
    }
  }

  /** The stored seen count of every id is its count before the merge (0 for a new id) plus
      the counts of all the batch's tags with that id. */
  lemma {:induction false} MergeSeenCount(inv: map<string, TagVal>, batch: seq<TagVal>, k: string)
    requires k in inv || k in Ids(batch)
    ensures k in Merge(inv, batch)
    ensures SeenCount(Merge(inv, batch)[k]) == (if k in inv then SeenCount(inv[k]) else 0) + SeenSum(batch, k)
    decreases |batch|
  {
    MergeKeys(inv, batch);
    if |batch| > 0 {
      var p := batch[..|batch|-1];
      var t := batch[|batch|-1];
      var prev := Merge(inv, p);
      MergeKeys(inv, p);
      if k in inv || k in Ids(p) {
        MergeSeenCount(inv, p, k);
        if Id(t) == k {
          MergeTagStep(prev, t);
        }
      } else {
        SeenSumAbsent(p, k);
        assert Id(t) == k;
        assert k !in prev;
      }
    }
  }

  // ------------------------------------------------------------ the reader object

  /** A callback call recorded by the model. */
  datatype Event =
    | InventoryFired(callback: CallbackId, tags: seq<TagVal>)
    | InputFired(callback: CallbackId, pin: int, high: bool)
    | ReportFired(callback: CallbackId, tags: seq<TagVal>)
    | RequestFired(callback: CallbackId, data: string)

  /** Where `_fire_inventory_event` sends a batch: the callback is called unless the batch is
      empty and empty inventories are not fired. */
  function InventoryEvents(cb: Option<CallbackId>, fireEmpty: bool, batch: seq<TagVal>): seq<Event>
  {
    if cb.Some? && (fireEmpty || |batch| > 0) then [InventoryFired(cb.value, batch)] else []
  }

  /** Without a callback the map takes a non-empty batch of a continuous inventory. */
  function InventoryAfterFire(inv: map<string, TagVal>, cb: Option<CallbackId>, batch: seq<TagVal>,
                              continuous: bool): map<string, TagVal>
  {
    if cb.None? && |batch| > 0 && continuous then Merge(inv, batch) else inv
  }

  /** A batch is either handed to the callback or merged into the map, never both. */
  lemma FireRoutesOneWay(inv: map<string, TagVal>, cb: Option<CallbackId>, fireEmpty: bool,
                         batch: seq<TagVal>, continuous: bool)
    ensures InventoryEvents(cb, fireEmpty, batch) != [] ==> InventoryAfterFire(inv, cb, batch, continuous) == inv
    ensures cb.Some? ==> InventoryAfterFire(inv, cb, batch, continuous) == inv
    ensures cb.None? ==> InventoryEvents(cb, fireEmpty, batch) == []
    ensures |batch| == 0 ==> InventoryAfterFire(inv, cb, batch, continuous) == inv
  {
  }

  /** The identity a reader reports to `ATI` (or its legacy equivalents, which give no
      serial number). */
  datatype ReaderInfo = ReaderInfo(firmware: string, firmwareVersion: string, hardware: string,
                                   hardwareVersion: string, serialNumber: Option<string>)

  class Reader {
    /** The `BaseClass` part. */
    const base: StatusRecord
    /** `_inventory`: aggregated tags by id. Insertion order is not modelled. */
    var inventory: map<string, TagVal>
    /** `_receiver_buffer`: reply lines waiting to be read, oldest first. */
    var receiveBuffer: seq<string>
    var cbInventory: Option<CallbackId>
    var cbInputChanged: Option<CallbackId>
    /** The `_enable_input_events(enable)` tasks scheduled by `set_cb_input_changed` and not
        run in this model, oldest first; each would send `AT+IEV=1` or `AT+IEV=0`. */
    var inputEventsPending: seq<bool>
    var fireEmptyInventories: bool
    /** Whether `_send` is the connection's sender rather than `_send_not_connected`. */
    var connected: bool
    /** Every command string handed to the device, oldest first. */
    var sent: seq<string>
    /** Every callback call, oldest first. */
    var events: seq<Event>
    /** Entries of `_config`: the current antenna, the last known output levels, the
        per-antenna error texts (`config['error']`) and the reader identity. */
    var antenna: Option<int>
    var outputs: Option<map<int, bool>>
    var errors: Option<map<string, string>>
    var readerInfo: Option<ReaderInfo>
    /** The legacy engine's antenna entries: `antenna_mode`, `multiplexing_antennas` and
        `antennas_pins`. */
    var antennaMode: Option<string>
    var multiplexAntennas: Option<int>
    var antennaPins: Option<int>
    /** `_echo_enabled` and `_ignore_errors` of the AT engines. */
    var echoEnabled: bool
    var ignoreErrors: bool

    /** `RfidReader.__init__` for an object of class `className`. */
    constructor (instance: string, className: string, now: real)
      ensures fresh(base) && base.info == InitialStatus(instance, now) && base.cbStatus == None
      ensures base.name == InstanceName(instance, className) && base.notices == []
      ensures inventory == map[] && receiveBuffer == [] && cbInventory == None && cbInputChanged == None
      ensures inputEventsPending == []
      ensures !fireEmptyInventories && !connected && sent == [] && events == []
      ensures antenna == None && outputs == None && errors == None && readerInfo == None
      ensures antennaMode == None && multiplexAntennas == None && antennaPins == None
      ensures !echoEnabled && !ignoreErrors
    {
      base := new StatusRecord(instance, className, now);
      inventory := map[];
      receiveBuffer := [];
      cbInventory := None;
      cbInputChanged := None;
      inputEventsPending := [];
      fireEmptyInventories := false;
      connected := false;
      sent := [];
      events := [];
      antenna := None;
      outputs := None;
      errors := None;
      readerInfo := None;
      antennaMode := None;
      multiplexAntennas := None;
      antennaPins := None;
      echoEnabled := false;
      ignoreErrors := false;
    }

    /** `is_running`. */
    predicate IsRunning()
      reads this, base
    {
      base.info.status == RUNNING
    }

    /** `_send`: a connected reader hands the text to the device; otherwise "Not connected". */
    method Send(data: string) returns (r: Outcome)
      modifies this`sent
      ensures connected ==> r == Done && sent == old(sent) + [data]
      ensures !connected ==> r == Raise(ReaderError("Not connected")) && sent == old(sent)
    {
      if !connected {
        return Raise(ReaderError("Not connected"));
      }
      sent := sent + [data];
      return Done;
    }

    /** `_add_data_to_receive_buffer`: appends at the back of the queue. */
    method AddDataToReceiveBuffer(data: string)
      modifies this`receiveBuffer
      ensures receiveBuffer == old(receiveBuffer) + [data]
    {
      receiveBuffer := receiveBuffer + [data];
    }

    /** `_recv`: the oldest line; with nothing queued the wait ends in a TimeoutError. */
    method Recv() returns (r: Result<string>)
      modifies this`receiveBuffer
      ensures old(receiveBuffer) == [] ==> r == Err(Timeout("response timeout")) && receiveBuffer == []
      ensures old(receiveBuffer) != [] ==> r == Ok(old(receiveBuffer)[0]) && receiveBuffer == old(receiveBuffer)[1..]
    {
      if receiveBuffer == [] {
        return Err(Timeout("response timeout"));
      }
      r := Ok(receiveBuffer[0]);
      receiveBuffer := receiveBuffer[1..];
    }

    /** `_clear_response_buffer`: takes out as many lines as were queued when it started; the
        discarded lines are returned in queue order. */
    method ClearResponseBuffer() returns (discarded: seq<string>)
      modifies this`receiveBuffer
      ensures discarded == old(receiveBuffer) && receiveBuffer == []
    {
      discarded := [];
      var n := |receiveBuffer|;
      for i := 0 to n
        invariant discarded + receiveBuffer == old(receiveBuffer)
        invariant |discarded| == i
      {
        discarded := discarded + [receiveBuffer[0]];
        receiveBuffer := receiveBuffer[1..];
      }
    }

    /** `set_cb_inventory`: installs the callback and returns the previous one. */
    method SetCbInventory(callback: Option<CallbackId>) returns (previous: Option<CallbackId>)
      modifies this`cbInventory
      ensures previous == old(cbInventory) && cbInventory == callback
    {
      previous := cbInventory;
      cbInventory := callback;
    }

    /** `set_cb_input_changed`: installs the callback and returns the previous one; a
        RUNNING reader also schedules the device's input events to be switched on (a callback
        is set) or off. */
    method SetCbInputChanged(callback: Option<CallbackId>) returns (previous: Option<CallbackId>)
      modifies this`cbInputChanged, this`inputEventsPending
      ensures previous == old(cbInputChanged) && cbInputChanged == callback
      ensures inputEventsPending == old(inputEventsPending) + (if base.info.status == RUNNING then [callback.Some?] else [])
    {
      previous := cbInputChanged;
      cbInputChanged := callback;
      if base.info.status == RUNNING {
        inputEventsPending := inputEventsPending + [cbInputChanged.Some?];
      }
    }

    method EnableFireEmptyInventory(enable: bool)
      modifies this`fireEmptyInventories
      ensures fireEmptyInventories == enable
    {
      fireEmptyInventories := enable;
    }

    /** `_update_inventory`: merges the batch tag by tag. */
    method UpdateInventory(batch: seq<TagVal>)
      modifies this`inventory
      ensures inventory == Merge(old(inventory), batch)
    {
      for i := 0 to |batch|
        invariant inventory == Merge(old(inventory), batch[..i])
      {
        assert batch[..i+1][..i] == batch[..i];
        inventory := MergeTag(inventory, batch[i]);
      }
      assert batch[..|batch|] == batch;
    }

    /** `fetch_inventory`: every stored tag, and the map left empty. The wait for tags is not
        modelled. */
    method FetchInventory() returns (tags: seq<TagVal>)
      modifies this`inventory
      ensures inventory == map[]
      ensures |tags| == |old(inventory).Keys|
      ensures forall k :: k in old(inventory) ==> old(inventory)[k] in tags
      ensures forall t :: t in tags ==> t in old(inventory).Values
    {
      var left := inventory.Keys;
      tags := [];
      while left != {}
        invariant left <= old(inventory).Keys
        invariant |tags| + |left| == |old(inventory).Keys|
        invariant forall k :: k in old(inventory) && k !in left ==> old(inventory)[k] in tags
        invariant forall t :: t in tags ==> t in old(inventory).Values
        decreases |left|
      {
        var k :| k in left;
        tags := tags + [inventory[k]];
        left := left - {k};
      }
      inventory := map[];
    }

    /** `_fire_inventory_event`: the callback when one is set (skipping an empty batch unless
        empty inventories are fired), otherwise the map for a continuous inventory. */
    method FireInventoryEvent(batch: seq<TagVal>, continuous: bool)
      modifies this`inventory, this`events
      ensures inventory == InventoryAfterFire(old(inventory), cbInventory, batch, continuous)
      ensures events == old(events) + InventoryEvents(cbInventory, fireEmptyInventories, batch)
    {
      if cbInventory.None? {
        if |batch| > 0 && continuous {
          UpdateInventory(batch);
        }
        return;
      }
      if !fireEmptyInventories && |batch| == 0 {
        return;
      }
      events := events + [InventoryFired(cbInventory.value, batch)];
    }

    /** `_fire_input_changed_event`: calls the input callback when one is set. */
    method FireInputChangedEvent(pin: int, high: bool)
      modifies this`events
      ensures events == old(events) + (if cbInputChanged.Some? then [InputFired(cbInputChanged.value, pin, high)] else [])
    {
      if cbInputChanged.Some? {
        events := events + [InputFired(cbInputChanged.value, pin, high)];
      }
    }

    /** `_connection_lost`: sending is switched off and the status becomes ERROR with the
        reason, unless it already is ERROR. */
    method ConnectionLost(reason: string, now: real)
      modifies this`connected, base`info, base`notices
      ensures !connected
      ensures old(base.info.status) == ERROR ==> base.info == old(base.info) && base.notices == old(base.notices)
      ensures old(base.info.status) != ERROR ==>
        base.info == Updated(old(base.info), ERROR, reason, None, now)
        && base.notices == old(base.notices) + Notices(old(base.info), ERROR, reason, None, now, base.cbStatus)
    {
      connected := false;
      if base.info.status != ERROR {
        base.UpdateStatus(ERROR, reason, None, now);
      }
    }

    /** The bookkeeping of `disconnect` after the device was told to stop: the map is emptied
        and sending is switched off. */
    method Disconnect()
      modifies this`inventory, this`connected
      ensures inventory == map[] && !connected
    {
      inventory := map[];
      connected := false;
    }
  }
}
