/** The status record every reader and tunnel carries: a status code, a message and the time
    of the last change. An update to the current (status, message) pair changes nothing; a real
    change notifies the status callback with a copy of the record, except for BUSY. */
module Status {
  import opened Results

  /** Status codes of the library. */
  const RUNNING: int := 1
  const BUSY: int := 0
  const ERROR: int := -1
  const WARNING: int := -2

  /** A callback is modelled by its identity; calling it appends a notice to a log. */
  type CallbackId = nat

  /** The status dictionary: type 'status', the instance name, status, message, timestamp. */
  datatype StatusInfo = StatusInfo(instance: string, status: int, message: string, timestamp: real)

  /** A copy of the record handed to a status callback. */
  datatype Notice = Notice(callback: CallbackId, info: StatusInfo)

  /** The record a new instance starts with. */
  function InitialStatus(name: string, now: real): StatusInfo
  {
    StatusInfo(name, BUSY, "initialised", now)
  }

  /** The name of an instance: the given name, or the class name when it is empty. */
  function InstanceName(name: string, className: string): string
  {
    if name != "" then name else className
  }

  predicate SameStatus(s: StatusInfo, status: int, message: string)
  {
    s.status == status && s.message == message
  }

  /** `_update_status(status, message, timestamp)` on the record: unchanged for the same pair,
      otherwise the new pair with the given timestamp, or `now` when it is absent or zero. */
  function Updated(s: StatusInfo, status: int, message: string, timestamp: Option<real>, now: real): StatusInfo
  {
    if SameStatus(s, status, message) then s
    else StatusInfo(s.instance, status, message,
                    if timestamp.Some? && timestamp.value != 0.0 then timestamp.value else now)
  }

  /** The notices `_update_status` sends: one to the set callback on a real change to a status
      other than BUSY, none otherwise. */
  function Notices(s: StatusInfo, status: int, message: string, timestamp: Option<real>, now: real,
                   cb: Option<CallbackId>): seq<Notice>
  {
    if !SameStatus(s, status, message) && cb.Some? && status != BUSY
    then [Notice(cb.value, Updated(s, status, message, timestamp, now))]
    else []
  }

  /** Updating to the current pair changes nothing and notifies nobody. */
  lemma UpdateSameIsNoOp(s: StatusInfo, timestamp: Option<real>, now: real, cb: Option<CallbackId>)
    ensures Updated(s, s.status, s.message, timestamp, now) == s
    ensures Notices(s, s.status, s.message, timestamp, now, cb) == []
  {
  }

  /** A real change replaces status and message and stamps the given time, or `now`. */
  lemma UpdateReplaces(s: StatusInfo, status: int, message: string, timestamp: Option<real>, now: real)
    requires !SameStatus(s, status, message)
    ensures var r := Updated(s, status, message, timestamp, now);
      r.status == status && r.message == message && r.instance == s.instance
      && (timestamp.Some? && timestamp.value != 0.0 ==> r.timestamp == timestamp.value)
      && (timestamp.None? || timestamp.value == 0.0 ==> r.timestamp == now)
  {
  }

  /** At most one notice; there is one exactly when the pair changes, a callback is set and
      the new status is not BUSY, and it carries the new record. */
  lemma NoticeOnRealChange(s: StatusInfo, status: int, message: string, timestamp: Option<real>,
                           now: real, cb: Option<CallbackId>)
    ensures var n := Notices(s, status, message, timestamp, now, cb);
      |n| <= 1
      && (|n| == 1 <==> !SameStatus(s, status, message) && cb.Some? && status != BUSY)
      && (|n| == 1 ==> n[0].callback == cb.value && n[0].info.status == status && n[0].info.message == message)
  {
  }

  /** After any update, repeating it is a no-op: the record is idempotent under updates. */
  lemma UpdateIdempotent(s: StatusInfo, status: int, message: string, timestamp: Option<real>,
                         now: real, later: real, cb: Option<CallbackId>)
    ensures var r := Updated(s, status, message, timestamp, now);
      Updated(r, status, message, timestamp, later) == r
      && Notices(r, status, message, timestamp, later, cb) == []
  {
  }

  /** `BaseClass`: the status record of an instance and the notices sent to its callback. */
  class StatusRecord {
    var name: string
    var info: StatusInfo
    var cbStatus: Option<CallbackId>
    var notices: seq<Notice>

    /** `BaseClass.__init__(name)` for an object of class `className`. The record's 'instance'
        is the name as given, even when it is empty. */
    constructor (name: string, className: string, now: real)
      ensures this.name == InstanceName(name, className)
      ensures info == InitialStatus(name, now) && cbStatus == None && notices == []
    {
      this.name := InstanceName(name, className);
      info := InitialStatus(name, now);
      cbStatus := None;
      notices := [];
    }

    method UpdateStatus(status: int, message: string, timestamp: Option<real>, now: real)
      modifies this`info, this`notices
      ensures info == Updated(old(info), status, message, timestamp, now)
      ensures notices == old(notices) + Notices(old(info), status, message, timestamp, now, cbStatus)
    {
      if info.status == status && info.message == message {
        return;
      }
      info := StatusInfo(info.instance, status, message,
                         if timestamp.Some? && timestamp.value != 0.0 then timestamp.value else now);
      if cbStatus.Some? && status != 0 {
        notices := notices + [Notice(cbStatus.value, info)];
      }
    }

    /** `set_cb_status`: installs the callback and returns the previous one. */
    method SetCbStatus(callback: Option<CallbackId>) returns (previous: Option<CallbackId>)
      modifies this`cbStatus
      ensures previous == old(cbStatus) && cbStatus == callback
    {
      previous := cbStatus;
      cbStatus := callback;
    }
  }
}
