/** UHF transponders: identified by their EPC, optionally carrying TID, antenna, RSSI and a
    seen count (1 unless a report says otherwise). */
module UhfTags {
  import opened Results
  import opened Tags

  function Epc(t: TagVal): Option<string> { GetStr(t, "epc") }
  function Rssi(t: TagVal): Option<int> { GetInt(t, "rssi") }

  /** The record `UhfTag(epc, timestamp, tid, antenna, seen_count, rssi)` builds: the base
      initialiser stores tid and timestamp, then epc, timestamp, rssi, tid, antenna and the
      seen count are set in that order. */
  function UhfTagOf(epc: string, timestamp: Option<real> := None, tid: Option<string> := None,
                    antenna: Option<int> := None, seenCount: int := 1, rssi: Option<int> := None): TagVal
  {
    var t0 := NewTag(UhfKind, tid, timestamp);
    var t1 := Set(Set(t0, "epc", Some(Str(epc))), "timestamp", OptTime(timestamp));
    var t2 := Set(Set(t1, "rssi", OptInt(rssi)), "tid", OptStr(tid));
    Set(Set(t2, "antenna", OptInt(antenna)), "seen_count", Some(Int(seenCount)))
  }

  /** The constructor stores each argument under its own key, so the getters read it back. */
  lemma UhfTagOfValues(epc: string, timestamp: Option<real>, tid: Option<string>,
                       antenna: Option<int>, seenCount: int, rssi: Option<int>)
    ensures var t := UhfTagOf(epc, timestamp, tid, antenna, seenCount, rssi);
      t.kind == UhfKind
      && Epc(t) == Some(epc) && Timestamp(t) == timestamp && Tid(t) == tid
      && Antenna(t) == antenna && SeenCount(t) == seenCount && Rssi(t) == rssi
  {
    IdentityValues(epc, timestamp, tid, antenna, seenCount, rssi);
    ReadingValues(epc, timestamp, tid, antenna, seenCount, rssi);
  }

  lemma IdentityValues(epc: string, timestamp: Option<real>, tid: Option<string>,
                       antenna: Option<int>, seenCount: int, rssi: Option<int>)
    ensures var t := UhfTagOf(epc, timestamp, tid, antenna, seenCount, rssi);
      Epc(t) == Some(epc) && Timestamp(t) == timestamp && Tid(t) == tid
  {
  }

  lemma ReadingValues(epc: string, timestamp: Option<real>, tid: Option<string>,
                      antenna: Option<int>, seenCount: int, rssi: Option<int>)
    ensures var t := UhfTagOf(epc, timestamp, tid, antenna, seenCount, rssi);
      Antenna(t) == antenna && SeenCount(t) == seenCount && Rssi(t) == rssi
  {
  }

  /** The constructor leaves out exactly the absent arguments, stores no other key and
      records no error. */
  lemma UhfTagOfKeys(epc: string, timestamp: Option<real>, tid: Option<string>,
                     antenna: Option<int>, seenCount: int, rssi: Option<int>)
    ensures var t := UhfTagOf(epc, timestamp, tid, antenna, seenCount, rssi);
      ("timestamp" in t.fields <==> timestamp.Some?) && ("tid" in t.fields <==> tid.Some?)
      && ("antenna" in t.fields <==> antenna.Some?) && ("rssi" in t.fields <==> rssi.Some?)
      && (forall k :: k in t.fields ==>
            k in {"epc", "seen_count", "timestamp", "tid", "antenna", "rssi"})
      && !HasError(t)
  {
  }

  /** Without a seen count the tag has been seen once. */
  lemma UhfTagDefaultSeenCount(epc: string)
    ensures SeenCount(UhfTagOf(epc)) == 1
    ensures Id(UhfTagOf(epc)) == if epc == "" then "unknown" else epc
  {
  }

  /** `get_id` returns the EPC, or "unknown" when it is absent or empty, so it is never
      empty. */
  lemma UhfIdIsEpc(t: TagVal)
    requires t.kind == UhfKind
    ensures Epc(t).Some? && Epc(t).value != "" ==> Id(t) == Epc(t).value
    ensures Epc(t).None? || Epc(t).value == "" ==> Id(t) == "unknown"
  {
  }

  /** `set_epc`/`get_epc` and `set_rssi`/`get_rssi` round-trip; `set_epc` moves `get_id`
      with it, and neither touches the other attribute. */
  lemma EpcRssiRoundTrip(t: TagVal, epc: string, rssi: int)
    requires t.kind == UhfKind
    ensures Epc(Set(t, "epc", Some(Str(epc)))) == Some(epc)
    ensures Id(Set(t, "epc", Some(Str(epc)))) == if epc == "" then "unknown" else epc
    ensures Rssi(Set(t, "rssi", Some(Int(rssi)))) == Some(rssi)
    ensures Epc(Set(t, "rssi", Some(Int(rssi)))) == Epc(t)
    ensures Rssi(Set(t, "epc", Some(Str(epc)))) == Rssi(t)
  {
  }

  method SetEpc(t: Tag, epc: string)
    modifies t`fields
    ensures t.Value() == Set(old(t.Value()), "epc", Some(Str(epc)))
  {
    t.SetValue("epc", Some(Str(epc)));
  }

  method SetRssi(t: Tag, rssi: Option<int>)
    modifies t`fields
    ensures t.Value() == Set(old(t.Value()), "rssi", OptInt(rssi))
  {
    t.SetValue("rssi", OptInt(rssi));
  }

  /** `UhfTag.__init__`: the base initialiser, then the setters in the order the source
      calls them (timestamp and tid are set twice). */
  method NewUhfTag(epc: string, timestamp: Option<real>, tid: Option<string>, antenna: Option<int>,
                   seenCount: int, rssi: Option<int>) returns (t: Tag)
    ensures fresh(t)
    ensures t.Value() == UhfTagOf(epc, timestamp, tid, antenna, seenCount, rssi)
  {
    t := new Tag(UhfKind, tid, timestamp);
    SetEpc(t, epc);
    t.SetTimestamp(timestamp);
    SetRssi(t, rssi);
    t.SetTid(tid);
    t.SetAntenna(antenna);
    t.SetSeenCount(Some(seenCount));
  }
}
