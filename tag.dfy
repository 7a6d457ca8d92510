/** A transponder record. The library's `Tag` is a dictionary whose keys are set through
    `set_value`, which stores a value or, given `None`, deletes the key: a missing key is how
    an absent attribute is encoded. The value-level functions below are the specification of
    the `Tag` class at the end of the module and are what the parsers and the aggregation
    work with. */
module Tags {
  import opened Results

  /** A value stored in a tag dictionary. `Pair` is the two-element phase list. */
  datatype Val =
    | Str(s: string)
    | Int(i: int)
    | Bool(b: bool)
    | Time(t: real)
    | Pair(first: string, second: string)

  /** Python truthiness of a stored value. */
  predicate Truthy(v: Val)
  {
    match v
    case Str(s) => s != ""
    case Int(i) => i != 0
    case Bool(b) => b
    case Time(t) => t != 0.0
    case Pair(_, _) => true
  }

  type Fields = map<string, Val>

  /** The Python class of a tag object. It decides what `get_id` returns and which getter
      defaults apply. */
  datatype Kind = UhfKind | HfKind | Iso15Kind | Iso14AKind | HfInfoKind

  predicate IsHf(k: Kind)
  {
    k != UhfKind
  }

  datatype TagVal = TagVal(kind: Kind, fields: Fields)

  function OptStr(o: Option<string>): Option<Val>
  {
    match o case None => None case Some(s) => Some(Str(s))
  }

  function OptInt(o: Option<int>): Option<Val>
  {
    match o case None => None case Some(i) => Some(Int(i))
  }

  function OptTime(o: Option<real>): Option<Val>
  {
    match o case None => None case Some(t) => Some(Time(t))
  }

  /** `set_value(k, v)` on the dictionary: a present value is stored under `k`, an absent one
      removes `k`; no other key changes. */
  function Put(m: Fields, k: string, v: Option<Val>): (r: Fields)
    ensures v.Some? ==> k in r && r[k] == v.value
    ensures v.None? ==> k !in r
  {
    if v.Some? then m[k := v.value] else m - {k}
  }

  /** `set_value` changes no key but its own. */
  lemma PutKeepsOthers(m: Fields, k: string, v: Option<Val>, k2: string)
    requires k2 != k
    ensures (k2 in Put(m, k, v) <==> k2 in m) && (k2 in m ==> Put(m, k, v)[k2] == m[k2])
  {
  }

  /** Two dictionaries with the same keys and the same value under each key are equal. */
  lemma FieldsExt(a: Fields, b: Fields)
    requires forall k :: k in a <==> k in b
    requires forall k :: k in a ==> a[k] == b[k]
    ensures a == b
  {
  }

  /** `set_value` on a tag. */
  function Set(t: TagVal, k: string, v: Option<Val>): (r: TagVal)
    ensures r.kind == t.kind
  {
    TagVal(t.kind, Put(t.fields, k, v))
  }

  /** `dict.get(k)`. */
  function Get(t: TagVal, k: string): Option<Val>
  {
    if k in t.fields then Some(t.fields[k]) else None
  }

  function GetStr(t: TagVal, k: string): Option<string>
  {
    if k in t.fields && t.fields[k].Str? then Some(t.fields[k].s) else None
  }

  function GetInt(t: TagVal, k: string): Option<int>
  {
    if k in t.fields && t.fields[k].Int? then Some(t.fields[k].i) else None
  }

  function GetTime(t: TagVal, k: string): Option<real>
  {
    if k in t.fields && t.fields[k].Time? then Some(t.fields[k].t) else None
  }

  // ------------------------------------------------------------ the accessors of tag.py

  function Tid(t: TagVal): Option<string> { GetStr(t, "tid") }
  function Timestamp(t: TagVal): Option<real> { GetTime(t, "timestamp") }
  function FirstSeen(t: TagVal): Option<real> { GetTime(t, "first_seen") }
  function LastSeen(t: TagVal): Option<real> { GetTime(t, "last_seen") }
  function Data(t: TagVal): Option<string> { GetStr(t, "data") }
  function Antenna(t: TagVal): Option<int> { GetInt(t, "antenna") }
  function ErrorMessage(t: TagVal): Option<string> { GetStr(t, "error_message") }

  /** `get_seen_count`: the stored count, 0 when it is absent. */
  function SeenCount(t: TagVal): int
  {
    match GetInt(t, "seen_count") case None => 0 case Some(c) => c
  }

  /** `has_error`: the stored flag, false when it is absent. */
  function HasError(t: TagVal): bool
  {
    "has_error" in t.fields && t.fields["has_error"] == Bool(true)
  }

  /** `get_id`: a UHF tag is identified by its EPC, an HF tag by its TID (`get_tid` of an HF
      tag defaults to ""); an absent or empty identifier reads as "unknown". */
  function Id(t: TagVal): (r: string)
    ensures r != ""
  {
    var ident := if t.kind == UhfKind then GetStr(t, "epc") else GetStr(t, "tid");
    if ident.Some? && ident.value != "" then ident.value else "unknown"
  }

  /** The state `Tag.__init__(tid, timestamp)` leaves for an instance of class `kind`. */
  function NewTag(kind: Kind, tid: Option<string>, timestamp: Option<real>): TagVal
  {
    Set(Set(TagVal(kind, map[]), "tid", OptStr(tid)), "timestamp", OptTime(timestamp))
  }

  /** `set_error_message(m)`: stores `m` (or removes it) and sets `has_error` to `bool(m)`. */
  function WithErrorMessage(t: TagVal, m: Option<string>): TagVal
  {
    Set(Set(t, "error_message", OptStr(m)), "has_error", Some(Bool(m.Some? && m.value != "")))
  }

  // ------------------------------------------------------------ properties

  /** A new tag has key `tid` iff a tid was given, `timestamp` iff a timestamp was given, and
      no other key; it has no error. */
  lemma NewTagKeys(kind: Kind, tid: Option<string>, timestamp: Option<real>)
    ensures var t := NewTag(kind, tid, timestamp);
      t.kind == kind
      && ("tid" in t.fields <==> tid.Some?)
      && ("timestamp" in t.fields <==> timestamp.Some?)
      && (forall k :: k in t.fields ==> k == "tid" || k == "timestamp")
      && Tid(t) == tid && Timestamp(t) == timestamp
      && !HasError(t) && SeenCount(t) == 0
  {
  }

  /** `set_error_message` stores the message and sets `has_error` exactly for a non-empty one;
      no other key changes. */
  lemma ErrorMessageSetsFlag(t: TagVal, m: Option<string>)
    ensures var r := WithErrorMessage(t, m);
      ErrorMessage(r) == m
      && HasError(r) == (m.Some? && m.value != "")
      && (forall k :: k != "error_message" && k != "has_error" ==>
            (k in r.fields <==> k in t.fields) && (k in t.fields ==> r.fields[k] == t.fields[k]))
  {
  }

  /** A tag whose error was never set has no error; after `set_error_message("Warning")` it
      has one and reports that message. */
  lemma WarningScenario(kind: Kind, tid: Option<string>, timestamp: Option<real>)
    ensures !HasError(NewTag(kind, tid, timestamp))
    ensures HasError(WithErrorMessage(NewTag(kind, tid, timestamp), Some("Warning")))
    ensures ErrorMessage(WithErrorMessage(NewTag(kind, tid, timestamp), Some("Warning"))) == Some("Warning")
  {
    ErrorMessageSetsFlag(NewTag(kind, tid, timestamp), Some("Warning"));
  }

  /** Each setter/getter pair of tag.py round-trips a present value, and setting `None`
      makes the getter report absence (0 for the seen count). */
  lemma SetterGetterRoundTrip(t: TagVal, x: real, s: string, n: int)
    ensures FirstSeen(Set(t, "first_seen", OptTime(Some(x)))) == Some(x)
    ensures LastSeen(Set(t, "last_seen", OptTime(Some(x)))) == Some(x)
    ensures Timestamp(Set(t, "timestamp", OptTime(Some(x)))) == Some(x)
    ensures Tid(Set(t, "tid", OptStr(Some(s)))) == Some(s)
    ensures Data(Set(t, "data", OptStr(Some(s)))) == Some(s)
    ensures Antenna(Set(t, "antenna", OptInt(Some(n)))) == Some(n)
    ensures SeenCount(Set(t, "seen_count", OptInt(Some(n)))) == n
    ensures LastSeen(Set(t, "last_seen", None)) == None
    ensures Antenna(Set(t, "antenna", None)) == None
    ensures SeenCount(Set(t, "seen_count", None)) == 0
  {
  }

  /** Python truthiness of `get_id`'s identifier: the identity is the identifier exactly when
      that is a non-empty text. */
  lemma IdFallback(t: TagVal)
    ensures var ident := if t.kind == UhfKind then GetStr(t, "epc") else GetStr(t, "tid");
      (Id(t) == "unknown" <==> (ident.None? || ident.value == "" || ident.value == "unknown"))
      && (ident.Some? && ident.value != "" ==> Id(t) == ident.value)
  {
  }

  // ------------------------------------------------------------ the object

  /** A tag object: the dictionary is updated in place by the setters. */
  class Tag {
    var kind: Kind
    var fields: Fields

    function Value(): TagVal
      reads this
    {
      TagVal(kind, fields)
    }

    /** `Tag.__init__(tid, timestamp)` run for an instance of class `kind`. */
    constructor (kind: Kind, tid: Option<string>, timestamp: Option<real>)
      ensures Value() == NewTag(kind, tid, timestamp)
    {
      this.kind := kind;
      fields := map[];
      new;
      SetTid(tid);
      SetTimestamp(timestamp);
    }

    method SetValue(k: string, v: Option<Val>)
      modifies this`fields
      ensures Value() == Set(old(Value()), k, v)
    {
      if v.Some? {
        fields := fields[k := v.value];
      } else if k in fields {
        fields := fields - {k};
      }
    }

    method SetTid(tid: Option<string>)
      modifies this`fields
      ensures Value() == Set(old(Value()), "tid", OptStr(tid))
    {
      SetValue("tid", OptStr(tid));
    }

    method SetTimestamp(timestamp: Option<real>)
      modifies this`fields
      ensures Value() == Set(old(Value()), "timestamp", OptTime(timestamp))
    {
      SetValue("timestamp", OptTime(timestamp));
    }

    method SetFirstSeen(timestamp: Option<real>)
      modifies this`fields
      ensures Value() == Set(old(Value()), "first_seen", OptTime(timestamp))
    {
      SetValue("first_seen", OptTime(timestamp));
    }

    method SetLastSeen(timestamp: Option<real>)
      modifies this`fields
      ensures Value() == Set(old(Value()), "last_seen", OptTime(timestamp))
    {
      SetValue("last_seen", OptTime(timestamp));
    }

    method SetData(data: Option<string>)
      modifies this`fields
      ensures Value() == Set(old(Value()), "data", OptStr(data))
    {
      SetValue("data", OptStr(data));
    }

    method SetAntenna(antenna: Option<int>)
      modifies this`fields
      ensures Value() == Set(old(Value()), "antenna", OptInt(antenna))
    {
      SetValue("antenna", OptInt(antenna));
    }

    method SetSeenCount(count: Option<int>)
      modifies this`fields
      ensures Value() == Set(old(Value()), "seen_count", OptInt(count))
    {
      SetValue("seen_count", OptInt(count));
    }

    method SetErrorMessage(message: Option<string>)
      modifies this`fields
      ensures Value() == WithErrorMessage(old(Value()), message)
    {
      SetValue("error_message", OptStr(message));
      SetValue("has_error", Some(Bool(message.Some? && message.value != "")));
    }
  }
}
