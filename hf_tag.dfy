/** HF transponders: identified by their TID. ISO 15693 tags carry a type "ISO15" and maybe a
    DSFID, ISO 14443-A tags a type and maybe SAK and ATQA; an `HfTagInfo` decodes the reply to
    an ISO/IEC 15693-3 Get System Information command (section 10.4.12), whose first byte holds
    the information flags; `HfTagMemory` records a memory layout. */
module HfTags {
  import opened Results
  import opened Text
  import opened Tags

  // ------------------------------------------------------------ getters with defaults

  /** `HfTag.get_tid`: the stored tid, "" when absent. */
  function HfTid(t: TagVal): string
  {
    match GetStr(t, "tid") case None => "" case Some(s) => s
  }

  function StrOr(t: TagVal, k: string, default: string): string
  {
    match GetStr(t, k) case None => default case Some(s) => s
  }

  function TagType(t: TagVal): string { StrOr(t, "type", "") }
  function Iso15Dsfid(t: TagVal): string { StrOr(t, "dsfid", "") }
  function Sak(t: TagVal): string { StrOr(t, "sak", "") }
  function Atqa(t: TagVal): string { StrOr(t, "atqa", "") }

  /** The `is_*` getters of `HfTagInfo`: false when the flag is absent. */
  function FlagOf(t: TagVal, k: string): bool
  {
    k in t.fields && t.fields[k] == Bool(true)
  }

  /** `get_vicc_block_size`: 0 when absent. */
  function ViccBlockSize(t: TagVal): int
  {
    match GetInt(t, "vicc_block_size") case None => 0 case Some(v) => v
  }

  // ------------------------------------------------------------ constructors

  predicate TruthyStr(o: Option<string>) { o.Some? && o.value != "" }
  predicate TruthyInt(o: Option<int>) { o.Some? && o.value != 0 }

  /** `HfTag.__init__` run for an object of class `kind`: tid and timestamp through the base
      initialiser, the antenna only when it is truthy, then the seen count. */
  function HfTagOf(kind: Kind, tid: string, timestamp: Option<real> := None,
                   antenna: Option<int> := None, seenCount: int := 1): TagVal
  {
    var t0 := NewTag(kind, Some(tid), timestamp);
    var t1 := if TruthyInt(antenna) then Set(t0, "antenna", OptInt(antenna)) else t0;
    Set(t1, "seen_count", Some(Int(seenCount)))
  }

  /** `ISO15Tag.__init__`. */
  function Iso15TagOf(tid: string, timestamp: Option<real> := None, antenna: Option<int> := None,
                      seenCount: int := 1, dsfid: Option<string> := None): TagVal
  {
    var t := Set(HfTagOf(Iso15Kind, tid, timestamp, antenna, seenCount), "type", Some(Str("ISO15")));
    if TruthyStr(dsfid) then Set(t, "dsfid", OptStr(dsfid)) else t
  }

  /** `ISO14ATag.__init__`. */
  function Iso14ATagOf(tid: string, timestamp: Option<real> := None, antenna: Option<int> := None,
                       seenCount: int := 1, sak: Option<string> := None, atqa: Option<string> := None,
                       tagType: Option<string> := None): TagVal
  {
    var t0 := HfTagOf(Iso14AKind, tid, timestamp, antenna, seenCount);
    var t1 := Set(t0, "type", Some(Str(if TruthyStr(tagType) then tagType.value else "ISO14A")));
    var t2 := if TruthyStr(sak) then Set(t1, "sak", OptStr(sak)) else t1;
    if TruthyStr(atqa) then Set(t2, "atqa", OptStr(atqa)) else t2
  }

  /** `HfTag` identifies the tag by its TID, or "unknown" when it is empty; `get_tid`
      defaults to "". */
  lemma HfTagOfFields(kind: Kind, tid: string, timestamp: Option<real>, antenna: Option<int>, seenCount: int)
    requires IsHf(kind)
    ensures var t := HfTagOf(kind, tid, timestamp, antenna, seenCount);
      t.kind == kind && HfTid(t) == tid
      && Id(t) == (if tid == "" then "unknown" else tid)
      && ("antenna" in t.fields <==> TruthyInt(antenna))
      && (TruthyInt(antenna) ==> Antenna(t) == antenna)
      && SeenCount(t) == seenCount && Timestamp(t) == timestamp && !HasError(t)
  {
  }

  /** An HF tag object whose tid was never stored still answers `get_tid` with "" and is
      identified as "unknown". */
  lemma HfTidDefault(t: TagVal)
    requires IsHf(t.kind) && "tid" !in t.fields
    ensures HfTid(t) == "" && Id(t) == "unknown"
  {
  }

  /** An `ISO15Tag` has type "ISO15" and a dsfid key exactly when a non-empty DSFID was
      given. */
  lemma Iso15TagOfFields(tid: string, timestamp: Option<real>, antenna: Option<int>, seenCount: int,
                         dsfid: Option<string>)
    ensures var t := Iso15TagOf(tid, timestamp, antenna, seenCount, dsfid);
      t.kind == Iso15Kind && TagType(t) == "ISO15" && HfTid(t) == tid
      && ("dsfid" in t.fields <==> TruthyStr(dsfid))
      && Iso15Dsfid(t) == (if TruthyStr(dsfid) then dsfid.value else "")
      && SeenCount(t) == seenCount
  {
  }

  /** An `ISO14ATag` has the given type, "ISO14A" when none is given. */
  lemma Iso14ATagOfType(tid: string, timestamp: Option<real>, antenna: Option<int>, seenCount: int,
                        sak: Option<string>, atqa: Option<string>, tagType: Option<string>)
    ensures var t := Iso14ATagOf(tid, timestamp, antenna, seenCount, sak, atqa, tagType);
      t.kind == Iso14AKind && HfTid(t) == tid
      && TagType(t) == (if TruthyStr(tagType) then tagType.value else "ISO14A")
  {
  }

  /** The sak and atqa keys of an `ISO14ATag` exist exactly when non-empty values were given. */
  lemma Iso14ATagOfSakAtqa(tid: string, timestamp: Option<real>, antenna: Option<int>, seenCount: int,
                           sak: Option<string>, atqa: Option<string>, tagType: Option<string>)
    ensures var t := Iso14ATagOf(tid, timestamp, antenna, seenCount, sak, atqa, tagType);
      ("sak" in t.fields <==> TruthyStr(sak)) && ("atqa" in t.fields <==> TruthyStr(atqa))
      && Sak(t) == (if TruthyStr(sak) then sak.value else "")
      && Atqa(t) == (if TruthyStr(atqa) then atqa.value else "")
  {
  }

  // ------------------------------------------------------------ system information

  /** Bit `weight` (a power of two) of a Python integer, as `bool(x & weight)` reads it for
      any sign. */
  function Bit(x: int, weight: nat): bool
    requires weight > 0
  {
    (x / weight) % 2 == 1
  }

  /** `int(s[a:b], 16)`, with the sign-and-hex-digits reading of `Text.Hex`; a short or
      malformed slice raises ValueError. */
  function HexField(s: string, a: nat, b: nat): (r: Result<int>)
    ensures r.Ok? <==> Hex(Slice(s, a, b)).Some?
    ensures r.Ok? ==> r.value == Hex(Slice(s, a, b)).value
  {
    match Hex(Slice(s, a, b))
    case None => Err(Fault("invalid literal for int() with base 16"))
    case Some(v) => Ok(v)
  }

  /** Keys other than `k1` and `k2` are as in `m`. */
  ghost predicate SameElsewhere(m: Fields, r: Fields, k1: string, k2: string)
  {
    forall k :: k != k1 && k != k2 ==> (k in r <==> k in m) && (k in m ==> r[k] == m[k])
  }

  /** One flag of the information byte: `is_x` is stored, then, when the flag is set, the
      announced field under `key`, failing when that field is not hex. */
  function FlagStep(m: Fields, flagKey: string, on: bool, key: string, field: Result<int>): (r: Result<Fields>)
    requires flagKey != key
    ensures r.Err? <==> on && field.Err?
    ensures r.Ok? ==> flagKey in r.value && r.value[flagKey] == Bool(on)
    ensures r.Ok? ==> (key in r.value <==> on || key in m)
    ensures r.Ok? && on ==> r.value[key] == Int(field.value)
    ensures r.Ok? ==> SameElsewhere(m, r.value, flagKey, key)
  {
    var m1 := Put(m, flagKey, Some(Bool(on)));
    if on then (var v :- field; Ok(Put(m1, key, Some(Int(v))))) else Ok(m1)
  }

  /** The memory-size flag: the number of blocks is the field plus one, the block size the low
      six bits of its field plus one. */
  function ViccStep(m: Fields, on: bool, blocks: Result<int>, size: Result<int>): (r: Result<Fields>)
    ensures r.Err? <==> on && (blocks.Err? || size.Err?)
    ensures r.Ok? ==> "is_vicc" in r.value && r.value["is_vicc"] == Bool(on)
    ensures r.Ok? ==> ("vicc_number_of_block" in r.value <==> on || "vicc_number_of_block" in m)
    ensures r.Ok? ==> ("vicc_block_size" in r.value <==> on || "vicc_block_size" in m)
    ensures r.Ok? && on ==> r.value["vicc_number_of_block"] == Int(blocks.value + 1)
    ensures r.Ok? && on ==> r.value["vicc_block_size"] == Int(size.value % 64 + 1)
    ensures r.Ok? ==> forall k :: k != "is_vicc" && k != "vicc_number_of_block" && k != "vicc_block_size" ==>
      (k in r.value <==> k in m) && (k in m ==> r.value[k] == m[k])
  {
    var m1 := Put(m, "is_vicc", Some(Bool(on)));
    if on then
      var n :- blocks;
      var b :- size;
      Ok(Put(Put(m1, "vicc_number_of_block", Some(Int(n + 1))), "vicc_block_size", Some(Int(b % 64 + 1))))
    else Ok(m1)
  }

  /** The info-flags decoding shared by `HfTagInfo` and the legacy reader's
      `read_tag_information`: bit 0x01 announces the DSFID (hex 16-18), 0x02 the AFI (18-20),
      0x04 the memory size (blocks at 20-22, block size at 22-24) and 0x08 the IC reference
      (24-26). */
  function AddInfo(m: Fields, info: string): Result<Fields>
  {
    var flag :- HexField(info, 0, 2);
    var m2 :- FlagStep(m, "is_dsfid", Bit(flag, 1), "dsfid", HexField(info, 16, 18));
    var m4 :- FlagStep(m2, "is_afi", Bit(flag, 2), "afi", HexField(info, 18, 20));
    var m6 :- ViccStep(m4, Bit(flag, 4), HexField(info, 20, 22), HexField(info, 22, 24));
    FlagStep(m6, "is_icr", Bit(flag, 8), "icr", HexField(info, 24, 26))
  }

  /** A flag step leaves every key other than its own two as it was. */
  lemma FlagKeeps(m: Fields, flagKey: string, on: bool, key: string, field: Result<int>, k: string)
    requires flagKey != key && FlagStep(m, flagKey, on, key, field).Ok? && k != flagKey && k != key
    ensures var r := FlagStep(m, flagKey, on, key, field).value;
      (k in r <==> k in m) && (k in m ==> r[k] == m[k])
  {
  }

  /** The memory-size step leaves every key other than its own three as it was. */
  lemma ViccKeeps(m: Fields, on: bool, blocks: Result<int>, size: Result<int>, k: string)
    requires ViccStep(m, on, blocks, size).Ok?
    requires k != "is_vicc" && k != "vicc_number_of_block" && k != "vicc_block_size"
    ensures var r := ViccStep(m, on, blocks, size).value;
      (k in r <==> k in m) && (k in m ==> r[k] == m[k])
  {
  }

  /** With its flag set the memory-size step stores both sizes. */
  lemma ViccSets(m: Fields, blocks: int, size: int)
    ensures ViccStep(m, true, Ok(blocks), Ok(size)).Ok?
    ensures var r := ViccStep(m, true, Ok(blocks), Ok(size)).value;
      r["vicc_number_of_block"] == Int(blocks + 1) && r["vicc_block_size"] == Int(size % 64 + 1)
  {
  }

  /** After a successful decoding `is_dsfid` holds bit 0x01 and the dsfid key is present
      exactly when that bit is set (on a record that had none). */
  lemma AddInfoDsfid(m: Fields, info: string, flag: int)
    requires "dsfid" !in m && Hex(Slice(info, 0, 2)) == Some(flag) && AddInfo(m, info).Ok?
    ensures var r := AddInfo(m, info).value;
      "is_dsfid" in r && r["is_dsfid"] == Bool(Bit(flag, 1)) && ("dsfid" in r <==> Bit(flag, 1))
  {
    var r2, r4, r6 := AddInfoSteps(m, info, flag);
    var afi, icr := HexField(info, 18, 20), HexField(info, 24, 26);
    var blocks, size := HexField(info, 20, 22), HexField(info, 22, 24);
    FlagKeeps(r2, "is_afi", Bit(flag, 2), "afi", afi, "is_dsfid");
    FlagKeeps(r2, "is_afi", Bit(flag, 2), "afi", afi, "dsfid");
    ViccKeeps(r4, Bit(flag, 4), blocks, size, "is_dsfid");
    ViccKeeps(r4, Bit(flag, 4), blocks, size, "dsfid");
    FlagKeeps(r6, "is_icr", Bit(flag, 8), "icr", icr, "is_dsfid");
    FlagKeeps(r6, "is_icr", Bit(flag, 8), "icr", icr, "dsfid");
  }

  /** Likewise `is_afi` holds bit 0x02 and the afi key is present exactly when it is set. */
  lemma AddInfoAfi(m: Fields, info: string, flag: int)
    requires "afi" !in m && Hex(Slice(info, 0, 2)) == Some(flag) && AddInfo(m, info).Ok?
    ensures var r := AddInfo(m, info).value;
      "is_afi" in r && r["is_afi"] == Bool(Bit(flag, 2)) && ("afi" in r <==> Bit(flag, 2))
  {
    var r2, r4, r6 := AddInfoSteps(m, info, flag);
    var dsfid, icr := HexField(info, 16, 18), HexField(info, 24, 26);
    var blocks, size := HexField(info, 20, 22), HexField(info, 22, 24);
    FlagKeeps(m, "is_dsfid", Bit(flag, 1), "dsfid", dsfid, "afi");
    ViccKeeps(r4, Bit(flag, 4), blocks, size, "is_afi");
    ViccKeeps(r4, Bit(flag, 4), blocks, size, "afi");
    FlagKeeps(r6, "is_icr", Bit(flag, 8), "icr", icr, "is_afi");
    FlagKeeps(r6, "is_icr", Bit(flag, 8), "icr", icr, "afi");
  }

  /** `is_vicc` holds bit 0x04 and both memory-size keys are present exactly when it is set. */
  lemma AddInfoVicc(m: Fields, info: string, flag: int)
    requires "vicc_number_of_block" !in m && "vicc_block_size" !in m
    requires Hex(Slice(info, 0, 2)) == Some(flag) && AddInfo(m, info).Ok?
    ensures var r := AddInfo(m, info).value;
      "is_vicc" in r && r["is_vicc"] == Bool(Bit(flag, 4))
      && ("vicc_number_of_block" in r <==> Bit(flag, 4)) && ("vicc_block_size" in r <==> Bit(flag, 4))
  {
    var r2, r4, r6 := AddInfoSteps(m, info, flag);
    var dsfid, afi, icr := HexField(info, 16, 18), HexField(info, 18, 20), HexField(info, 24, 26);
    FlagKeeps(m, "is_dsfid", Bit(flag, 1), "dsfid", dsfid, "vicc_number_of_block");
    FlagKeeps(m, "is_dsfid", Bit(flag, 1), "dsfid", dsfid, "vicc_block_size");
    FlagKeeps(r2, "is_afi", Bit(flag, 2), "afi", afi, "vicc_number_of_block");
    FlagKeeps(r2, "is_afi", Bit(flag, 2), "afi", afi, "vicc_block_size");
    FlagKeeps(r6, "is_icr", Bit(flag, 8), "icr", icr, "is_vicc");
    FlagKeeps(r6, "is_icr", Bit(flag, 8), "icr", icr, "vicc_number_of_block");
    FlagKeeps(r6, "is_icr", Bit(flag, 8), "icr", icr, "vicc_block_size");
  }

  /** `is_icr` holds bit 0x08 and the icr key is present exactly when it is set. */
  lemma AddInfoIcr(m: Fields, info: string, flag: int)
    requires "icr" !in m && Hex(Slice(info, 0, 2)) == Some(flag) && AddInfo(m, info).Ok?
    ensures var r := AddInfo(m, info).value;
      "is_icr" in r && r["is_icr"] == Bool(Bit(flag, 8)) && ("icr" in r <==> Bit(flag, 8))
  {
    var r2, r4, r6 := AddInfoSteps(m, info, flag);
    var dsfid, afi := HexField(info, 16, 18), HexField(info, 18, 20);
    var blocks, size := HexField(info, 20, 22), HexField(info, 22, 24);
    FlagKeeps(m, "is_dsfid", Bit(flag, 1), "dsfid", dsfid, "icr");
    FlagKeeps(r2, "is_afi", Bit(flag, 2), "afi", afi, "icr");
    ViccKeeps(r4, Bit(flag, 4), blocks, size, "icr");
  }

  /** The intermediate records of a successful `AddInfo`. */
  lemma AddInfoSteps(m: Fields, info: string, flag: int) returns (r2: Fields, r4: Fields, r6: Fields)
    requires Hex(Slice(info, 0, 2)) == Some(flag)
    requires AddInfo(m, info).Ok?
    ensures FlagStep(m, "is_dsfid", Bit(flag, 1), "dsfid", HexField(info, 16, 18)) == Ok(r2)
    ensures FlagStep(r2, "is_afi", Bit(flag, 2), "afi", HexField(info, 18, 20)) == Ok(r4)
    ensures ViccStep(r4, Bit(flag, 4), HexField(info, 20, 22), HexField(info, 22, 24)) == Ok(r6)
    ensures FlagStep(r6, "is_icr", Bit(flag, 8), "icr", HexField(info, 24, 26)) == AddInfo(m, info)
  {
    r2 := FlagStep(m, "is_dsfid", Bit(flag, 1), "dsfid", HexField(info, 16, 18)).value;
    r4 := FlagStep(r2, "is_afi", Bit(flag, 2), "afi", HexField(info, 18, 20)).value;
    r6 := ViccStep(r4, Bit(flag, 4), HexField(info, 20, 22), HexField(info, 22, 24)).value;
  }

  /** With the memory-size bit set the number of blocks is the hex field plus one and the
      block size is in 1..64. */
  lemma AddInfoMemorySize(m: Fields, info: string, flag: int, blocks: int, size: int)
    requires Hex(Slice(info, 0, 2)) == Some(flag) && Bit(flag, 4)
    requires Hex(Slice(info, 20, 22)) == Some(blocks) && Hex(Slice(info, 22, 24)) == Some(size)
    requires AddInfo(m, info).Ok?
    ensures AddInfo(m, info).value["vicc_number_of_block"] == Int(blocks + 1)
    ensures AddInfo(m, info).value["vicc_block_size"].Int?
    ensures 1 <= AddInfo(m, info).value["vicc_block_size"].i <= 64
    ensures AddInfo(m, info).value["vicc_block_size"] == Int(size % 64 + 1)
  {
    var r2, r4, r6 := AddInfoSteps(m, info, flag);
    var icr := HexField(info, 24, 26);
    assert HexField(info, 20, 22) == Ok(blocks) && HexField(info, 22, 24) == Ok(size);
    ViccSets(r4, blocks, size);
    FlagKeeps(r6, "is_icr", Bit(flag, 8), "icr", icr, "vicc_number_of_block");
    FlagKeeps(r6, "is_icr", Bit(flag, 8), "icr", icr, "vicc_block_size");
  }

  /** The decoding fails exactly when the flags byte or a field its flags announce is not hex
      (for instance because the reply is too short). */
  lemma AddInfoFails(m: Fields, info: string)
    ensures AddInfo(m, info).Err? <==>
      match Hex(Slice(info, 0, 2))
      case None => true
      case Some(flag) =>
        (Bit(flag, 1) && Hex(Slice(info, 16, 18)).None?)
        || (Bit(flag, 2) && Hex(Slice(info, 18, 20)).None?)
        || (Bit(flag, 4) && (Hex(Slice(info, 20, 22)).None? || Hex(Slice(info, 22, 24)).None?))
        || (Bit(flag, 8) && Hex(Slice(info, 24, 26)).None?)
  {
  }

  /** `HfTagInfo.__init__`: an HF tag; a non-empty error message is recorded; a non-empty
      system information reply is decoded. */
  function HfTagInfoOf(tid: string, tagInfo: Option<string>, errorMessage: Option<string>,
                       timestamp: Option<real> := None, antenna: Option<int> := None,
                       seenCount: int := 1): Result<TagVal>
  {
    var t0 := HfTagOf(HfInfoKind, tid, timestamp, antenna, seenCount);
    var t1 := if TruthyStr(errorMessage) then WithErrorMessage(t0, errorMessage) else t0;
    if TruthyStr(tagInfo) then
      var f :- AddInfo(t1.fields, tagInfo.value);
      Ok(TagVal(t1.kind, f))
    else Ok(t1)
  }

  /** A non-empty error message marks the record as failed; without a reply nothing is
      decoded and the constructor cannot fail. */
  lemma HfTagInfoOfError(tid: string, errorMessage: string, timestamp: Option<real>,
                         antenna: Option<int>, seenCount: int)
    requires errorMessage != ""
    ensures var r := HfTagInfoOf(tid, None, Some(errorMessage), timestamp, antenna, seenCount);
      r.Ok? && HasError(r.value) && ErrorMessage(r.value) == Some(errorMessage)
      && !FlagOf(r.value, "is_dsfid") && ViccBlockSize(r.value) == 0
  {
  }

  // ------------------------------------------------------------ memory layout

  /** `HfTagMemory(sectors, number_of_blocks, block_size)`. */
  function MemoryOf(sectors: int, numberOfBlocks: int, blockSize: int): map<string, int>
  {
    map["sectors" := sectors, "number_of_blocks" := numberOfBlocks, "block_size" := blockSize]
  }

  /** `dict[k]`; `None` stands for the KeyError. */
  function Lookup(m: map<string, int>, k: string): Option<int>
  {
    if k in m then Some(m[k]) else None
  }

  /** The getters return the constructor's arguments. */
  lemma MemoryGetters(sectors: int, numberOfBlocks: int, blockSize: int)
    ensures Lookup(MemoryOf(sectors, numberOfBlocks, blockSize), "sectors") == Some(sectors)
    ensures Lookup(MemoryOf(sectors, numberOfBlocks, blockSize), "number_of_blocks") == Some(numberOfBlocks)
    ensures Lookup(MemoryOf(sectors, numberOfBlocks, blockSize), "block_size") == Some(blockSize)
  {
  }

  // ------------------------------------------------------------ the objects

  /** `HfTag.__init__` on a new object of class `kind`. */
  method NewHfTag(kind: Kind, tid: string, timestamp: Option<real>, antenna: Option<int>, seenCount: int)
    returns (t: Tag)
    ensures fresh(t) && t.Value() == HfTagOf(kind, tid, timestamp, antenna, seenCount)
  {
    t := new Tag(kind, Some(tid), timestamp);
    if TruthyInt(antenna) {
      t.SetAntenna(antenna);
    }
    t.SetSeenCount(Some(seenCount));
  }

  method NewIso15Tag(tid: string, timestamp: Option<real>, antenna: Option<int>, seenCount: int,
                     dsfid: Option<string>) returns (t: Tag)
    ensures fresh(t) && t.Value() == Iso15TagOf(tid, timestamp, antenna, seenCount, dsfid)
  {
    t := NewHfTag(Iso15Kind, tid, timestamp, antenna, seenCount);
    t.SetValue("type", Some(Str("ISO15")));
    if TruthyStr(dsfid) {
      t.SetValue("dsfid", OptStr(dsfid));
    }
  }

  method NewIso14ATag(tid: string, timestamp: Option<real>, antenna: Option<int>, seenCount: int,
                      sak: Option<string>, atqa: Option<string>, tagType: Option<string>) returns (t: Tag)
    ensures fresh(t) && t.Value() == Iso14ATagOf(tid, timestamp, antenna, seenCount, sak, atqa, tagType)
  {
    t := NewHfTag(Iso14AKind, tid, timestamp, antenna, seenCount);
    t.SetValue("type", Some(Str(if TruthyStr(tagType) then tagType.value else "ISO14A")));
    if TruthyStr(sak) {
      t.SetValue("sak", OptStr(sak));
    }
    if TruthyStr(atqa) {
      t.SetValue("atqa", OptStr(atqa));
    }
  }

  /** `HfTagInfo.__init__` on a new object; the exception a malformed reply raises is the
      error result. */
  method NewHfTagInfo(tid: string, tagInfo: Option<string>, errorMessage: Option<string>,
                      timestamp: Option<real>, antenna: Option<int>, seenCount: int) returns (r: Result<Tag>)
    ensures var spec := HfTagInfoOf(tid, tagInfo, errorMessage, timestamp, antenna, seenCount);
      r.Ok? == spec.Ok?
      && (r.Ok? ==> fresh(r.value) && r.value.Value() == spec.value)
      && (r.Err? ==> r.error == spec.error)
  {
    var t := NewHfTag(HfInfoKind, tid, timestamp, antenna, seenCount);
    if TruthyStr(errorMessage) {
      t.SetErrorMessage(errorMessage);
    }
    if TruthyStr(tagInfo) {
      var decoded := AddInfo(t.fields, tagInfo.value);
      if decoded.Err? {
        return Err(decoded.error);
      }
      t.fields := decoded.value;
    }
    return Ok(t);
  }
}
