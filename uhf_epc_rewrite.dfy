/** `UhfReaderAT.write_tag_epc`: rewriting the EPC of the tags in the field. The PC words are
    read first and must agree; the EPC is written; then the PC word is written with the new
    EPC length in its bits 11..15 (section 6.3.2.1.2.2 of the EPCglobal UHF Class 1 Gen 2 air
    interface); finally the two write results are reconciled per tag in an insertion-ordered
    dictionary. */
module UhfEpcRewrite {
  import opened Results
  import opened Text
  import opened Tags
  import opened UhfTags
  import opened Readers
  import AT = ReaderAt
  import U = UhfReaderAt

  const LengthMessage: string := " The new epc length must be a multiple of 4"
  const DifferentMessage: string :=
    "Different tags are in the field, which would result in data loss when writing. Please edit individually."
  const LengthNotUpdated: string := "epc written, epc length not updated!"
  const NotWrittenPrefix: string := "epc not written - "
  const OnlyLengthUpdated: string := "epc not written, but epc length updated!"

  // ------------------------------------------------------------ the PC word

  /** `int(epc_words / 2) << 12`, or-ed with 0x0800 for an odd word count. */
  function EpcLengthBits(words: nat): nat
  {
    (words / 2) * 4096 + (if words % 2 == 1 then 2048 else 0)
  }

  /** The two steps compute the word count shifted to bit 11. */
  lemma EpcLengthBitsIsShift(words: nat)
    ensures EpcLengthBits(words) == words * 2048
  {
    assert words == (words / 2) * 2 + words % 2;
  }

  /** `pc_byte | epc_length_byte`: the agreed low eleven bits lie below bit 11 and the length
      bits above it, so the or is their sum. */
  function PcWord(pc: nat, words: nat): nat
    requires pc < 2048
  {
    EpcLengthBits(words) + pc
  }

  /** The written PC word keeps the agreed low bits and carries the word count in its length
      field; for an EPC of at most 31 words it fits 16 bits and its four hex digits read back. */
  lemma PcWordFields(pc: nat, words: nat)
    requires pc < 2048
    ensures PcWord(pc, words) % 2048 == pc
    ensures PcWord(pc, words) / 2048 == words
    ensures words < 32 ==> PcWord(pc, words) < 65536 && |HexFormat(PcWord(pc, words), 4)| == 4
    ensures Hex(HexFormat(PcWord(pc, words), 4)) == Some(PcWord(pc, words))
  {
    EpcLengthBitsIsShift(words);
    if words < 32 {
      HexFormat4Width(PcWord(pc, words));
    }
  }

  /** `int(str(tag.get_data()), 16) & 0x07FF`: the low eleven bits of the PC word a tag reported.
      A missing data field is the text "None". Dafny's `%` is never negative, as Python's `&` with
      a positive mask. */
  function PcData(t: TagVal): (r: Result<int>)
    ensures r.Ok? ==> 0 <= r.value < 2048
  {
    var s := if Data(t).Some? then Data(t).value else "None";
    match Hex(s)
    case None => Err(Fault("invalid literal for int() with base 16: '" + s + "'"))
    case Some(v) => Ok(v % 2048)
  }

  /** The PC loop: the first non-zero value is the agreed one (zero counts as unset until
      then); a later value that differs from it fails. */
  function CommonPc(tags: seq<TagVal>, pc: int): (r: Result<int>)
    requires 0 <= pc < 2048
    ensures r.Ok? ==> 0 <= r.value < 2048
    decreases |tags|
  {
    if |tags| == 0 then Ok(pc)
    else match PcData(tags[0])
      case Err(e) => Err(e)
      case Ok(d) =>
        if pc == 0 then CommonPc(tags[1..], d)
        else if d != pc then Err(ReaderError(DifferentMessage))
        else CommonPc(tags[1..], pc)
  }

  lemma CommonPcStep(tags: seq<TagVal>, pc: int)
    requires |tags| > 0 && 0 <= pc < 2048
    ensures CommonPc(tags, pc) ==
      match PcData(tags[0])
      case Err(e) => Err(e)
      case Ok(d) =>
        if pc == 0 then CommonPc(tags[1..], d)
        else if d != pc then Err(ReaderError(DifferentMessage))
        else CommonPc(tags[1..], pc)
  {
  }

  method AgreedPc(tags: seq<TagVal>) returns (res: Result<int>)
    ensures res == CommonPc(tags, 0)
  {
    var pc := 0;
    for i := 0 to |tags|
      invariant 0 <= pc < 2048
      invariant CommonPc(tags, 0) == CommonPc(tags[i..], pc)
    {
      assert tags[i..][1..] == tags[i + 1..];
      CommonPcStep(tags[i..], pc);
      var data := PcData(tags[i]);
      if data.Err? {
        return Err(data.error);
      }
      if pc == 0 {
        pc := data.value;
      } else if data.value != pc {
        return Err(ReaderError(DifferentMessage));
      }
    }
    assert tags[|tags|..] == [];
    return Ok(pc);
  }

  /** An agreed value is one every tag reported, except for zeros before the first non-zero
      report; a value agreed on from a non-zero start is that start. */
  lemma {:induction false} CommonPcSound(tags: seq<TagVal>, pc: int)
    requires 0 <= pc < 2048 && CommonPc(tags, pc).Ok?
    ensures pc != 0 ==> CommonPc(tags, pc).value == pc
    ensures forall k :: 0 <= k < |tags| ==>
      PcData(tags[k]) == CommonPc(tags, pc)
      || (PcData(tags[k]) == Ok(0) && pc == 0 && forall j :: 0 <= j < k ==> PcData(tags[j]) == Ok(0))
    decreases |tags|
  {
    if |tags| > 0 {
      var d := PcData(tags[0]).value;
      var next := if pc == 0 then d else pc;
      CommonPcStep(tags, pc);
      assert CommonPc(tags, pc) == CommonPc(tags[1..], next);
      CommonPcSound(tags[1..], next);
      assert next == 0 ==> pc == 0 && PcData(tags[0]) == Ok(0);
      forall k | 1 <= k < |tags|
        ensures PcData(tags[k]) == CommonPc(tags, pc)
          || (PcData(tags[k]) == Ok(0) && pc == 0 && forall j :: 0 <= j < k ==> PcData(tags[j]) == Ok(0))
      {
        assert tags[k] == tags[1..][k - 1];
        if PcData(tags[k]) != CommonPc(tags, pc) {
          forall j | 1 <= j < k
            ensures PcData(tags[j]) == Ok(0)
          {
            assert tags[j] == tags[1..][j - 1];
          }
        }
      }
    }
  }

  /** Tags that all report the same value agree on it. */
  lemma {:induction false} CommonPcComplete(tags: seq<TagVal>, pc: int, p: int)
    requires 0 <= pc < 2048 && (pc == 0 || pc == p)
    requires forall k :: 0 <= k < |tags| ==> PcData(tags[k]) == Ok(p)
    requires |tags| > 0 || pc == p
    ensures CommonPc(tags, pc) == Ok(p)
    decreases |tags|
  {
    if |tags| > 0 {
      assert PcData(tags[0]) == Ok(p);
      if |tags| > 1 {
        assert tags[1..][0] == tags[1];
      }
      forall k | 0 <= k < |tags[1..]|
        ensures PcData(tags[1..][k]) == Ok(p)
      {
        assert tags[1..][k] == tags[k + 1];
      }
      CommonPcComplete(tags[1..], p, p);
    }
  }

  /** A tag whose data is `text`. */
  function DataTag(text: string): TagVal
  {
    Set(UhfTagOf("E2"), "data", Some(Str(text)))
  }

  lemma DataTagPc(text: string, v: nat)
    requires v < 16 && text == [DigitChar(v)]
    ensures PcData(DataTag(text)) == Ok(v)
  {
    DataTagData(text);
    HexDigitChar(v);
    SmallPc(v);
  }

  lemma DataTagData(text: string)
    ensures Data(DataTag(text)) == Some(text)
  {
  }

  lemma HexDigitChar(v: nat)
    requires v < 16
    ensures Hex([DigitChar(v)]) == Some(v)
  {
    var text := [DigitChar(v)];
    assert DigitValue(text[0]) == Some(v);
    assert Digits(text, 16) == Some(v);
    assert text[0] != '-' && text[0] != '+';
  }

  lemma SmallPc(v: nat)
    requires v < 2048
    ensures v % 2048 == v
  {
  }

  /** Zero counts as unset only before the first non-zero value: the order of the same two
      reports decides whether the rewrite goes ahead. */
  lemma ZeroOrderMatters()
    ensures CommonPc([DataTag("0"), DataTag("5")], 0) == Ok(5)
    ensures CommonPc([DataTag("5"), DataTag("0")], 0) == Err(ReaderError(DifferentMessage))
  {
    DataTagPc("0", 0);
    DataTagPc("5", 5);
    var a, b := [DataTag("0"), DataTag("5")], [DataTag("5"), DataTag("0")];
    assert a[1..] == [DataTag("5")] && b[1..] == [DataTag("0")];
    assert [DataTag("5")][1..] == [] && [DataTag("0")][1..] == [];
    CommonPcStep(a, 0);
    CommonPcStep(a[1..], 0);
    CommonPcStep(b, 0);
    CommonPcStep(b[1..], 5);
  }

  // ------------------------------------------------------------ the result dictionary

  /** A Python dict from tag id to tag: its keys in insertion order and its entries. */
  datatype TagDict = TagDict(keys: seq<string>, vals: map<string, TagVal>)

  ghost predicate Valid(d: TagDict)
  {
    (forall i, j :: 0 <= i < j < |d.keys| ==> d.keys[i] != d.keys[j])
    && (forall k :: k in d.vals <==> k in d.keys)
  }

  const Empty: TagDict := TagDict([], map[])

  /** `d[k] = v`: a new key goes to the end, an existing key keeps its place. */
  function Store(d: TagDict, k: string, v: TagVal): (r: TagDict)
    ensures Valid(d) ==> Valid(r)
    ensures r.vals == d.vals[k := v]
  {
    TagDict(if k in d.vals then d.keys else d.keys + [k], d.vals[k := v])
  }

  /** `list(d.values())`. */
  function Values(d: TagDict): (r: seq<TagVal>)
    requires Valid(d)
    ensures |r| == |d.keys|
  {
    seq(|d.keys|, i requires 0 <= i < |d.keys| => d.vals[d.keys[i]])
  }

  /** A tag whose EPC write succeeded, after `set_epc(new_epc)` and `set_value("old_epc", id)`. */
  function Rewritten(t: TagVal, newEpc: string): TagVal
  {
    Set(Set(t, "epc", Some(Str(newEpc))), "old_epc", Some(Str(Id(t))))
  }

  /** The loop over the EPC write results: each tag is stored under its (old) id, rewritten when
      its write succeeded. */
  function EpcStored(inv: seq<TagVal>, newEpc: string, d: TagDict): (r: TagDict)
    ensures Valid(d) ==> Valid(r)
    decreases |inv|
  {
    if |inv| == 0 then d
    else
      var t := inv[0];
      EpcStored(inv[1..], newEpc, Store(d, Id(t), StoredValue(t, newEpc)))
  }

  /** `str(tag.get_error_message())`. */
  function MessageText(t: TagVal): string
  {
    if ErrorMessage(t).Some? then ErrorMessage(t).value else "None"
  }

  /** One step of the reconciliation loop for a tag of the PC write. A stored entry (a non-empty
      dict, so truthy) takes an error when the PC write failed: the EPC was written but not its
      length, or neither. A tag without entry whose PC write succeeded is added with a message
      saying so; one whose PC write failed as well is dropped. */
  function ReconcileStep(d: TagDict, tp: TagVal): TagDict
  {
    var k := Id(tp);
    if k in d.vals && d.vals[k].fields != map[] then
      if HasError(tp) then
        var te := d.vals[k];
        Store(d, k, if !HasError(te) then WithErrorMessage(te, Some(LengthNotUpdated))
                    else WithErrorMessage(te, Some(NotWrittenPrefix + MessageText(te))))
      else d
    else if !HasError(tp) then Store(d, k, WithErrorMessage(tp, Some(OnlyLengthUpdated)))
    else d
  }

  function Reconciled(invPc: seq<TagVal>, d: TagDict): (r: TagDict)
    ensures Valid(d) ==> Valid(r)
    decreases |invPc|
  {
    if |invPc| == 0 then d else Reconciled(invPc[1..], ReconcileStep(d, invPc[0]))
  }

  /** The EPC loop of `write_tag_epc`: each written tag goes into the dictionary. */
  method StoreWritten(newEpc: string, inventoryEpc: seq<TagVal>, d0: TagDict) returns (d: TagDict)
    requires Valid(d0)
    ensures Valid(d) && d == EpcStored(inventoryEpc, newEpc, d0)
  {
    d := d0;
    for i := 0 to |inventoryEpc|
      invariant Valid(d)
      invariant EpcStored(inventoryEpc, newEpc, d0) == EpcStored(inventoryEpc[i..], newEpc, d)
    {
      assert inventoryEpc[i..][1..] == inventoryEpc[i + 1..];
      var tag := inventoryEpc[i];
      if !HasError(tag) {
        d := Store(d, Id(tag), Rewritten(tag, newEpc));
      } else {
        d := Store(d, Id(tag), tag);
      }
    }
    assert inventoryEpc[|inventoryEpc|..] == [];
  }

  /** The PC loop of `write_tag_epc`: each PC write result is reconciled with the entry of its id. */
  method ReconcileWritten(inventoryPc: seq<TagVal>, d0: TagDict) returns (d: TagDict)
    requires Valid(d0)
    ensures Valid(d) && d == Reconciled(inventoryPc, d0)
  {
    d := d0;
    for i := 0 to |inventoryPc|
      invariant Valid(d)
      invariant Reconciled(inventoryPc, d0) == Reconciled(inventoryPc[i..], d)
    {
      assert inventoryPc[i..][1..] == inventoryPc[i + 1..];
      var tagPc := inventoryPc[i];
      var id := Id(tagPc);
      if id in d.vals && d.vals[id].fields != map[] {
        if HasError(tagPc) {
          var tagEpc := d.vals[id];
          if !HasError(tagEpc) {
            d := Store(d, id, WithErrorMessage(tagEpc, Some(LengthNotUpdated)));
          } else {
            d := Store(d, id, WithErrorMessage(tagEpc, Some(NotWrittenPrefix + MessageText(tagEpc))));
          }
        }
      } else if !HasError(tagPc) {
        d := Store(d, id, WithErrorMessage(tagPc, Some(OnlyLengthUpdated)));
      }
    }
    assert inventoryPc[|inventoryPc|..] == [];
  }

  // ------------------------------------------------------------ what the dictionary holds

  /** No entry is an empty dict, so every entry is truthy. */
  ghost predicate NonEmpty(d: TagDict)
  {
    forall k :: k in d.vals ==> d.vals[k].fields != map[]
  }

  /** Some tag of `inv` has id `k`. */
  ghost predicate Named(inv: seq<TagVal>, k: string)
  {
    exists j :: 0 <= j < |inv| && Id(inv[j]) == k
  }

  /** Some tag of `inv` with id `k` reports success. */
  ghost predicate Passed(inv: seq<TagVal>, k: string)
  {
    exists j :: 0 <= j < |inv| && Id(inv[j]) == k && !HasError(inv[j])
  }

  /** No tag of `inv` with id `k` reports an error. */
  ghost predicate NeverFailed(inv: seq<TagVal>, k: string)
  {
    forall j :: 0 <= j < |inv| && Id(inv[j]) == k ==> !HasError(inv[j])
  }

  /** Every entry without error carries the new EPC and its own key as `old_epc`. */
  ghost predicate EntriesRewritten(d: TagDict, newEpc: string)
  {
    forall k :: k in d.vals && !HasError(d.vals[k]) ==>
      Epc(d.vals[k]) == Some(newEpc) && GetStr(d.vals[k], "old_epc") == Some(k)
  }

  lemma Cons(inv: seq<TagVal>, k: string)
    requires |inv| > 0
    ensures Named(inv, k) <==> Id(inv[0]) == k || Named(inv[1..], k)
    ensures Passed(inv, k) <==> (Id(inv[0]) == k && !HasError(inv[0])) || Passed(inv[1..], k)
    ensures NeverFailed(inv, k) <==> (Id(inv[0]) == k ==> !HasError(inv[0])) && NeverFailed(inv[1..], k)
  {
    if Named(inv, k) {
      var j :| 0 <= j < |inv| && Id(inv[j]) == k;
      if j > 0 {
        assert inv[1..][j - 1] == inv[j];
      }
    }
    if Passed(inv, k) {
      var j :| 0 <= j < |inv| && Id(inv[j]) == k && !HasError(inv[j]);
      if j > 0 {
        assert inv[1..][j - 1] == inv[j];
      }
    }
    if Named(inv[1..], k) {
      var j :| 0 <= j < |inv[1..]| && Id(inv[1..][j]) == k;
      assert inv[j + 1] == inv[1..][j];
    }
    if Passed(inv[1..], k) {
      var j :| 0 <= j < |inv[1..]| && Id(inv[1..][j]) == k && !HasError(inv[1..][j]);
      assert inv[j + 1] == inv[1..][j];
    }
    if NeverFailed(inv[1..], k) && (Id(inv[0]) == k ==> !HasError(inv[0])) {
      forall j | 0 <= j < |inv| && Id(inv[j]) == k
        ensures !HasError(inv[j])
      {
        if j > 0 {
          assert inv[1..][j - 1] == inv[j];
        }
      }
    }
    if NeverFailed(inv, k) {
      forall j | 0 <= j < |inv[1..]| && Id(inv[1..][j]) == k
        ensures !HasError(inv[1..][j])
      {
        assert inv[j + 1] == inv[1..][j];
      }
    }
  }

  /** The value the EPC loop stores for tag `t`. */
  function StoredValue(t: TagVal, newEpc: string): TagVal
  {
    if !HasError(t) then Rewritten(t, newEpc) else t
  }

  lemma StoredValueFields(t: TagVal, newEpc: string)
    ensures var v := StoredValue(t, newEpc);
      v.fields != map[] && HasError(v) == HasError(t)
      && (!HasError(v) ==> Epc(v) == Some(newEpc) && GetStr(v, "old_epc") == Some(Id(t)))
  {
    if !HasError(t) {
      var t1 := Set(t, "epc", Some(Str(newEpc)));
      assert "epc" in t1.fields;
      assert "epc" in Set(t1, "old_epc", Some(Str(Id(t)))).fields;
    } else {
      assert "has_error" in t.fields;
    }
  }

  lemma EpcStoredStep(inv: seq<TagVal>, newEpc: string, d: TagDict)
    requires |inv| > 0
    ensures EpcStored(inv, newEpc, d) == EpcStored(inv[1..], newEpc, Store(d, Id(inv[0]), StoredValue(inv[0], newEpc)))
  {
  }

  /** After the EPC loop the keys are the old ones plus the ids of the written tags, every
      entry is non-empty, and an entry without error is a rewritten tag. */
  lemma {:induction false} EpcStoredEntries(inv: seq<TagVal>, newEpc: string, d: TagDict)
    requires EntriesRewritten(d, newEpc) && NonEmpty(d)
    ensures var r := EpcStored(inv, newEpc, d);
      (forall k :: k in r.vals <==> k in d.vals || Named(inv, k))
      && EntriesRewritten(r, newEpc) && NonEmpty(r)
    decreases |inv|
  {
    if |inv| > 0 {
      var t := inv[0];
      var d' := Store(d, Id(t), StoredValue(t, newEpc));
      StoredValueFields(t, newEpc);
      assert EntriesRewritten(d', newEpc);
      assert NonEmpty(d');
      EpcStoredStep(inv, newEpc, d);
      EpcStoredEntries(inv[1..], newEpc, d');
      forall k
        ensures Named(inv, k) <==> Id(t) == k || Named(inv[1..], k)
      {
        Cons(inv, k);
      }
    }
  }

  /** One step: the keys grow by the id of a successful PC tag; an entry without error
      afterwards was there before, unchanged, and is not the id of a failed PC tag. */
  lemma ReconcileStepEntries(d: TagDict, tp: TagVal)
    requires NonEmpty(d)
    ensures var r := ReconcileStep(d, tp);
      (forall k :: k in r.vals <==> k in d.vals || (k == Id(tp) && !HasError(tp)))
      && NonEmpty(r)
      && (forall k :: k in r.vals && !HasError(r.vals[k]) ==>
            k in d.vals && r.vals[k] == d.vals[k] && (k == Id(tp) ==> !HasError(tp)))
  {
    var k := Id(tp);
    if k in d.vals && HasError(tp) {
      var te := d.vals[k];
      ErrorMessageSetsFlag(te, Some(LengthNotUpdated));
      ErrorMessageSetsFlag(te, Some(NotWrittenPrefix + MessageText(te)));
      assert NotWrittenPrefix + MessageText(te) != "";
      assert "has_error" in WithErrorMessage(te, Some(LengthNotUpdated)).fields;
      assert "has_error" in WithErrorMessage(te, Some(NotWrittenPrefix + MessageText(te))).fields;
    } else if k !in d.vals && !HasError(tp) {
      ErrorMessageSetsFlag(tp, Some(OnlyLengthUpdated));
      assert "has_error" in WithErrorMessage(tp, Some(OnlyLengthUpdated)).fields;
    }
  }

  /** The reconciliation adds only the ids of PC tags whose write succeeded; an entry without
      error at the end was stored before, unchanged, and no PC tag with its id failed. */
  lemma {:induction false} ReconciledEntries(invPc: seq<TagVal>, d: TagDict)
    requires NonEmpty(d)
    ensures var r := Reconciled(invPc, d);
      (forall k :: k in r.vals <==> k in d.vals || Passed(invPc, k))
      && NonEmpty(r)
      && (forall k :: k in r.vals && !HasError(r.vals[k]) ==>
            k in d.vals && r.vals[k] == d.vals[k] && NeverFailed(invPc, k))
    decreases |invPc|
  {
    if |invPc| > 0 {
      var tp := invPc[0];
      var d' := ReconcileStep(d, tp);
      ReconcileStepEntries(d, tp);
      ReconciledEntries(invPc[1..], d');
      assert Reconciled(invPc, d) == Reconciled(invPc[1..], d');
      forall k
        ensures Passed(invPc, k) <==> (Id(tp) == k && !HasError(tp)) || Passed(invPc[1..], k)
        ensures NeverFailed(invPc, k) <==> (Id(tp) == k ==> !HasError(tp)) && NeverFailed(invPc[1..], k)
      {
        Cons(invPc, k);
      }
    }
  }

  /** A stored entry whose id no failed PC write names is left as it is. */
  lemma {:induction false} ReconciledKeeps(invPc: seq<TagVal>, d: TagDict, k: string)
    requires k in d.vals && d.vals[k].fields != map[] && NeverFailed(invPc, k)
    ensures k in Reconciled(invPc, d).vals && Reconciled(invPc, d).vals[k] == d.vals[k]
    decreases |invPc|
  {
    if |invPc| > 0 {
      Cons(invPc, k);
      ReconciledKeeps(invPc[1..], ReconcileStep(d, invPc[0]), k);
    }
  }

  /** What `write_tag_epc` returns for the two write results: one entry per id of a written
      tag, plus the ids whose PC write alone succeeded. An entry without error is a tag whose
      EPC write succeeded and none of whose PC writes failed; it carries the new EPC and its
      old id as `old_epc`. */
  lemma RewriteEntries(newEpc: string, invEpc: seq<TagVal>, invPc: seq<TagVal>)
    ensures var d := Reconciled(invPc, EpcStored(invEpc, newEpc, Empty));
      (forall k :: k in d.vals <==> Named(invEpc, k) || Passed(invPc, k))
      && (forall k :: k in d.vals && !HasError(d.vals[k]) ==>
            Epc(d.vals[k]) == Some(newEpc) && GetStr(d.vals[k], "old_epc") == Some(k)
            && Named(invEpc, k) && NeverFailed(invPc, k))
  {
    EpcStoredEntries(invEpc, newEpc, Empty);
    ReconciledEntries(invPc, EpcStored(invEpc, newEpc, Empty));
  }

  /** Conversely a tag whose EPC write succeeded (the last one reported under its id) and none
      of whose PC writes failed is returned as the EPC loop stored it: rewritten, without error. */
  lemma RewriteKeepsWritten(newEpc: string, invEpc: seq<TagVal>, invPc: seq<TagVal>, k: string)
    requires k in EpcStored(invEpc, newEpc, Empty).vals && NeverFailed(invPc, k)
    ensures var stored := EpcStored(invEpc, newEpc, Empty);
      k in Reconciled(invPc, stored).vals && Reconciled(invPc, stored).vals[k] == stored.vals[k]
  {
    EpcStoredEntries(invEpc, newEpc, Empty);
    ReconciledKeeps(invPc, EpcStored(invEpc, newEpc, Empty), k);
  }

  // ------------------------------------------------------------ the whole operation

  /** What the commands of the rewrite see of the reader: connected, echo check, running. */
  datatype Link = Link(connected: bool, echo: bool, running: bool)

  function ReadCommand(): string
  {
    AT.PrepareCommand("AT+READ", [AT.PStr("PC"), AT.PInt(0), AT.PInt(2), AT.PNone])
  }

  function EpcCommand(newEpc: string, start: int): string
  {
    AT.PrepareCommand("AT+WRT", [AT.PStr("EPC"), AT.PInt(start), AT.PStr(newEpc), AT.PNone])
  }

  /** The PC word goes out as `f"{pc_byte:04X}"`. */
  function PcCommand(word: nat): string
  {
    AT.PrepareCommand("AT+WRT", [AT.PStr("PC"), AT.PInt(0), AT.PStr(HexFormat(word, 4)), AT.PNone])
  }

  function Reply(replies: seq<string>, command: string, sc: string, link: Link): Result<seq<string>>
  {
    AT.CommandReply(replies, command, sc, link.echo, link.running, AT.AtDialect, AT.PlainError).0
  }

  /** `read_tag_data(0, 2, 'PC')` on a reply. */
  function PcRead(read: Result<seq<string>>, timestamp: real): Result<seq<TagVal>>
  {
    if read.Err? then Err(read.error) else U.ReadTags(read.value, "PC", timestamp)
  }

  /** `write_tag_epc(tid="", new_epc, start)` given the replies to its three commands: its
      result, and the command lines it sends. */
  function Rewrite(newEpc: string, start: int, timestamp: real, link: Link,
                   readReplies: seq<string>, epcReplies: seq<string>, pcReplies: seq<string>)
    : (Result<seq<TagVal>>, seq<string>)
  {
    if |newEpc| % 4 != 0 then (Err(ReaderError(LengthMessage)), [])
    else if !link.connected then (Err(ReaderError("Not connected")), [])
    else
      var s1 := [ReadCommand() + "\r"];
      var pcTags := PcRead(Reply(readReplies, "AT+READ", ReadCommand(), link), timestamp);
      if pcTags.Err? then (Err(pcTags.error), s1)
      else
        var a := AfterRead(newEpc, start, timestamp, link, pcTags.value, epcReplies, pcReplies);
        (a.0, s1 + a.1)
  }

  /** The rest of `write_tag_epc` once the PC words are read: nothing to do without tags, an
      error when they disagree, else the two writes. */
  function AfterRead(newEpc: string, start: int, timestamp: real, link: Link, pcTags: seq<TagVal>,
                     epcReplies: seq<string>, pcReplies: seq<string>): (Result<seq<TagVal>>, seq<string>)
  {
    if pcTags == [] then (Ok([]), [])
    else
      var pc := CommonPc(pcTags, 0);
      if pc.Err? then (Err(pc.error), [])
      else Written(newEpc, start, pc.value, timestamp, link, epcReplies, pcReplies)
  }

  /** The rest of `write_tag_epc` once the tags agree on the PC bits `pc`: the result and the
      two write commands it sends. */
  function Written(newEpc: string, start: int, pc: int, timestamp: real, link: Link,
                   epcReplies: seq<string>, pcReplies: seq<string>): (Result<seq<TagVal>>, seq<string>)
    requires 0 <= pc < 2048
  {
    var s2 := [EpcCommand(newEpc, start) + "\r"];
    var epcTags := U.StatusReply(Reply(epcReplies, "AT+WRT", EpcCommand(newEpc, start), link), 6, timestamp);
    if epcTags.Err? then (Err(epcTags.error), s2)
    else
      var word := PcWord(pc, |newEpc| / 4);
      var s3 := s2 + [PcCommand(word) + "\r"];
      var written := U.StatusReply(Reply(pcReplies, "AT+WRT", PcCommand(word), link), 6, timestamp);
      if written.Err? then (Err(written.error), s3)
      else (Ok(Values(Reconciled(written.value, EpcStored(epcTags.value, newEpc, Empty)))), s3)
  }

  /** `read_tag_data(0, 2, 'PC')`: the PC word of every tag in the field. */
  method ReadPc(r: Reader, readReplies: seq<string>, timestamp: real) returns (res: Result<seq<TagVal>>)
    modifies r`receiveBuffer, r`sent
    ensures var link := Link(old(r.connected), r.echoEnabled, r.base.info.status >= 1);
      res == (if !link.connected then Err(ReaderError("Not connected"))
              else PcRead(Reply(readReplies, "AT+READ", ReadCommand(), link), timestamp))
      && r.sent == old(r.sent) + (if link.connected then [ReadCommand() + "\r"] else [])
  {
    res := U.ReadTagData(r, 0, 2, "PC", None, readReplies, timestamp);
  }

  /** `write_tag_epc` without a tid mask. */
  method WriteTagEpc(r: Reader, newEpc: string, start: int, readReplies: seq<string>, epcReplies: seq<string>,
                     pcReplies: seq<string>, timestamp: real) returns (res: Result<seq<TagVal>>)
    modifies r`receiveBuffer, r`sent
    ensures var spec := Rewrite(newEpc, start, timestamp, Link(old(r.connected), r.echoEnabled, r.base.info.status >= 1),
                                readReplies, epcReplies, pcReplies);
      res == spec.0 && r.sent == old(r.sent) + spec.1
  {
    ghost var link := Link(r.connected, r.echoEnabled, r.base.info.status >= 1);
    if |newEpc| % 4 != 0 {
      return Err(ReaderError(LengthMessage));
    }
    var inventoryPc := ReadPc(r, readReplies, timestamp);
    if inventoryPc.Err? {
      return Err(inventoryPc.error);
    }
    ghost var s1 := [ReadCommand() + "\r"];
    ghost var sent1 := r.sent;
    ghost var a := AfterRead(newEpc, start, timestamp, link, inventoryPc.value, epcReplies, pcReplies);
    res := WriteRead(r, newEpc, start, inventoryPc.value, epcReplies, pcReplies, timestamp);
    ConcatAssoc(old(r.sent), s1, a.1);
  }

  /** `write_tag_epc` on a connected reader once the PC words `inventoryPc` are read. */
  method WriteRead(r: Reader, newEpc: string, start: int, inventoryPc: seq<TagVal>, epcReplies: seq<string>,
                   pcReplies: seq<string>, timestamp: real) returns (res: Result<seq<TagVal>>)
    requires r.connected
    modifies r`receiveBuffer, r`sent
    ensures var a := AfterRead(newEpc, start, timestamp, Link(r.connected, r.echoEnabled, r.base.info.status >= 1),
                               inventoryPc, epcReplies, pcReplies);
      res == a.0 && r.sent == old(r.sent) + a.1
  {
    if inventoryPc == [] {
      return Ok([]);
    }
    var pc := AgreedPc(inventoryPc);
    if pc.Err? {
      return Err(pc.error);
    }
    res := WriteAgreed(r, newEpc, start, pc.value, epcReplies, pcReplies, timestamp);
  }

  /** The two writes of `write_tag_epc` on a connected reader whose tags agree on `pc`. */
  method WriteAgreed(r: Reader, newEpc: string, start: int, pc: int, epcReplies: seq<string>,
                     pcReplies: seq<string>, timestamp: real) returns (res: Result<seq<TagVal>>)
    requires 0 <= pc < 2048 && r.connected
    modifies r`receiveBuffer, r`sent
    ensures var w := Written(newEpc, start, pc, timestamp, Link(r.connected, r.echoEnabled, r.base.info.status >= 1),
                             epcReplies, pcReplies);
      res == w.0 && r.sent == old(r.sent) + w.1
  {
    ghost var link := Link(r.connected, r.echoEnabled, r.base.info.status >= 1);
    var inventoryEpc := U.WriteTagData(r, newEpc, start, "EPC", None, epcReplies, timestamp);
    ghost var s2 := [EpcCommand(newEpc, start) + "\r"];
    assert r.sent == old(r.sent) + s2;
    assert inventoryEpc == U.StatusReply(Reply(epcReplies, "AT+WRT", EpcCommand(newEpc, start), link), 6, timestamp);
    if inventoryEpc.Err? {
      return Err(inventoryEpc.error);
    }
    var word := PcWord(pc, |newEpc| / 4);
    ghost var sent2 := r.sent;
    var written := U.WriteTagData(r, HexFormat(word, 4), 0, "PC", None, pcReplies, timestamp);
    ghost var s3 := s2 + [PcCommand(word) + "\r"];
    assert r.sent == sent2 + [PcCommand(word) + "\r"];
    ConcatAssoc(old(r.sent), s2, [PcCommand(word) + "\r"]);
    assert written == U.StatusReply(Reply(pcReplies, "AT+WRT", PcCommand(word), link), 6, timestamp);
    if written.Err? {
      return Err(written.error);
    }
    var d := StoreWritten(newEpc, inventoryEpc.value, Empty);
    d := ReconcileWritten(written.value, d);
    return Ok(Values(d));
  }

  /** The promise of `write_tag_epc`: every returned tag without error carries the new EPC;
      when the PC word is written, it keeps the agreed low bits and its length field holds the
      new EPC's word count. */
  lemma RewriteResult(newEpc: string, start: int, timestamp: real, link: Link,
                      readReplies: seq<string>, epcReplies: seq<string>, pcReplies: seq<string>)
    ensures var spec := Rewrite(newEpc, start, timestamp, link, readReplies, epcReplies, pcReplies);
      spec.0.Ok? ==> forall i :: 0 <= i < |spec.0.value| && !HasError(spec.0.value[i]) ==> Epc(spec.0.value[i]) == Some(newEpc)
    ensures var spec := Rewrite(newEpc, start, timestamp, link, readReplies, epcReplies, pcReplies);
      |spec.1| == 3 ==> exists pc: nat :: pc < 2048 && spec.1[2] == PcCommand(PcWord(pc, |newEpc| / 4)) + "\r"
                                          && PcWord(pc, |newEpc| / 4) / 2048 == |newEpc| / 4
                                          && PcWord(pc, |newEpc| / 4) % 2048 == pc
  {
    if |newEpc| % 4 == 0 && link.connected {
      var pcTags := PcRead(Reply(readReplies, "AT+READ", ReadCommand(), link), timestamp);
      if pcTags.Ok? && pcTags.value != [] && CommonPc(pcTags.value, 0).Ok? {
        var pc := CommonPc(pcTags.value, 0).value;
        var w := Written(newEpc, start, pc, timestamp, link, epcReplies, pcReplies);
        assert Rewrite(newEpc, start, timestamp, link, readReplies, epcReplies, pcReplies) == (w.0, [ReadCommand() + "\r"] + w.1);
        WrittenResult(newEpc, start, pc, timestamp, link, epcReplies, pcReplies);
      }
    }
  }

  /** The two writes: the returned tags without error carry the new EPC, and a PC command sent
      holds the agreed bits with the new length. */
  lemma WrittenResult(newEpc: string, start: int, pc: int, timestamp: real, link: Link,
                      epcReplies: seq<string>, pcReplies: seq<string>)
    requires 0 <= pc < 2048
    ensures var w := Written(newEpc, start, pc, timestamp, link, epcReplies, pcReplies);
      (w.0.Ok? ==> forall i :: 0 <= i < |w.0.value| && !HasError(w.0.value[i]) ==> Epc(w.0.value[i]) == Some(newEpc))
      && (|w.1| == 2 ==> w.1[1] == PcCommand(PcWord(pc, |newEpc| / 4)) + "\r")
    ensures PcWord(pc, |newEpc| / 4) / 2048 == |newEpc| / 4 && PcWord(pc, |newEpc| / 4) % 2048 == pc
  {
    PcWordFields(pc, |newEpc| / 4);
    var epcTags := U.StatusReply(Reply(epcReplies, "AT+WRT", EpcCommand(newEpc, start), link), 6, timestamp);
    var word := PcWord(pc, |newEpc| / 4);
    var written := U.StatusReply(Reply(pcReplies, "AT+WRT", PcCommand(word), link), 6, timestamp);
    if epcTags.Ok? && written.Ok? {
      var d := Reconciled(written.value, EpcStored(epcTags.value, newEpc, Empty));
      RewriteEntries(newEpc, epcTags.value, written.value);
      forall i | 0 <= i < |Values(d)| && !HasError(Values(d)[i])
        ensures Epc(Values(d)[i]) == Some(newEpc)
      {
        assert Values(d)[i] == d.vals[d.keys[i]];
      }
    }
  }
}
