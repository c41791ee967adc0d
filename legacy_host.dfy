/** src/wasm-component.ts: the host of the predecessor runtime in
    wasm/wasm-component.h. It decodes elements at the fixed offsets 0, 4, 8
    and 12 and hands a clicked element's own address back to
    `invoke_on_click`. Unlike the newer pair, this pair agrees: the offsets it
    reads are where a wasm32 C compiler places the legacy `Element` fields. */
module LegacyHost {
  import opened Wrappers
  import opened LinearMemory
  import opened HostMemory
  import CLayout
  import LegacyRuntime

  const TYPE_AT: nat := 0
  const TEXT_AT: nat := 4
  const CHILDREN_AT: nat := 8
  const ON_CLICK_AT: nat := 12

  /** `ResultElement`: `onClick` is present iff the element has a callback,
      and it calls `invoke_on_click` with this address. */
  datatype LegacyResult = LegacyResult(
    tag: seq<byte>,
    text: Option<seq<byte>>,
    children: Option<seq<LegacyResult>>,
    onClick: Option<nat>)

  /** `readElement(address)`, following at most `fuel` levels of children.
      `onClick` exists exactly when the callback word is non-zero, and then
      targets the element's own address. */
  function ReadLegacyElement(mem: Memory, address: nat, fuel: nat): (r: Result<LegacyResult, HostError>)
    ensures fuel == 0 ==> r == Err(OutOfFuel)
    ensures r.Ok? ==>
              ReadU32(mem, address + ON_CLICK_AT).Ok?
              && (r.value.onClick.Some? <==> ReadU32(mem, address + ON_CLICK_AT).value != 0)
              && (r.value.onClick.Some? ==> r.value.onClick.value == address)
    decreases fuel, 1
  {
    if fuel == 0 then Err(OutOfFuel)
    else
      var typePtr :- ReadU32(mem, address + TYPE_AT);
      var tag :- ReadCString(mem, typePtr);
      var textPtr :- ReadU32(mem, address + TEXT_AT);
      var text :- ReadOptionalString(mem, textPtr);
      var childrenPtr :- ReadU32(mem, address + CHILDREN_AT);
      var children :- ReadLegacyChildren(mem, childrenPtr, fuel);
      var onClickPtr :- ReadU32(mem, address + ON_CLICK_AT);
      Ok(LegacyResult(tag, text, children, if onClickPtr != 0 then Some(address) else None))
  }

  /** A decoded element's tag, text and children come from the words at +0,
      +4 and +8, each decoded by its own reader. */
  lemma ReadLegacyElementFields(mem: Memory, address: nat, fuel: nat)
    requires ReadLegacyElement(mem, address, fuel).Ok?
    ensures var e := ReadLegacyElement(mem, address, fuel).value;
            ReadU32(mem, address + TYPE_AT).Ok?
            && ReadCString(mem, ReadU32(mem, address + TYPE_AT).value) == Ok(e.tag)
            && ReadU32(mem, address + TEXT_AT).Ok?
            && ReadOptionalString(mem, ReadU32(mem, address + TEXT_AT).value) == Ok(e.text)
            && ReadU32(mem, address + CHILDREN_AT).Ok?
            && ReadLegacyChildren(mem, ReadU32(mem, address + CHILDREN_AT).value, fuel) == Ok(e.children)
  {
  }

  /** `children`: decoded only for a non-zero pointer, recursively and in
      array order. */
  function ReadLegacyChildren(mem: Memory, ptr: u32, fuel: nat): (r: Result<Option<seq<LegacyResult>>, HostError>)
    requires fuel > 0
    ensures r.Ok? ==> (r.value.None? <==> ptr == 0)
    ensures r.Ok? && ptr != 0 ==>
              ReadPointerArray(mem, ptr).Ok?
              && ReadLegacyElements(mem, ReadPointerArray(mem, ptr).value, fuel - 1) == Ok(r.value.value)
    decreases fuel, 0
  {
    if ptr == 0 then Ok(None)
    else
      var addrs :- ReadPointerArray(mem, ptr);
      var kids :- ReadLegacyElements(mem, addrs, fuel - 1);
      Ok(Some(kids))
  }

  /** `childrenArray.map(readElement)`: the first failure, else every child. */
  function ReadLegacyElements(mem: Memory, addrs: seq<u32>, fuel: nat): (r: Result<seq<LegacyResult>, HostError>)
    ensures r.Ok? ==> |r.value| == |addrs|
    decreases fuel, 2 + |addrs|
  {
    if |addrs| == 0 then Ok([])
    else
      var first :- ReadLegacyElement(mem, addrs[0], fuel);
      var rest :- ReadLegacyElements(mem, addrs[1..], fuel);
      Ok([first] + rest)
  }

  /** Child `i` of a successful decoding is the decoding of array entry `i`. */
  lemma {:induction false} ReadLegacyElementsAt(mem: Memory, addrs: seq<u32>, fuel: nat, i: nat)
    requires ReadLegacyElements(mem, addrs, fuel).Ok? && i < |addrs|
    ensures ReadLegacyElement(mem, addrs[i], fuel) == Ok(ReadLegacyElements(mem, addrs, fuel).value[i])
    decreases |addrs|
  {
    var first := ReadLegacyElement(mem, addrs[0], fuel);
    var rest := ReadLegacyElements(mem, addrs[1..], fuel);
    assert first.Ok? && rest.Ok?;
    assert ReadLegacyElements(mem, addrs, fuel).value == [first.value] + rest.value;
    if i > 0 {
      ReadLegacyElementsAt(mem, addrs[1..], fuel, i - 1);
    }
  }

  /** The offsets the host reads are the offsets of the legacy `Element`
      fields `type`, `text`, `children` and `on_click`. */
  lemma LegacyLayoutAgrees()
    ensures CLayout.IndexOf(LegacyRuntime.LEGACY_ELEMENT_FIELDS, "type") == 0
    ensures CLayout.IndexOf(LegacyRuntime.LEGACY_ELEMENT_FIELDS, "text") == 1
    ensures CLayout.IndexOf(LegacyRuntime.LEGACY_ELEMENT_FIELDS, "children") == 2
    ensures CLayout.IndexOf(LegacyRuntime.LEGACY_ELEMENT_FIELDS, "on_click") == 3
    ensures CLayout.OffsetOf(LegacyRuntime.LEGACY_ELEMENT_FIELDS, "type") == TYPE_AT
    ensures CLayout.OffsetOf(LegacyRuntime.LEGACY_ELEMENT_FIELDS, "text") == TEXT_AT
    ensures CLayout.OffsetOf(LegacyRuntime.LEGACY_ELEMENT_FIELDS, "children") == CHILDREN_AT
    ensures CLayout.OffsetOf(LegacyRuntime.LEGACY_ELEMENT_FIELDS, "on_click") == ON_CLICK_AT
  {
    var fs := LegacyRuntime.LEGACY_ELEMENT_FIELDS;
    LegacyRuntime.LegacyFieldsAreWords();
    CLayout.WordOffsetOf(fs, "type", 0);
    CLayout.WordOffsetOf(fs, "text", 1);
    CLayout.WordOffsetOf(fs, "children", 2);
    CLayout.WordOffsetOf(fs, "on_click", 3);
  }

  /** The header offsets of `readDynamicPointerArray` are those of
      `Children`'s `count` and `items`. */
  lemma ChildrenLayoutAgrees()
    ensures CLayout.IndexOf(LegacyRuntime.CHILDREN_FIELDS, "count") == 0
    ensures CLayout.IndexOf(LegacyRuntime.CHILDREN_FIELDS, "items") == 2
    ensures CLayout.OffsetOf(LegacyRuntime.CHILDREN_FIELDS, "count") == ARRAY_COUNT_AT
    ensures CLayout.OffsetOf(LegacyRuntime.CHILDREN_FIELDS, "items") == ARRAY_ITEMS_AT
  {
    var cs := LegacyRuntime.CHILDREN_FIELDS;
    LegacyRuntime.LegacyFieldsAreWords();
    CLayout.WordOffsetOf(cs, "count", 0);
    CLayout.WordOffsetOf(cs, "items", 2);
  }

  /** Memory after the words of a record are stored at `base + offs[i]`. */
  function WriteRecord(mem: Memory, base: nat, offs: seq<nat>, words: seq<u32>): (m: Memory)
    requires |offs| == |words|
    requires forall i :: 0 <= i < |offs| ==> base + offs[i] + 4 <= |mem|
    ensures |m| == |mem|
    decreases |words|
  {
    if words == [] then mem
    else WriteRecord(WriteU32(mem, base + offs[0], words[0]), base, offs[1..], words[1..])
  }

  /** Each offset is at least a word away from every other one. */
  predicate Separated(offs: seq<nat>) {
    forall i, j :: 0 <= i < j < |offs| ==> offs[i] + 4 <= offs[j] || offs[j] + 4 <= offs[i]
  }

  /** Words outside every written slot keep their value. */
  lemma {:induction false} WriteRecordOther(mem: Memory, base: nat, offs: seq<nat>, words: seq<u32>, at: nat)
    requires |offs| == |words|
    requires forall i :: 0 <= i < |offs| ==> base + offs[i] + 4 <= |mem|
    requires forall i :: 0 <= i < |offs| ==> at + 4 <= base + offs[i] || base + offs[i] + 4 <= at
    ensures ReadU32(WriteRecord(mem, base, offs, words), at) == ReadU32(mem, at)
    decreases |words|
  {
    if words != [] {
      var m1 := WriteU32(mem, base + offs[0], words[0]);
      ReadAfterOtherWrite(mem, base + offs[0], words[0], at);
      WriteRecordOther(m1, base, offs[1..], words[1..], at);
    }
  }

  /** A record written word by word at separated offsets reads back word by
      word. */
  lemma {:induction false} ReadAfterWriteRecord(mem: Memory, base: nat, offs: seq<nat>, words: seq<u32>, i: nat)
    requires |offs| == |words| && i < |offs|
    requires forall k :: 0 <= k < |offs| ==> base + offs[k] + 4 <= |mem|
    requires Separated(offs)
    ensures ReadU32(WriteRecord(mem, base, offs, words), base + offs[i]) == Ok(words[i])
    decreases |words|
  {
    var m1 := WriteU32(mem, base + offs[0], words[0]);
    if i == 0 {
      ReadAfterWrite(mem, base + offs[0], words[0]);
      WriteRecordOther(m1, base, offs[1..], words[1..], base + offs[0]);
    } else {
      ReadAfterWriteRecord(m1, base, offs[1..], words[1..], i - 1);
    }
  }

  /** The record of a legacy `Element` at `base`, with its five fields
      stored where the C compiler places them, shows the host the `type`,
      `text`, `children` and `on_click` words at the offsets it reads. */
  lemma LegacyRecordRoundTrip(mem: Memory, base: nat, words: seq<u32>)
    requires |words| == |LegacyRuntime.LEGACY_ELEMENT_FIELDS|
    requires base + CLayout.SizeOf(LegacyRuntime.LEGACY_ELEMENT_FIELDS) <= |mem|
    ensures var m := WriteRecord(mem, base, CLayout.Offsets(LegacyRuntime.LEGACY_ELEMENT_FIELDS), words);
            ReadU32(m, base + TYPE_AT) == Ok(words[0]) && ReadU32(m, base + TEXT_AT) == Ok(words[1])
            && ReadU32(m, base + CHILDREN_AT) == Ok(words[2]) && ReadU32(m, base + ON_CLICK_AT) == Ok(words[3])
  {
    var fs := LegacyRuntime.LEGACY_ELEMENT_FIELDS;
    var offs := CLayout.Offsets(fs);
    LegacyRuntime.LegacyFieldsAreWords();
    CLayout.WordLayout(fs, 0);
    assert Separated(offs);
    ReadAfterWriteRecord(mem, base, offs, words, 0);
    ReadAfterWriteRecord(mem, base, offs, words, 1);
    ReadAfterWriteRecord(mem, base, offs, words, 2);
    ReadAfterWriteRecord(mem, base, offs, words, 3);
  }
}
