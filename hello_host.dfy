/** src/hello-wasm-component.ts: the smallest host. An element is two
    pointers, a tag string at +0 and a text string at +4, and a string is a
    `{length, data}` pair: a length word at +0 and a data pointer at +4,
    followed by exactly `length` bytes at the data pointer. There is no NUL
    scan and no null-pointer check. */
module HelloHost {
  import opened Wrappers
  import opened LinearMemory

  const LENGTH_AT: nat := 0
  const DATA_AT: nat := 4
  const TAG_AT: nat := 0
  const TEXT_AT: nat := 4

  datatype HelloResult = HelloResult(tag: seq<byte>, text: seq<byte>)

  /** `readString(address)`: a Uint8Array view of `length` bytes at the data
      pointer, which throws RangeError when it would run past the end of
      memory. Every byte is kept, zeros included. */
  function ReadSizedString(mem: Memory, addr: nat): (r: Result<seq<byte>, HostError>)
    ensures r.Ok? <==>
              ReadU32(mem, addr + LENGTH_AT).Ok? && ReadU32(mem, addr + DATA_AT).Ok?
              && ReadU32(mem, addr + DATA_AT).value + ReadU32(mem, addr + LENGTH_AT).value <= |mem|
    ensures r.Ok? ==>
              var length := ReadU32(mem, addr + LENGTH_AT).value;
              var data := ReadU32(mem, addr + DATA_AT).value;
              |r.value| == length && r.value == mem[data..data + length]
  {
    var length :- ReadU32(mem, addr + LENGTH_AT);
    var data :- ReadU32(mem, addr + DATA_AT);
    if data + length > |mem| then Err(RangeError) else Ok(mem[data..data + length])
  }

  /** `readElement(address)`: both pointers are read and both strings are
      decoded, whether or not a pointer is 0. */
  function ReadHelloElement(mem: Memory, address: nat): (r: Result<HelloResult, HostError>)
    ensures r.Ok? <==>
              ReadU32(mem, address + TAG_AT).Ok? && ReadU32(mem, address + TEXT_AT).Ok?
              && ReadSizedString(mem, ReadU32(mem, address + TAG_AT).value).Ok?
              && ReadSizedString(mem, ReadU32(mem, address + TEXT_AT).value).Ok?
    ensures r.Ok? ==>
              Ok(r.value.tag) == ReadSizedString(mem, ReadU32(mem, address + TAG_AT).value)
              && Ok(r.value.text) == ReadSizedString(mem, ReadU32(mem, address + TEXT_AT).value)
  {
    var tagPtr :- ReadU32(mem, address + TAG_AT);
    var tag :- ReadSizedString(mem, tagPtr);
    var textPtr :- ReadU32(mem, address + TEXT_AT);
    var text :- ReadSizedString(mem, textPtr);
    Ok(HelloResult(tag, text))
  }

  /** Memory holding `value` as a `{length, data}` pair at `addr` whose bytes
      are at `dataPtr`. */
  function WriteSizedString(mem: Memory, addr: nat, dataPtr: u32, value: seq<byte>): (m: Memory)
    requires |value| < WORD_MODULUS
    requires addr + 8 <= |mem| && dataPtr + |value| <= |mem|
    requires dataPtr + |value| <= addr || addr + 8 <= dataPtr
    ensures |m| == |mem|
  {
    var m1 := WriteU32(mem, addr + LENGTH_AT, |value|);
    var m2 := WriteU32(m1, addr + DATA_AT, dataPtr);
    m2[..dataPtr] + value + m2[dataPtr + |value|..]
  }

  /** A `{length, data}` pair reads back as the bytes it describes, whatever
      they are. */
  lemma SizedStringRoundTrip(mem: Memory, addr: nat, dataPtr: u32, value: seq<byte>)
    requires |value| < WORD_MODULUS
    requires addr + 8 <= |mem| && dataPtr + |value| <= |mem|
    requires dataPtr + |value| <= addr || addr + 8 <= dataPtr
    ensures ReadSizedString(WriteSizedString(mem, addr, dataPtr, value), addr) == Ok(value)
  {
    var m1 := WriteU32(mem, addr + LENGTH_AT, |value|);
    var m2 := WriteU32(m1, addr + DATA_AT, dataPtr);
    var m := WriteSizedString(mem, addr, dataPtr, value);
    assert m == m2[..dataPtr] + value + m2[dataPtr + |value|..];
    ReadAfterWrite(mem, addr + LENGTH_AT, |value|);
    ReadAfterOtherWrite(m1, addr + DATA_AT, dataPtr, addr + LENGTH_AT);
    ReadAfterWrite(m1, addr + DATA_AT, dataPtr);
    forall k | addr <= k < addr + 8
      ensures m[k] == m2[k]
    {
      SpliceOutside(m2, dataPtr, value, k);
    }
    ReadU32Frame(m, m2, addr + LENGTH_AT);
    ReadU32Frame(m, m2, addr + DATA_AT);
    assert ReadU32(m, addr + LENGTH_AT) == Ok(|value|);
    assert ReadU32(m, addr + DATA_AT) == Ok(dataPtr);
    SpliceInside(m2, dataPtr, value);
  }

  /** Splicing `v` in at `p` leaves every byte outside `p..p+|v|` alone. */
  lemma SpliceOutside(a: Memory, p: nat, v: seq<byte>, k: nat)
    requires p + |v| <= |a| && k < |a| && !(p <= k < p + |v|)
    ensures (a[..p] + v + a[p + |v|..])[k] == a[k]
  {
    if k >= p + |v| {
      assert (a[..p] + v + a[p + |v|..])[k] == a[p + |v|..][k - p - |v|];
    }
  }

  /** Splicing `v` in at `p` puts exactly `v` at `p..p+|v|`. */
  lemma SpliceInside(a: Memory, p: nat, v: seq<byte>)
    requires p + |v| <= |a|
    ensures (a[..p] + v + a[p + |v|..])[p..p + |v|] == v
  {
    assert |a[..p]| == p;
  }

  /** A string with an embedded zero keeps it: a length of 2 at address 0,
      data at 8, bytes 'A' and 0. */
  lemma EmbeddedZeroKept()
    ensures ReadSizedString([2, 0, 0, 0, 8, 0, 0, 0, 65, 0], 0) == Ok([65, 0])
  {
    var mem: Memory := [2, 0, 0, 0, 8, 0, 0, 0, 65, 0];
    assert Le32(mem[0], mem[1], mem[2], mem[3]) == 2;
    assert Le32(mem[4], mem[5], mem[6], mem[7]) == 8;
    assert ReadU32(mem, 0) == Ok(2) && ReadU32(mem, 4) == Ok(8);
    assert mem[8..10] == [65, 0];
  }
}
