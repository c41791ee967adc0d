/** The host's view of WebAssembly linear memory: a sequence of bytes read
    through a DataView. Multi-byte words are little-endian, as every read in
    the host decoders passes `littleEndian = true`. */
module LinearMemory {
  import opened Wrappers

  type byte = x: int | 0 <= x < 256

  type Memory = seq<byte>

  /** What a host decoder can throw. */
  datatype HostError =
    | RangeError                   // DataView or typed-array access out of bounds
    | NullPointer                  // readString(0)
    | UnknownElementType(tag: nat) // readElement on a discriminant outside 0..3
    | OutOfFuel                    // recursion deeper than the model follows
    | Detached                     // assertAndGet on a component with no instance

  const WORD_MODULUS: nat := 0x1_0000_0000

  type u32 = x: nat | x < WORD_MODULUS

  function ReadU8(mem: Memory, addr: nat): (r: Result<byte, HostError>)
    ensures r.Ok? <==> addr < |mem|
  {
    if addr < |mem| then Ok(mem[addr]) else Err(RangeError)
  }

  /** Little-endian value of four bytes. */
  function Le32(b0: byte, b1: byte, b2: byte, b3: byte): u32 {
    b0 + 256 * (b1 + 256 * (b2 + 256 * b3))
  }

  /** DataView.getUint32(addr, true). */
  function ReadU32(mem: Memory, addr: nat): (r: Result<u32, HostError>)
    ensures r.Ok? <==> addr + 4 <= |mem|
  {
    if addr + 4 <= |mem| then Ok(Le32(mem[addr], mem[addr + 1], mem[addr + 2], mem[addr + 3]))
    else Err(RangeError)
  }

  /** The four little-endian bytes of a word. */
  function EncodeU32(v: u32): (b: seq<byte>)
    ensures |b| == 4
  {
    [v % 256, (v / 256) % 256, (v / 65536) % 256, v / 16777216]
  }

  /** Memory after DataView.setUint32(addr, v, true). */
  function WriteU32(mem: Memory, addr: nat, v: u32): (m: Memory)
    requires addr + 4 <= |mem|
    ensures |m| == |mem|
    ensures forall i :: 0 <= i < |mem| && !(addr <= i < addr + 4) ==> m[i] == mem[i]
  {
    mem[..addr] + EncodeU32(v) + mem[addr + 4..]
  }

  lemma DecodeEncode(v: u32)
    ensures var b := EncodeU32(v); Le32(b[0], b[1], b[2], b[3]) == v
  {
    var q1 := v / 256;
    var q2 := q1 / 256;
    assert v / 65536 == q2;
    assert v / 16777216 == q2 / 256;
  }

  /** A word written is the word read back at the same address. */
  lemma ReadAfterWrite(mem: Memory, addr: nat, v: u32)
    requires addr + 4 <= |mem|
    ensures ReadU32(WriteU32(mem, addr, v), addr) == Ok(v)
  {
    var m := WriteU32(mem, addr, v);
    var b := EncodeU32(v);
    assert m[addr] == b[0] && m[addr + 1] == b[1] && m[addr + 2] == b[2] && m[addr + 3] == b[3];
    DecodeEncode(v);
  }

  /** Writing a word leaves every word that does not overlap it unchanged. */
  lemma ReadAfterOtherWrite(mem: Memory, addr: nat, v: u32, other: nat)
    requires addr + 4 <= |mem|
    requires other + 4 <= addr || addr + 4 <= other
    ensures ReadU32(WriteU32(mem, addr, v), other) == ReadU32(mem, other)
  {
  }

  /** A word read depends only on its four bytes (and on the memory being
      large enough to hold them). */
  lemma ReadU32Frame(a: Memory, b: Memory, addr: nat)
    requires |a| == |b|
    requires forall k :: addr <= k < addr + 4 && k < |a| ==> a[k] == b[k]
    ensures ReadU32(a, addr) == ReadU32(b, addr)
  {
  }
}
