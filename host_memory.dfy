/** The helpers the hosts in example/src/wasm-component.ts and
    src/wasm-component.ts share, word for word: `readString` (a NUL-terminated
    C string), `writeString` and `readDynamicPointerArray` (a `{count,
    capacity, items}` header). Strings are the bytes TextEncoder/TextDecoder
    would translate; the UTF-8 translation itself is not modelled. */
module HostMemory {
  import opened Wrappers
  import opened LinearMemory

  /** The bytes from `addr` up to, not including, the first 0 byte. Reading
      past the end of memory throws RangeError, as DataView.getUint8 does. */
  function CStringFrom(mem: Memory, addr: nat): (r: Result<seq<byte>, HostError>)
    ensures r.Ok? <==> exists k :: addr <= k < |mem| && mem[k] == 0
    ensures r.Ok? ==> addr + |r.value| < |mem| && mem[addr + |r.value|] == 0
                      && r.value == mem[addr..addr + |r.value|] && 0 !in r.value
    ensures r.Err? ==> r.error == RangeError
    decreases |mem| - addr
  {
    if addr >= |mem| then Err(RangeError)
    else if mem[addr] == 0 then Ok([])
    else
      var rest :- CStringFrom(mem, addr + 1);
      Ok([mem[addr]] + rest)
  }

  /** `readString(address)`: address 0 throws, anything else is a C string. */
  function ReadCString(mem: Memory, addr: nat): (r: Result<seq<byte>, HostError>)
    ensures addr == 0 <==> r == Err(NullPointer)
    ensures addr != 0 ==> r == CStringFrom(mem, addr)
  {
    if addr == 0 then Err(NullPointer) else CStringFrom(mem, addr)
  }

  /** `readString` as written: a loop that collects bytes until it reads a 0. */
  method ReadString(mem: Memory, addr: nat) returns (r: Result<seq<byte>, HostError>)
    ensures r == ReadCString(mem, addr)
  {
    if addr == 0 {
      return Err(NullPointer);
    }
    var bytes: seq<byte> := [];
    var i := addr;
    PrefixThenEmpty(CStringFrom(mem, addr));
    while true
      invariant i == addr + |bytes|
      invariant CStringFrom(mem, addr) == PrefixThen(bytes, CStringFrom(mem, i))
      decreases |mem| - i
    {
      if i >= |mem| {
        return Err(RangeError);
      }
      var b := mem[i];
      if b == 0 {
        assert bytes + [] == bytes;
        return Ok(bytes);
      }
      PrefixThenAssoc(bytes, b, CStringFrom(mem, i + 1));
      bytes := bytes + [b];
      i := i + 1;
    }
  }

  lemma PrefixThenEmpty(rest: Result<seq<byte>, HostError>)
    ensures PrefixThen([], rest) == rest
  {
    if rest.Ok? {
      assert [] + rest.value == rest.value;
    }
  }

  lemma PrefixThenAssoc(bytes: seq<byte>, b: byte, rest: Result<seq<byte>, HostError>)
    ensures PrefixThen(bytes, PrefixThen([b], rest)) == PrefixThen(bytes + [b], rest)
  {
    if rest.Ok? {
      assert bytes + ([b] + rest.value) == (bytes + [b]) + rest.value;
    }
  }

  /** The result of reading `prefix` and then the rest. */
  function PrefixThen(prefix: seq<byte>, rest: Result<seq<byte>, HostError>): Result<seq<byte>, HostError> {
    if rest.Ok? then Ok(prefix + rest.value) else rest
  }

  /** Memory after `writeString(value, bufferPtr)` when the bytes and the
      terminator fit: the bytes at `bufferPtr..`, a 0 after them, nothing
      else changed. */
  function WrittenString(mem: Memory, value: seq<byte>, bufferPtr: nat): (m: Memory)
    requires bufferPtr + |value| < |mem|
    ensures |m| == |mem|
    ensures m[bufferPtr..bufferPtr + |value|] == value && m[bufferPtr + |value|] == 0
    ensures forall k :: 0 <= k < |mem| && !(bufferPtr <= k <= bufferPtr + |value|) ==> m[k] == mem[k]
  {
    mem[..bufferPtr] + value + [0] + mem[bufferPtr + |value| + 1..]
  }

  /** `writeString(value, bufferPtr)`. There is no capacity check: a write past
      the end of memory throws RangeError after the bytes before it are stored. */
  method WriteString(mem: array<byte>, value: seq<byte>, bufferPtr: nat) returns (r: Result<nat, HostError>)
    modifies mem
    ensures r.Ok? <==> bufferPtr + |value| < mem.Length
    ensures r.Ok? ==> r.value == bufferPtr && mem[..] == WrittenString(old(mem[..]), value, bufferPtr)
    ensures r.Err? ==> r.error == RangeError
    ensures r.Err? ==> forall k :: 0 <= k < mem.Length ==>
              mem[k] == (if bufferPtr <= k then value[k - bufferPtr] else old(mem[k]))
  {
    var i := 0;
    while i < |value|
      invariant 0 <= i <= |value|
      invariant forall k :: 0 <= k < mem.Length ==>
                  mem[k] == (if bufferPtr <= k < bufferPtr + i then value[k - bufferPtr] else old(mem[k]))
    {
      if bufferPtr + i >= mem.Length {
        return Err(RangeError);
      }
      mem[bufferPtr + i] := value[i];
      i := i + 1;
    }
    if bufferPtr + |value| >= mem.Length {
      return Err(RangeError);
    }
    mem[bufferPtr + |value|] := 0;
    assert mem[..] == WrittenString(old(mem[..]), value, bufferPtr);
    return Ok(bufferPtr);
  }

  /** A run of non-zero bytes followed by a 0 reads back as exactly that run. */
  lemma {:induction false} CStringFromRun(mem: Memory, addr: nat, n: nat)
    requires addr + n < |mem| && mem[addr + n] == 0
    requires 0 !in mem[addr..addr + n]
    ensures CStringFrom(mem, addr) == Ok(mem[addr..addr + n])
    decreases n
  {
    if n > 0 {
      assert mem[addr] == mem[addr..addr + n][0];
      assert mem[addr + 1..addr + n] == mem[addr..addr + n][1..];
      CStringFromRun(mem, addr + 1, n - 1);
      assert mem[addr..addr + n] == [mem[addr]] + mem[addr + 1..addr + n];
    }
  }

  /** `readString(writeString(s, p)) == s` for a NUL-free `s` and a non-null
      `p` with room for `s` and its terminator. */
  lemma WriteThenRead(mem: Memory, value: seq<byte>, bufferPtr: nat)
    requires bufferPtr != 0 && bufferPtr + |value| < |mem|
    requires 0 !in value
    ensures ReadCString(WrittenString(mem, value, bufferPtr), bufferPtr) == Ok(value)
  {
    CStringFromRun(WrittenString(mem, value, bufferPtr), bufferPtr, |value|);
  }

  /** The word `i` steps of `stride` bytes after `base`. */
  function WordAt(mem: Memory, base: nat, stride: nat, i: nat): Result<u32, HostError> {
    ReadU32(mem, base + i * stride)
  }

  /** `n` little-endian words at `base`, `base + stride`, ... */
  function ReadWords(mem: Memory, base: nat, stride: nat, n: nat): (r: Result<seq<u32>, HostError>)
    ensures r.Ok? <==> n == 0 || base + (n - 1) * stride + 4 <= |mem|
    ensures r.Ok? ==> |r.value| == n
    ensures r.Ok? ==> forall i :: 0 <= i < n ==> WordAt(mem, base, stride, i) == Ok(r.value[i])
  {
    if n == 0 then Ok([])
    else
      var init := ReadWords(mem, base, stride, n - 1);
      var last := ReadU32(mem, base + (n - 1) * stride);
      assert n - 1 > 0 ==> (n - 2) * stride <= (n - 1) * stride by {
        if n - 1 > 0 {
          assert (n - 1) * stride == (n - 2) * stride + stride;
        }
      }
      if init.Err? then init
      else if last.Err? then Err(last.error)
      else Ok(init.value + [last.value])
  }

  /** Where a `{count, capacity, items}` header keeps its count and its
      items pointer. */
  const ARRAY_COUNT_AT: nat := 0
  const ARRAY_ITEMS_AT: nat := 8

  /** `readDynamicPointerArray(address)`: the count at `address`, the items
      pointer at `address + 8` (the capacity at `address + 4` is skipped), and
      `count` words from the items pointer. A Uint32Array view throws
      RangeError when the pointer is not 4-aligned or the words run past the
      end of memory. */
  function ReadPointerArray(mem: Memory, addr: nat): (r: Result<seq<u32>, HostError>)
    ensures r.Ok? <==>
      ReadU32(mem, addr + ARRAY_COUNT_AT).Ok? && ReadU32(mem, addr + ARRAY_ITEMS_AT).Ok?
      && ReadU32(mem, addr + ARRAY_ITEMS_AT).value % 4 == 0
      && ReadU32(mem, addr + ARRAY_ITEMS_AT).value + 4 * ReadU32(mem, addr + ARRAY_COUNT_AT).value <= |mem|
    ensures r.Ok? ==> |r.value| == ReadU32(mem, addr + ARRAY_COUNT_AT).value
    ensures r.Ok? ==> forall i :: 0 <= i < |r.value| ==> WordAt(mem, ReadU32(mem, addr + ARRAY_ITEMS_AT).value, 4, i) == Ok(r.value[i])
  {
    var count :- ReadU32(mem, addr + ARRAY_COUNT_AT);
    var itemsPtr :- ReadU32(mem, addr + ARRAY_ITEMS_AT);
    if itemsPtr % 4 != 0 || itemsPtr + 4 * count > |mem| then Err(RangeError)
    else ReadWords(mem, itemsPtr, 4, count)
  }

  /** A string field that is decoded only when its pointer is non-zero. */
  function ReadOptionalString(mem: Memory, ptr: u32): (r: Result<Option<seq<byte>>, HostError>)
    ensures r.Ok? ==> (r.value.None? <==> ptr == 0)
    ensures ptr != 0 ==> (r.Ok? <==> ReadCString(mem, ptr).Ok?)
    ensures r.Ok? && ptr != 0 ==> ReadCString(mem, ptr) == Ok(r.value.value)
  {
    if ptr == 0 then Ok(None)
    else
      var s :- ReadCString(mem, ptr);
      Ok(Some(s))
  }
}
