/** wasm/low_budget_memory.c: a bump `malloc` over a static 8 MB pool with no
    `free`, plus the byte loops `memcpy` and `memset`. Addresses are offsets
    into the pool; `size_t` is 32 bits wide on wasm32. */
module LowBudgetMemory {
  import opened Wrappers
  import opened LinearMemory

  const MEMORY_POOL_SIZE: nat := 8 * 1024 * 1024

  /** 2^32: `size_t` arithmetic on wasm32 is modulo this. */
  const SIZE_T_MODULUS: nat := 0x1_0000_0000

  type size_t = x: nat | x < SIZE_T_MODULUS

  /** One call of `malloc` exactly as written: the bound test and the cursor
      update are done in wrapping `size_t` arithmetic. Returns the pointer
      (None for NULL) and the new `memory_offset`. */
  function MallocAsWritten(offset: size_t, size: size_t): (r: (Option<nat>, size_t))
    ensures r.0.None? <==> (offset + size) % SIZE_T_MODULUS > MEMORY_POOL_SIZE
    ensures r.0.None? ==> r.1 == offset
    ensures r.0.Some? ==> r.0.value == offset && r.1 == (offset + size) % SIZE_T_MODULUS
  {
    var sum := (offset + size) % SIZE_T_MODULUS;
    if sum > MEMORY_POOL_SIZE then (None, offset) else (Some(offset), sum)
  }

  /** A size close to 2^32 wraps the sum, passes the test, hands out a block
      that runs past the end of the pool, and moves `memory_offset` backwards
      so that the next allocation overlaps memory already handed out. */
  lemma MallocWrapAround()
    ensures MallocAsWritten(16, SIZE_T_MODULUS - 8) == (Some(16), 8)
    ensures 16 + (SIZE_T_MODULUS - 8) > MEMORY_POOL_SIZE
    ensures MallocAsWritten(8, 16) == (Some(8), 24)
  {
    assert (16 + (SIZE_T_MODULUS - 8)) % SIZE_T_MODULUS == 8;
  }

  /** The allocation step the bound test evidently intends: refuse any size
      that does not fit in what is left of the pool. Returns the block's start
      (None for NULL) and the new offset. */
  function MallocStep(offset: nat, size: nat): (r: (Option<nat>, nat))
    requires offset <= MEMORY_POOL_SIZE
    ensures r.0.None? <==> offset + size > MEMORY_POOL_SIZE
    ensures r.0.None? ==> r.1 == offset
    ensures r.0.Some? ==> r.0.value == offset && r.1 == offset + size
    ensures r.1 <= MEMORY_POOL_SIZE
  {
    if size > MEMORY_POOL_SIZE - offset then (None, offset) else (Some(offset), offset + size)
  }

  /** Where the fixed test and the written one agree: whenever the true sum
      does not exceed 2^32 the written code behaves as intended. */
  lemma MallocAgreesWithoutWrap(offset: size_t, size: size_t)
    requires offset <= MEMORY_POOL_SIZE
    requires offset + size < SIZE_T_MODULUS
    ensures MallocAsWritten(offset, size) == MallocStep(offset, size)
  {
  }

  /** Successive successful allocations are contiguous and disjoint, and the
      offset never decreases. */
  lemma {:induction false} AllocationsContiguous(offset: nat, s1: nat, s2: nat)
    requires offset <= MEMORY_POOL_SIZE
    requires MallocStep(offset, s1).0.Some?
    requires MallocStep(MallocStep(offset, s1).1, s2).0.Some?
    ensures var p1 := MallocStep(offset, s1).0.value;
            var p2 := MallocStep(MallocStep(offset, s1).1, s2).0.value;
            p2 == p1 + s1 && p2 + s2 <= MEMORY_POOL_SIZE && p1 + s1 <= p2
  {
  }

  /** The sizes handed out by a run of allocations from `offset`, with the final offset. */
  function MallocRun(offset: nat, sizes: seq<nat>): (r: (seq<Option<nat>>, nat))
    requires offset <= MEMORY_POOL_SIZE
    ensures |r.0| == |sizes|
    ensures offset <= r.1 <= MEMORY_POOL_SIZE
    decreases |sizes|
  {
    if sizes == [] then ([], offset)
    else
      var (p, next) := MallocStep(offset, sizes[0]);
      var (rest, last) := MallocRun(next, sizes[1..]);
      ([p] + rest, last)
  }

  /** Every block of a run of allocations lies inside the pool, after the
      starting offset and before the final offset, and no two blocks overlap. */
  lemma {:induction false} MallocRunDisjoint(offset: nat, sizes: seq<nat>, i: nat, j: nat)
    requires offset <= MEMORY_POOL_SIZE
    requires i < j < |sizes|
    requires MallocRun(offset, sizes).0[i].Some? && MallocRun(offset, sizes).0[j].Some?
    ensures var ps := MallocRun(offset, sizes).0;
            offset <= ps[i].value && ps[i].value + sizes[i] <= ps[j].value
            && ps[j].value + sizes[j] <= MallocRun(offset, sizes).1
    decreases |sizes|
  {
    var (p, next) := MallocStep(offset, sizes[0]);
    if i == 0 {
      MallocRunBounds(next, sizes[1..], j - 1);
    } else {
      MallocRunDisjoint(next, sizes[1..], i - 1, j - 1);
    }
  }

  /** Every successful block of a run lies between the start and the final offset. */
  lemma {:induction false} MallocRunBounds(offset: nat, sizes: seq<nat>, k: nat)
    requires offset <= MEMORY_POOL_SIZE
    requires k < |sizes|
    requires MallocRun(offset, sizes).0[k].Some?
    ensures var ps := MallocRun(offset, sizes).0;
            offset <= ps[k].value && ps[k].value + sizes[k] <= MallocRun(offset, sizes).1
    decreases |sizes|
  {
    var (p, next) := MallocStep(offset, sizes[0]);
    if k > 0 {
      MallocRunBounds(next, sizes[1..], k - 1);
    }
  }

  /** The allocator's static state: `memory_offset`. */
  class Pool {
    var memoryOffset: nat

    ghost predicate Valid()
      reads this
    {
      memoryOffset <= MEMORY_POOL_SIZE
    }

    constructor ()
      ensures Valid() && memoryOffset == 0
    {
      memoryOffset := 0;
    }

    /** `malloc(size)` with the bound test done without wrap-around. */
    method Malloc(size: size_t) returns (ptr: Option<nat>)
      requires Valid()
      modifies this
      ensures Valid()
      ensures (ptr, memoryOffset) == MallocStep(old(memoryOffset), size)
      ensures memoryOffset >= old(memoryOffset)
    {
      if size > MEMORY_POOL_SIZE - memoryOffset {
        return None;
      }
      ptr := Some(memoryOffset);
      memoryOffset := memoryOffset + size;
    }
  }

  /** `memcpy(dest, src, n)` over linear memory. Overlapping regions are
      undefined behaviour for memcpy (ISO/IEC 9899:2011 section 7.24.2.1), so
      the regions are required to be disjoint. */
  method Memcpy(mem: array<byte>, dest: nat, src: nat, n: nat) returns (r: nat)
    requires dest + n <= mem.Length && src + n <= mem.Length
    requires dest + n <= src || src + n <= dest
    modifies mem
    ensures r == dest
    ensures mem[..] == old(mem[..dest]) + old(mem[src..src + n]) + old(mem[dest + n..])
  {
    var i := 0;
    while i < n
      invariant 0 <= i <= n
      invariant forall k :: dest <= k < dest + i ==> mem[k] == old(mem[src + (k - dest)])
      invariant forall k :: 0 <= k < mem.Length && !(dest <= k < dest + i) ==> mem[k] == old(mem[k])
    {
      mem[dest + i] := mem[src + i];
      i := i + 1;
    }
    r := dest;
    ghost var expected := old(mem[..dest]) + old(mem[src..src + n]) + old(mem[dest + n..]);
    assert |expected| == mem.Length;
    forall k | 0 <= k < mem.Length
      ensures mem[k] == expected[k]
    {
      if k < dest {
      } else if k < dest + n {
        assert expected[k] == old(mem[src + (k - dest)]);
      } else {
        assert expected[k] == old(mem[k]);
      }
    }
    assert mem[..] == expected;
  }

  /** `memset(s, c, n)`: the low byte of `c`, converted to `unsigned char`
      (reduction modulo 256, ISO/IEC 9899:2011 section 6.3.1.3). */
  method Memset(mem: array<byte>, s: nat, c: int, n: nat) returns (r: nat)
    requires s + n <= mem.Length
    modifies mem
    ensures r == s
    ensures forall k :: s <= k < s + n ==> mem[k] == c % 256
    ensures forall k :: 0 <= k < mem.Length && !(s <= k < s + n) ==> mem[k] == old(mem[k])
  {
    var i := 0;
    while i < n
      invariant 0 <= i <= n
      invariant forall k :: s <= k < s + i ==> mem[k] == c % 256
      invariant forall k :: 0 <= k < mem.Length && !(s <= k < s + i) ==> mem[k] == old(mem[k])
    {
      mem[s + i] := c % 256;
      i := i + 1;
    }
    r := s;
  }
}
