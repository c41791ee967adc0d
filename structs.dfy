/** src/structs.ts: a size calculator and a reader for packed C structures
    and unions described by schemas. No alignment padding is inserted: a
    struct's size is the sum of its members' sizes and a union's is their
    maximum. Both loops are modelled as left folds over the members: the
    accumulator after `n` members is what the loop holds after `n` iterations. */
module Structs {
  import opened Wrappers
  import opened LinearMemory

  datatype PrimKind = Float | Uint32 | Uint16 | Uint8 | Bool

  /** A `CPrimitiveTypeDefinition` or a `CStructDefinition` (struct or union). */
  datatype Def = Prim(kind: PrimKind) | Composite(isUnion: bool, members: seq<Member>)

  /** A `MemberDefinition`: a named definition. */
  datatype Member = Member(name: string, def: Def)

  /** Member names that a plain JavaScript object does not store as
      ordinary keys: `__size` is the reader's own size entry, and an
      assignment to `__proto__` goes to the prototype setter. */
  const SIZE_KEY: string := "__size"
  const PROTO_NAME: string := "__proto__"

  /** No member at any depth has a name the reader's result object
      cannot hold as an ordinary key. */
  predicate PlainNames(d: Def)
    decreases d
  {
    d.Composite? ==>
      forall k :: 0 <= k < |d.members| ==>
        d.members[k].name != SIZE_KEY && d.members[k].name != PROTO_NAME
        && PlainNames(d.members[k].def)
  }

  /** The value of a primitive. A float keeps its raw 32-bit pattern: its
      conversion to a number is not modelled. */
  datatype PrimValue = FloatBits(bits: u32) | UInt(n: nat) | BoolValue(b: bool)

  /** A read result with its `__size`. */
  datatype Value =
    | PrimVal(v: PrimValue, size: nat)
    | StructVal(size: nat, fields: map<string, Value>)

  /** The loop state of `readStructValueAtAddress`: `struct.__size`, the
      running `address`, and the members read so far. */
  datatype Acc = Acc(size: nat, addr: nat, fields: map<string, Value>)

  function Max(a: nat, b: nat): nat {
    if a >= b then a else b
  }

  /** The primitive cases of `getStructTotalSize`. */
  function PrimSize(k: PrimKind): nat {
    match k
    case Float => 4
    case Uint32 => 4
    case Uint16 => 2
    case Uint8 => 1
    case Bool => 1
  }

  /** `getStructTotalSize(definition)`. */
  function TotalSize(d: Def): nat
    decreases d, 1, 0
  {
    match d
    case Prim(k) => PrimSize(k)
    case Composite(_, ms) => MembersSize(d, |ms|)
  }

  /** `totalSize` after the first `n` members. */
  function MembersSize(d: Def, n: nat): nat
    requires d.Composite? && n <= |d.members|
    decreases d, 0, n
  {
    if n == 0 then 0
    else
      var prev := MembersSize(d, n - 1);
      var s := TotalSize(d.members[n - 1].def);
      if d.isUnion then Max(prev, s) else prev + s
  }

  /** DataView.getUint16(addr, true). */
  function ReadU16(mem: Memory, addr: nat): (r: Result<nat, HostError>)
    ensures r.Ok? <==> addr + 2 <= |mem|
  {
    if addr + 2 <= |mem| then Ok(mem[addr] as int + 256 * mem[addr + 1] as int) else Err(RangeError)
  }

  /** `readPrimitiveValueAtAddress(address, definition)`. */
  function ReadPrimitive(mem: Memory, addr: nat, k: PrimKind): (r: Result<Value, HostError>)
    ensures r.Ok? <==> addr + PrimSize(k) <= |mem|
    ensures r.Ok? ==> r.value.PrimVal? && r.value.size == PrimSize(k)
    ensures r.Ok? && k == Bool ==> r.value.v == BoolValue(mem[addr] != 0)
    ensures r.Ok? && k == Uint32 ==> r.value.v == UInt(Le32(mem[addr], mem[addr + 1], mem[addr + 2], mem[addr + 3]))
    ensures r.Ok? && k == Uint16 ==> r.value.v == UInt(mem[addr] as int + 256 * mem[addr + 1] as int)
    ensures r.Ok? && k == Uint8 ==> r.value.v == UInt(mem[addr])
  {
    match k
    case Float =>
      var bits :- ReadU32(mem, addr);
      Ok(PrimVal(FloatBits(bits), 4))
    case Uint32 =>
      var n :- ReadU32(mem, addr);
      Ok(PrimVal(UInt(n), 4))
    case Uint16 =>
      var n :- ReadU16(mem, addr);
      Ok(PrimVal(UInt(n), 2))
    case Uint8 =>
      var n :- ReadU8(mem, addr);
      Ok(PrimVal(UInt(n), 1))
    case Bool =>
      var n :- ReadU8(mem, addr);
      Ok(PrimVal(BoolValue(n != 0), 1))
  }

  /** A member is read as a structure when it is one, else as a primitive. */
  function ReadValue(mem: Memory, addr: nat, d: Def): Result<Value, HostError>
    decreases d, 1, 0
  {
    match d
    case Prim(k) => ReadPrimitive(mem, addr, k)
    case Composite(_, ms) =>
      var acc :- ReadMembers(mem, addr, d, |ms|);
      Ok(StructVal(acc.size, acc.fields))
  }

  /** `readStructValueAtAddress(address, definition)`. */
  function ReadStruct(mem: Memory, addr: nat, d: Def): Result<Value, HostError>
    requires d.Composite?
  {
    ReadValue(mem, addr, d)
  }

  /** The loop state of `readStructValueAtAddress` after `n` members: each
      member is read at the running address, which a struct advances by the
      member's `__size` and a union leaves at the base; the member's result is
      stored under its name, replacing any earlier member of that name. */
  function ReadMembers(mem: Memory, base: nat, d: Def, n: nat): Result<Acc, HostError>
    requires d.Composite? && n <= |d.members|
    decreases d, 0, n
  {
    if n == 0 then Ok(Acc(0, base, map[]))
    else
      var acc :- ReadMembers(mem, base, d, n - 1);
      var m := d.members[n - 1];
      var r :- ReadValue(mem, acc.addr, m.def);
      if d.isUnion then Ok(Acc(Max(acc.size, r.size), acc.addr, acc.fields[m.name := r]))
      else Ok(Acc(acc.size + r.size, acc.addr + r.size, acc.fields[m.name := r]))
  }

  /** Where member `k` is read: a struct's members follow each other with no
      padding, a union's all start at the base. */
  function MemberAddress(base: nat, d: Def, k: nat): nat
    requires d.Composite? && k <= |d.members|
  {
    if d.isUnion then base else base + MembersSize(d, k)
  }

  /** The `__size` a read reports is `getStructTotalSize` of its definition. */
  lemma {:induction false} ReadValueSize(mem: Memory, addr: nat, d: Def)
    ensures ReadValue(mem, addr, d).Ok? ==> ReadValue(mem, addr, d).value.size == TotalSize(d)
    decreases d, 1, 0
  {
    if d.Composite? {
      ReadMembersSize(mem, addr, d, |d.members|);
    }
  }

  /** After `n` members the loop's size is the size of those members and its
      address has moved past them (a struct) or stayed at the base (a union). */
  lemma {:induction false} ReadMembersSize(mem: Memory, base: nat, d: Def, n: nat)
    requires d.Composite? && n <= |d.members|
    ensures ReadMembers(mem, base, d, n).Ok? ==>
              ReadMembers(mem, base, d, n).value.size == MembersSize(d, n)
              && ReadMembers(mem, base, d, n).value.addr == MemberAddress(base, d, n)
    decreases d, 0, n
  {
    if n > 0 {
      ReadMembersSize(mem, base, d, n - 1);
      var pre := ReadMembers(mem, base, d, n - 1);
      if pre.Ok? {
        ReadValueSize(mem, pre.value.addr, d.members[n - 1].def);
      }
    }
  }

  /** For every structure definition, the `__size` of a successful read is
      `getStructTotalSize` of that definition. */
  lemma ReadStructSize(mem: Memory, addr: nat, d: Def)
    requires d.Composite?
    ensures ReadStruct(mem, addr, d).Ok? ==> ReadStruct(mem, addr, d).value.size == TotalSize(d)
  {
    ReadValueSize(mem, addr, d);
  }

  /** The first `n` members never take more room than all of them. */
  lemma {:induction false} MembersSizeMonotone(d: Def, n: nat, n': nat)
    requires d.Composite? && n <= n' <= |d.members|
    ensures MembersSize(d, n) <= MembersSize(d, n')
    decreases n' - n
  {
    if n < n' {
      MembersSizeMonotone(d, n, n' - 1);
    }
  }

  /** Each member of a union fits in the union, and each member of a struct
      ends within the struct. */
  lemma MemberFits(d: Def, k: nat)
    requires d.Composite? && k < |d.members|
    ensures MembersSize(d, k) + TotalSize(d.members[k].def) <= TotalSize(d) || d.isUnion
    ensures TotalSize(d.members[k].def) <= TotalSize(d)
  {
    MembersSizeMonotone(d, k + 1, |d.members|);
  }

  /** Reading never fails when the whole definition lies inside memory. */
  lemma {:induction false} ReadValueTotal(mem: Memory, addr: nat, d: Def)
    requires addr + TotalSize(d) <= |mem|
    ensures ReadValue(mem, addr, d).Ok?
    decreases d, 1, 0
  {
    if d.Composite? {
      ReadMembersTotal(mem, addr, d, |d.members|);
    }
  }

  lemma {:induction false} ReadMembersTotal(mem: Memory, base: nat, d: Def, n: nat)
    requires d.Composite? && n <= |d.members|
    requires base + TotalSize(d) <= |mem|
    ensures ReadMembers(mem, base, d, n).Ok?
    decreases d, 0, n
  {
    if n > 0 {
      ReadMembersTotal(mem, base, d, n - 1);
      ReadMembersSize(mem, base, d, n - 1);
      MemberFits(d, n - 1);
      ReadValueTotal(mem, MemberAddress(base, d, n - 1), d.members[n - 1].def);
    }
  }

  /** The names of the first `n` members. */
  function Names(d: Def, n: nat): set<string>
    requires d.Composite? && n <= |d.members|
  {
    set k | 0 <= k < n :: d.members[k].name
  }

  /** No member in `k+1..n-1` reuses member `k`'s name. */
  predicate LastOfName(d: Def, k: nat, n: nat)
    requires d.Composite? && k < n <= |d.members|
  {
    forall j :: k < j < n ==> d.members[j].name != d.members[k].name
  }

  /** The loop's result holds one entry per member name, and a name's entry is
      the value of the last member with that name, read at that member's
      address. */
  lemma {:induction false} ReadMembersFields(mem: Memory, base: nat, d: Def, n: nat, k: nat)
    requires d.Composite? && k < n <= |d.members|
    requires ReadMembers(mem, base, d, n).Ok?
    requires LastOfName(d, k, n)
    ensures ReadMembers(mem, base, d, n).value.fields.Keys == Names(d, n)
    ensures ReadValue(mem, MemberAddress(base, d, k), d.members[k].def).Ok?
    ensures ReadMembers(mem, base, d, n).value.fields[d.members[k].name]
            == ReadValue(mem, MemberAddress(base, d, k), d.members[k].def).value
    decreases n
  {
    var pre := ReadMembers(mem, base, d, n - 1);
    assert pre.Ok?;
    ReadMembersSize(mem, base, d, n - 1);
    ReadMembersKeys(mem, base, d, n);
    if k < n - 1 {
      ReadMembersFields(mem, base, d, n - 1, k);
    }
  }

  lemma {:induction false} ReadMembersKeys(mem: Memory, base: nat, d: Def, n: nat)
    requires d.Composite? && n <= |d.members|
    requires ReadMembers(mem, base, d, n).Ok?
    ensures ReadMembers(mem, base, d, n).value.fields.Keys == Names(d, n)
    decreases n
  {
    if n > 0 {
      ReadMembersKeys(mem, base, d, n - 1);
      assert Names(d, n) == Names(d, n - 1) + {d.members[n - 1].name};
    } else {
      assert Names(d, 0) == {};
    }
  }
}
