/** Byte layout of the runtime's C structures on wasm32 (ISO/IEC 9899:2011
    section 6.7.2.1): members are placed in declaration order at increasing
    addresses. Every member of the structures modelled here is a pointer, a
    function pointer or a `size_t`, which on wasm32 are all 4 bytes wide and
    4-aligned, so no padding is ever inserted and each offset is the sum of the
    sizes of the members declared before it. */
module CLayout {

  datatype Field = Field(name: string, size: nat)

  /** Pointers, function pointers and `size_t` on wasm32. */
  function Word(name: string): Field {
    Field(name, 4)
  }

  /** Offsets of the members when the previous member ends at `start`. */
  function OffsetsFrom(fields: seq<Field>, start: nat): (offs: seq<nat>)
    ensures |offs| == |fields|
    decreases |fields|
  {
    if fields == [] then []
    else [start] + OffsetsFrom(fields[1..], start + fields[0].size)
  }

  /** Total size of the members. */
  function SizeOf(fields: seq<Field>): nat
    decreases |fields|
  {
    if fields == [] then 0 else fields[0].size + SizeOf(fields[1..])
  }

  function Offsets(fields: seq<Field>): seq<nat> {
    OffsetsFrom(fields, 0)
  }

  lemma {:induction false} OffsetsFromBounds(fields: seq<Field>, start: nat, i: nat)
    requires i < |fields|
    ensures var offs := OffsetsFrom(fields, start);
            start <= offs[i] && offs[i] + fields[i].size <= start + SizeOf(fields)
            && (i + 1 < |fields| ==> offs[i + 1] == offs[i] + fields[i].size)
    decreases |fields|
  {
    if i > 0 {
      OffsetsFromBounds(fields[1..], start + fields[0].size, i - 1);
    } else if 1 < |fields| {
      OffsetsFromBounds(fields[1..], start + fields[0].size, 0);
    }
  }

  /** Members occupy disjoint byte ranges in declaration order: a member ends
      no later than any later member starts (so offsets strictly increase for
      members of non-zero size), and every member lies within `sizeof`. */
  lemma LayoutOrdered(fields: seq<Field>, i: nat, j: nat)
    requires i < j < |fields|
    ensures Offsets(fields)[i] + fields[i].size <= Offsets(fields)[j]
    ensures fields[i].size > 0 ==> Offsets(fields)[i] < Offsets(fields)[j]
    ensures Offsets(fields)[j] + fields[j].size <= SizeOf(fields)
  {
    var offs := OffsetsFrom(fields, 0);
    var k := i + 1;
    OffsetsFromBounds(fields, 0, i);
    while k < j
      invariant i < k <= j
      invariant offs[i] + fields[i].size <= offs[k]
    {
      OffsetsFromBounds(fields, 0, k);
      k := k + 1;
    }
    OffsetsFromBounds(fields, 0, j);
  }

  /** Word-sized members only: member `i` starts `4i` bytes after the start,
      and the structure takes 4 bytes per member. */
  lemma {:induction false} WordLayout(fields: seq<Field>, start: nat)
    requires forall k :: 0 <= k < |fields| ==> fields[k].size == 4
    ensures forall i :: 0 <= i < |fields| ==> OffsetsFrom(fields, start)[i] == start + 4 * i
    ensures SizeOf(fields) == 4 * |fields|
    decreases |fields|
  {
    if fields != [] {
      WordLayout(fields[1..], start + 4);
      assert forall i :: 1 <= i < |fields| ==>
        OffsetsFrom(fields, start)[i] == OffsetsFrom(fields[1..], start + 4)[i - 1];
    }
  }

  /** The offsets of the members followed by the total size; for
      word-sized members only, entry `k` is `4k`. */
  function Table(fields: seq<Field>): (t: seq<nat>)
    ensures |t| == |fields| + 1
    ensures (forall k :: 0 <= k < |fields| ==> fields[k].size == 4) ==>
              forall k :: 0 <= k <= |fields| ==> t[k] == 4 * k
  {
    var t := Offsets(fields) + [SizeOf(fields)];
    if forall k :: 0 <= k < |fields| ==> fields[k].size == 4 then
      WordLayout(fields, 0);
      t
    else t
  }

  /** Position of the first member called `name`, if any. */
  function IndexOf(fields: seq<Field>, name: string): (r: nat)
    ensures r <= |fields|
    ensures r < |fields| ==> fields[r].name == name
    ensures forall k :: 0 <= k < r ==> fields[k].name != name
    decreases |fields|
  {
    if fields == [] then 0
    else if fields[0].name == name then 0
    else 1 + IndexOf(fields[1..], name)
  }

  /** In a structure of words, the first member called `name`, at position
      `k`, is at offset `4k`. */
  lemma WordOffsetOf(fields: seq<Field>, name: string, k: nat)
    requires forall j :: 0 <= j < |fields| ==> fields[j].size == 4
    requires k < |fields| && fields[k].name == name
    requires forall j :: 0 <= j < k ==> fields[j].name != name
    ensures IndexOf(fields, name) == k
    ensures OffsetOf(fields, name) == 4 * k
  {
    WordLayout(fields, 0);
  }

  /** `offsetof(T, name)`. */
  function OffsetOf(fields: seq<Field>, name: string): nat
    requires IndexOf(fields, name) < |fields|
  {
    Offsets(fields)[IndexOf(fields, name)]
  }
}
