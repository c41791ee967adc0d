/** example/src/wasm-component.ts: the host of the example apps. It reads a
    table of field offsets once, decodes the element tree a render returns,
    and turns button and input events back into calls of `invoke_on_click`
    and `invoke_on_change` by element index. The decoder is modelled against
    its own text: it expects a 14-word layout table and a discriminant 0..3,
    which is not what the runtime in sandor.h publishes. */
module ExampleHost {
  import opened Wrappers
  import opened LinearMemory
  import opened HostMemory

  /** Indices of the layout table (`LAYOUT` in `init`). */
  const LAYOUT_TYPE: nat := 0
  const LAYOUT_INDEX: nat := 1
  const LAYOUT_TEXT: nat := 2
  const LAYOUT_CHILDREN: nat := 3
  const LAYOUT_ATTRIBUTES: nat := 4
  const LAYOUT_UNION: nat := 5
  const LAYOUT_GENERIC_TAG: nat := 6
  const LAYOUT_BUTTON_ON_CLICK: nat := 7
  const LAYOUT_BUTTON_ON_CLICK_ARGS: nat := 8
  const LAYOUT_INPUT_PLACEHOLDER: nat := 9
  const LAYOUT_INPUT_ON_CHANGE: nat := 10
  const LAYOUT_CANVAS_ID: nat := 11
  const LAYOUT_CANVAS_WIDTH: nat := 12
  const LAYOUT_CANVAS_HEIGHT: nat := 13
  const LAYOUT_WORDS: nat := 14

  /** `ElementType`. */
  const GENERIC: nat := 0
  const BUTTON: nat := 1
  const INPUT: nat := 2
  const CANVAS: nat := 3

  /** What a button's `onClick` does: call `invoke_on_click(id)`, or nothing. */
  datatype ClickHandler = InvokeOnClick(id: u32) | NoClick

  /** What an input's `onChange` does: write the new value into a buffer from
      `get_input_buffer` and call `invoke_on_change(id, buffer)`, or nothing. */
  datatype ChangeHandler = StageAndInvokeOnChange(id: u32) | NoChange

  datatype Variant =
    | Generic(tag: seq<byte>)
    | ButtonVariant(onClick: ClickHandler)
    | InputVariant(placeholder: seq<byte>, onChange: ChangeHandler)
    | CanvasVariant(canvasId: seq<byte>, width: u32, height: u32)

  /** `ResultElement`. */
  datatype ResultElement = ResultElement(
    id: u32,
    text: Option<seq<byte>>,
    children: Option<seq<ResultElement>>,
    attributes: Option<map<seq<byte>, seq<byte>>>,
    variant: Variant)

  /** The offsets table of `init`: entry `i` is the word at
      `layoutPtr + i * wordSize`, for the 14 indices TYPE..CANVAS_HEIGHT.
      `wordSize` is what the module's `get_layout_word_size` returns. */
  function ReadLayout(mem: Memory, layoutPtr: nat, wordSize: nat): (r: Result<seq<u32>, HostError>)
    ensures r.Ok? <==> layoutPtr + 13 * wordSize + 4 <= |mem|
    ensures r.Ok? ==> |r.value| == LAYOUT_WORDS
    ensures r.Ok? ==> forall i :: 0 <= i < LAYOUT_WORDS ==> WordAt(mem, layoutPtr, wordSize, i) == Ok(r.value[i])
  {
    ReadWords(mem, layoutPtr, wordSize, LAYOUT_WORDS)
  }

  /** The word of field `k` of the element at `address`. */
  function Field(mem: Memory, offsets: seq<u32>, address: nat, k: nat): Result<u32, HostError>
    requires k < |offsets|
  {
    ReadU32(mem, address + offsets[k])
  }

  /** One attribute entry: a key pointer at +0 and a value pointer at +4,
      each read as a C string. */
  function ReadEntry(mem: Memory, entryPtr: u32): (r: Result<(seq<byte>, seq<byte>), HostError>)
    ensures r.Ok? <==> ReadU32(mem, entryPtr).Ok? && ReadU32(mem, entryPtr as nat + 4).Ok?
                       && ReadCString(mem, ReadU32(mem, entryPtr).value).Ok?
                       && ReadCString(mem, ReadU32(mem, entryPtr as nat + 4).value).Ok?
    ensures r.Ok? ==> Ok(r.value.0) == ReadCString(mem, ReadU32(mem, entryPtr).value)
    ensures r.Ok? ==> Ok(r.value.1) == ReadCString(mem, ReadU32(mem, entryPtr as nat + 4).value)
  {
    var keyPtr :- ReadU32(mem, entryPtr);
    var valuePtr :- ReadU32(mem, entryPtr as nat + 4);
    var key :- ReadCString(mem, keyPtr);
    var value :- ReadCString(mem, valuePtr);
    Ok((key, value))
  }

  /** The key/value pairs of the first `n` entries, in array order; the
      first entry that cannot be decoded decides the error. */
  function ReadEntries(mem: Memory, entries: seq<u32>, n: nat): (r: Result<seq<(seq<byte>, seq<byte>)>, HostError>)
    requires n <= |entries|
    ensures r.Ok? ==> |r.value| == n && forall i :: 0 <= i < n ==> ReadEntry(mem, entries[i]) == Ok(r.value[i])
    ensures r.Err? ==> exists i :: 0 <= i < n && ReadEntry(mem, entries[i]) == Err(r.error)
                                  && forall j :: 0 <= j < i ==> ReadEntry(mem, entries[j]).Ok?
  {
    if n == 0 then Ok([])
    else
      var acc :- ReadEntries(mem, entries, n - 1);
      var entry :- ReadEntry(mem, entries[n - 1]);
      Ok(acc + [entry])
  }

  /** The bytes of `__proto__`. On a plain object, assigning to that key
      calls the prototype setter, which ignores a string value. */
  const PROTO_KEY: seq<byte> := [95, 95, 112, 114, 111, 116, 111, 95, 95]

  /** `attributes[key] = value` for each pair in turn; an assignment to
      `__proto__` leaves the object as it was. */
  function Assign(pairs: seq<(seq<byte>, seq<byte>)>): map<seq<byte>, seq<byte>>
    decreases |pairs|
  {
    if pairs == [] then map[]
    else
      var last := pairs[|pairs| - 1];
      if last.0 == PROTO_KEY then Assign(pairs[..|pairs| - 1])
      else Assign(pairs[..|pairs| - 1])[last.0 := last.1]
  }

  /** The attribute map holds exactly the keys of the pairs read, except
      `__proto__`. */
  lemma {:induction false} AttributeKeys(pairs: seq<(seq<byte>, seq<byte>)>)
    ensures Assign(pairs).Keys == (set i | 0 <= i < |pairs| :: pairs[i].0) - {PROTO_KEY}
    decreases |pairs|
  {
    if pairs != [] {
      var n := |pairs|;
      var init := pairs[..n - 1];
      AttributeKeys(init);
      assert forall i :: 0 <= i < n - 1 ==> init[i] == pairs[i];
      var keys := set i | 0 <= i < n :: pairs[i].0;
      var before := set i | 0 <= i < n - 1 :: init[i].0;
      forall x | x in keys ensures x in before || x == pairs[n - 1].0 {
        var i :| 0 <= i < n && pairs[i].0 == x;
        if i < n - 1 {
          assert init[i].0 == x;
        }
      }
      assert keys == before + {pairs[n - 1].0};
    }
  }

  /** A key other than `__proto__` takes the value of the last pair that
      names it: an earlier entry with the same key is overwritten. */
  lemma {:induction false} LastWriteWins(pairs: seq<(seq<byte>, seq<byte>)>, i: nat)
    requires i < |pairs|
    requires forall j :: i < j < |pairs| ==> pairs[j].0 != pairs[i].0
    ensures pairs[i].0 != PROTO_KEY ==> pairs[i].0 in Assign(pairs) && Assign(pairs)[pairs[i].0] == pairs[i].1
    decreases |pairs|
  {
    var n := |pairs|;
    if i < n - 1 {
      var init := pairs[..n - 1];
      assert init[i] == pairs[i];
      LastWriteWins(init, i);
    }
  }

  /** `attributes`: decoded only when its pointer is non-zero. */
  function ReadAttributes(mem: Memory, ptr: u32): (r: Result<Option<map<seq<byte>, seq<byte>>>, HostError>)
    ensures r.Ok? ==> (r.value.None? <==> ptr == 0)
    ensures r.Ok? && ptr != 0 ==> ReadPointerArray(mem, ptr).Ok?
  {
    if ptr == 0 then Ok(None)
    else
      var entries :- ReadPointerArray(mem, ptr);
      var pairs :- ReadEntries(mem, entries, |entries|);
      Ok(Some(Assign(pairs)))
  }

  /** The type-specific fields, read at the union's address plus the
      variant's offset; a type outside 0..3 throws. Handlers carry the
      element's `id`, not its address, and are no-ops when the callback
      pointer is 0. */
  function ReadVariant(mem: Memory, offsets: seq<u32>, unionAddr: nat, elementType: u32, id: u32): (r: Result<Variant, HostError>)
    requires |offsets| == LAYOUT_WORDS
    ensures elementType > CANVAS ==> r == Err(UnknownElementType(elementType))
    ensures r.Ok? ==> elementType <= CANVAS
    ensures r.Ok? && elementType == GENERIC ==>
              r.value.Generic? && Field(mem, offsets, unionAddr, LAYOUT_GENERIC_TAG).Ok?
              && ReadCString(mem, Field(mem, offsets, unionAddr, LAYOUT_GENERIC_TAG).value) == Ok(r.value.tag)
    ensures r.Ok? && elementType == BUTTON ==>
              r.value.ButtonVariant? && Field(mem, offsets, unionAddr, LAYOUT_BUTTON_ON_CLICK).Ok?
              && r.value.onClick == (if Field(mem, offsets, unionAddr, LAYOUT_BUTTON_ON_CLICK).value != 0
                                     then InvokeOnClick(id) else NoClick)
    ensures r.Ok? && elementType == INPUT ==>
              r.value.InputVariant? && Field(mem, offsets, unionAddr, LAYOUT_INPUT_PLACEHOLDER).Ok?
              && ReadCString(mem, Field(mem, offsets, unionAddr, LAYOUT_INPUT_PLACEHOLDER).value) == Ok(r.value.placeholder)
              && Field(mem, offsets, unionAddr, LAYOUT_INPUT_ON_CHANGE).Ok?
              && r.value.onChange == (if Field(mem, offsets, unionAddr, LAYOUT_INPUT_ON_CHANGE).value != 0
                                      then StageAndInvokeOnChange(id) else NoChange)
    ensures r.Ok? && elementType == CANVAS ==>
              r.value.CanvasVariant? && Field(mem, offsets, unionAddr, LAYOUT_CANVAS_ID).Ok?
              && ReadCString(mem, Field(mem, offsets, unionAddr, LAYOUT_CANVAS_ID).value) == Ok(r.value.canvasId)
              && Field(mem, offsets, unionAddr, LAYOUT_CANVAS_WIDTH) == Ok(r.value.width)
              && Field(mem, offsets, unionAddr, LAYOUT_CANVAS_HEIGHT) == Ok(r.value.height)
  {
    if elementType == GENERIC then
      var tagPtr :- Field(mem, offsets, unionAddr, LAYOUT_GENERIC_TAG);
      var tag :- ReadCString(mem, tagPtr);
      Ok(Generic(tag))
    else if elementType == BUTTON then
      var onClickPtr :- Field(mem, offsets, unionAddr, LAYOUT_BUTTON_ON_CLICK);
      Ok(ButtonVariant(if onClickPtr != 0 then InvokeOnClick(id) else NoClick))
    else if elementType == INPUT then
      var placeholderPtr :- Field(mem, offsets, unionAddr, LAYOUT_INPUT_PLACEHOLDER);
      var placeholder :- ReadCString(mem, placeholderPtr);
      var onChangePtr :- Field(mem, offsets, unionAddr, LAYOUT_INPUT_ON_CHANGE);
      Ok(InputVariant(placeholder, if onChangePtr != 0 then StageAndInvokeOnChange(id) else NoChange))
    else if elementType == CANVAS then
      var idPtr :- Field(mem, offsets, unionAddr, LAYOUT_CANVAS_ID);
      var canvasId :- ReadCString(mem, idPtr);
      var width :- Field(mem, offsets, unionAddr, LAYOUT_CANVAS_WIDTH);
      var height :- Field(mem, offsets, unionAddr, LAYOUT_CANVAS_HEIGHT);
      Ok(CanvasVariant(canvasId, width, height))
    else
      Err(UnknownElementType(elementType))
  }

  /** `readElement(address)`, following at most `fuel` levels of children. */
  function ReadElement(mem: Memory, offsets: seq<u32>, address: nat, fuel: nat): (r: Result<ResultElement, HostError>)
    requires |offsets| == LAYOUT_WORDS
    ensures fuel == 0 ==> r == Err(OutOfFuel)
    decreases fuel, 1
  {
    if fuel == 0 then Err(OutOfFuel)
    else
      var elementType :- Field(mem, offsets, address, LAYOUT_TYPE);
      var id :- Field(mem, offsets, address, LAYOUT_INDEX);
      var textPtr :- Field(mem, offsets, address, LAYOUT_TEXT);
      var text :- ReadOptionalString(mem, textPtr);
      var childrenPtr :- Field(mem, offsets, address, LAYOUT_CHILDREN);
      var children :- ReadChildren(mem, offsets, childrenPtr, fuel);
      var attributesPtr :- Field(mem, offsets, address, LAYOUT_ATTRIBUTES);
      var attributes :- ReadAttributes(mem, attributesPtr);
      var variant :- ReadVariant(mem, offsets, address + offsets[LAYOUT_UNION], elementType, id);
      Ok(ResultElement(id, text, children, attributes, variant))
  }

  /** A decoded element's `id`, `text`, `children`, `attributes` and variant
      come from the words at the layout's offsets, each decoded by its own
      reader. */
  lemma ReadElementFields(mem: Memory, offsets: seq<u32>, address: nat, fuel: nat)
    requires |offsets| == LAYOUT_WORDS
    requires ReadElement(mem, offsets, address, fuel).Ok?
    ensures var e := ReadElement(mem, offsets, address, fuel).value;
            Field(mem, offsets, address, LAYOUT_INDEX) == Ok(e.id)
            && Field(mem, offsets, address, LAYOUT_TEXT).Ok?
            && ReadOptionalString(mem, Field(mem, offsets, address, LAYOUT_TEXT).value) == Ok(e.text)
            && Field(mem, offsets, address, LAYOUT_CHILDREN).Ok?
            && ReadChildren(mem, offsets, Field(mem, offsets, address, LAYOUT_CHILDREN).value, fuel) == Ok(e.children)
            && Field(mem, offsets, address, LAYOUT_ATTRIBUTES).Ok?
            && ReadAttributes(mem, Field(mem, offsets, address, LAYOUT_ATTRIBUTES).value) == Ok(e.attributes)
            && Field(mem, offsets, address, LAYOUT_TYPE).Ok?
            && ReadVariant(mem, offsets, address + offsets[LAYOUT_UNION], Field(mem, offsets, address, LAYOUT_TYPE).value, e.id)
               == Ok(e.variant)
  {
  }

  /** `children`: decoded only when its pointer is non-zero, each child
      recursively and in array order. */
  function ReadChildren(mem: Memory, offsets: seq<u32>, ptr: u32, fuel: nat): (r: Result<Option<seq<ResultElement>>, HostError>)
    requires |offsets| == LAYOUT_WORDS && fuel > 0
    ensures r.Ok? ==> (r.value.None? <==> ptr == 0)
    ensures r.Ok? && ptr != 0 ==>
              ReadPointerArray(mem, ptr).Ok?
              && ReadElements(mem, offsets, ReadPointerArray(mem, ptr).value, fuel - 1) == Ok(r.value.value)
    decreases fuel, 0
  {
    if ptr == 0 then Ok(None)
    else
      var addrs :- ReadPointerArray(mem, ptr);
      var kids :- ReadElements(mem, offsets, addrs, fuel - 1);
      Ok(Some(kids))
  }

  /** `childrenArray.map(readElement)`: the first failure, else every child. */
  function ReadElements(mem: Memory, offsets: seq<u32>, addrs: seq<u32>, fuel: nat): (r: Result<seq<ResultElement>, HostError>)
    requires |offsets| == LAYOUT_WORDS
    ensures r.Ok? ==> |r.value| == |addrs|
    decreases fuel, 2 + |addrs|
  {
    if |addrs| == 0 then Ok([])
    else
      var first :- ReadElement(mem, offsets, addrs[0], fuel);
      var rest :- ReadElements(mem, offsets, addrs[1..], fuel);
      Ok([first] + rest)
  }

  /** Child `i` of a successful decoding is the decoding of array entry `i`. */
  lemma {:induction false} ReadElementsAt(mem: Memory, offsets: seq<u32>, addrs: seq<u32>, fuel: nat, i: nat)
    requires |offsets| == LAYOUT_WORDS
    requires ReadElements(mem, offsets, addrs, fuel).Ok? && i < |addrs|
    ensures ReadElement(mem, offsets, addrs[i], fuel) == Ok(ReadElements(mem, offsets, addrs, fuel).value[i])
    decreases |addrs|
  {
    var first := ReadElement(mem, offsets, addrs[0], fuel);
    var rest := ReadElements(mem, offsets, addrs[1..], fuel);
    assert first.Ok? && rest.Ok?;
    assert ReadElements(mem, offsets, addrs, fuel).value == [first.value] + rest.value;
    if i > 0 {
      ReadElementsAt(mem, offsets, addrs[1..], fuel, i - 1);
    }
  }

  /** More fuel never changes a decoding that already succeeded. */
  lemma {:induction false} ReadElementFuel(mem: Memory, offsets: seq<u32>, address: nat, fuel: nat)
    requires |offsets| == LAYOUT_WORDS
    requires ReadElement(mem, offsets, address, fuel).Ok?
    ensures ReadElement(mem, offsets, address, fuel + 1) == ReadElement(mem, offsets, address, fuel)
    decreases fuel, 1
  {
    var childrenPtr := Field(mem, offsets, address, LAYOUT_CHILDREN).value;
    ReadChildrenFuel(mem, offsets, childrenPtr, fuel);
  }

  lemma {:induction false} ReadChildrenFuel(mem: Memory, offsets: seq<u32>, ptr: u32, fuel: nat)
    requires |offsets| == LAYOUT_WORDS && fuel > 0
    requires ReadChildren(mem, offsets, ptr, fuel).Ok?
    ensures ReadChildren(mem, offsets, ptr, fuel + 1) == ReadChildren(mem, offsets, ptr, fuel)
    decreases fuel, 0
  {
    if ptr != 0 {
      var addrs := ReadPointerArray(mem, ptr);
      assert addrs.Ok?;
      var kids := ReadElements(mem, offsets, addrs.value, fuel - 1);
      assert kids.Ok?;
      ReadElementsFuel(mem, offsets, addrs.value, fuel - 1);
      assert ReadElements(mem, offsets, addrs.value, fuel) == kids;
    }
  }

  lemma {:induction false} ReadElementsFuel(mem: Memory, offsets: seq<u32>, addrs: seq<u32>, fuel: nat)
    requires |offsets| == LAYOUT_WORDS
    requires ReadElements(mem, offsets, addrs, fuel).Ok?
    ensures ReadElements(mem, offsets, addrs, fuel + 1) == ReadElements(mem, offsets, addrs, fuel)
    decreases fuel, 2 + |addrs|
  {
    if |addrs| > 0 {
      ReadElementFuel(mem, offsets, addrs[0], fuel);
      ReadElementsFuel(mem, offsets, addrs[1..], fuel);
    }
  }

  /** The component's own state: whether it holds a module instance (with
      its memory view), the offsets table read by `init`, the `initialized`
      flag, and how many times it has called the module's `init_component`. */
  class ExampleComponent {
    var instance: bool
    var offsets: Option<seq<u32>>
    var initialized: bool
    var initCalls: nat

    predicate Valid()
      reads this
    {
      offsets.Some? ==> |offsets.value| == LAYOUT_WORDS
    }

    constructor()
      ensures Valid()
      ensures !instance && offsets == None && !initialized && initCalls == 0
    {
      instance := false;
      offsets := None;
      initialized := false;
      initCalls := 0;
    }

    /** `init`: instantiate, then read the offsets table. A table that
        cannot be read throws after the instance is stored, leaving the
        previous table in place. */
    method Init(mem: Memory, layoutPtr: nat, wordSize: nat) returns (r: Result<(), HostError>)
      requires Valid()
      modifies this
      ensures Valid()
      ensures instance && initialized == old(initialized) && initCalls == old(initCalls)
      ensures r.Ok? <==> ReadLayout(mem, layoutPtr, wordSize).Ok?
      ensures offsets == (if r.Ok? then Some(ReadLayout(mem, layoutPtr, wordSize).value) else old(offsets))
    {
      instance := true;
      var layout := ReadLayout(mem, layoutPtr, wordSize);
      if layout.Err? {
        return Err(layout.error);
      }
      offsets := Some(layout.value);
      return Ok(());
    }

    /** `render`: `init_component` (when the module exports it) runs only
        while `initialized` is false; then the tree `render_component`
        returned at `rootAddr` is decoded; `initialized` becomes true only
        when decoding succeeded and there is a parent to render into. */
    method Render(mem: Memory, rootAddr: nat, hasInitExport: bool, hasParent: bool, fuel: nat)
      returns (r: Result<ResultElement, HostError>)
      requires Valid()
      modifies this
      ensures Valid()
      ensures instance == old(instance) && offsets == old(offsets)
      ensures initCalls == old(initCalls) + (if old(instance) && !old(initialized) && hasInitExport then 1 else 0)
      ensures !old(instance) || old(offsets).None? ==> r == Err(Detached)
      ensures old(instance) && old(offsets).Some? ==> r == ReadElement(mem, old(offsets).value, rootAddr, fuel)
      ensures initialized == (old(initialized) || (r.Ok? && hasParent))
    {
      if !instance {
        return Err(Detached);
      }
      if !initialized && hasInitExport {
        initCalls := initCalls + 1;
      }
      if offsets.None? {
        return Err(Detached);
      }
      r := ReadElement(mem, offsets.value, rootAddr, fuel);
      if r.Err? || !hasParent {
        return;
      }
      initialized := true;
    }

    /** `destroy`: drop the instance, the memory view and the offsets, and
        clear `initialized`. */
    method Destroy()
      modifies this
      ensures Valid()
      ensures !instance && offsets == None && !initialized && initCalls == old(initCalls)
    {
      instance := false;
      offsets := None;
      initialized := false;
    }
  }
}
