/** sandor.h: the element runtime. Every element is created by `element()`,
    which stamps it with `index = r_elements.count` and appends it to the
    registry `r_elements`; an `Element*` is therefore modelled by its position
    in the registry (a `Handle`), and the registry is the store of all
    elements built since the last render reset. Callbacks are opaque tags,
    `void*` callback arguments are `Args`, and formatted strings produced by
    `arena_sprintf` are kept as their format and arguments. */
module Sandor {
  import opened Wrappers
  import opened Traps
  import opened VarArgs
  import CLayout

  type Handle = nat

  datatype FormatArg = IntArg(i: int) | StrArg(s: string)

  /** A string value: a literal, or the text `arena_sprintf` formats from a
      format string and its arguments (the formatting itself is not modelled). */
  datatype Str = Lit(s: string) | Formatted(format: string, args: seq<FormatArg>)

  /** `Element.text`: NULL, a string, or the uninitialised `TEXT_CAPACITY`-byte
      block of `text_element_empty`. */
  datatype Text = NoText | Chars(s: Str) | Scratch(capacity: nat)

  /** A C function pointer, as an opaque tag. */
  datatype Callback = Callback(id: nat)

  /** A `void*` callback argument: NULL, or a pointer to a one-word record
      holding `word` (the only non-NULL kind the applications pass). */
  datatype Args = NullArgs | Boxed(word: nat)

  datatype Attribute = Attribute(name: Str, value: Str)

  /** `struct Element` (sandor.h). It has no discriminant: an element is a
      button exactly when `on_click` is non-NULL. */
  datatype ElementRec = ElementRec(
    tag: Str,
    text: Text,
    children: Option<seq<Handle>>,
    onClick: Option<Callback>,
    onClickArgs: Args,
    attributes: Option<seq<Attribute>>,
    index: nat,
    onChange: Option<Callback>)

  const TEXT_CAPACITY: nat := 256
  const INPUT_BUFFER_CAPACITY: nat := 4096

  const COUNT_ASSERTION: string := "count % 2 == 0"
  const INDEX_ASSERTION: string := "r_elements.count > 0 && element_index < r_elements.count"

  /** The record `element()` initialises: every pointer field NULL. */
  function Fresh(tag: Str, children: Option<seq<Handle>>, index: nat): ElementRec {
    ElementRec(tag, NoText, children, None, NullArgs, None, index, None)
  }

  predicate ChildrenLive(e: ElementRec, n: nat) {
    e.children.Some? ==> forall c :: c in e.children.value ==> c < n
  }

  /** The registry invariant: `r_elements.items[i]->index == i`, and every
      child pointer refers to an element of the current generation. */
  predicate Registered(reg: seq<ElementRec>) {
    forall i :: 0 <= i < |reg| ==> reg[i].index == i && ChildrenLive(reg[i], |reg|)
  }

  /** `a` keeps every element of `b` at its index: the registry has only
      grown. */
  predicate Extends(a: seq<ElementRec>, b: seq<ElementRec>) {
    |b| <= |a| && forall i :: 0 <= i < |b| ==> a[i] == b[i]
  }

  /** `attributes` holds exactly the (name, value) pairs of `args`, in order. */
  predicate IsPairing(attrs: seq<Attribute>, args: seq<Str>) {
    |attrs| == |args| / 2
    && forall k :: 0 <= k < |attrs| ==> attrs[k] == Attribute(args[2 * k], args[2 * k + 1])
  }

  /** What a callback to be fired is called with. */
  datatype Binding = Binding(callback: Callback, args: Args)

  /** The lookup `invoke_on_click(index)` performs: the trap when the index is
      outside the registry, otherwise the bound `on_click` and its argument,
      or None when none is bound. */
  function ClickTarget(reg: seq<ElementRec>, index: nat): (r: Result<Option<Binding>, Trap>)
    ensures r.Err? <==> !(|reg| > 0 && index < |reg|)
    ensures r.Ok? ==> (r.value.Some? <==> reg[index].onClick.Some?)
    ensures r.Ok? && r.value.Some? ==>
              r.value.value == Binding(reg[index].onClick.value, reg[index].onClickArgs)
  {
    if !(|reg| > 0 && index < |reg|) then Err(AssertionFailed(INDEX_ASSERTION))
    else
      match reg[index].onClick
      case None => Ok(None)
      case Some(cb) => Ok(Some(Binding(cb, reg[index].onClickArgs)))
  }

  /** The lookup `invoke_on_change(index, value)` performs: the host's `value`
      pointer is handed to the bound `on_change` unchanged. */
  function ChangeTarget(reg: seq<ElementRec>, index: nat, value: nat): (r: Result<Option<(Callback, nat)>, Trap>)
    ensures r.Err? <==> !(|reg| > 0 && index < |reg|)
    ensures r.Ok? ==> (r.value.Some? <==> reg[index].onChange.Some?)
    ensures r.Ok? && r.value.Some? ==> r.value.value == (reg[index].onChange.value, value)
  {
    if !(|reg| > 0 && index < |reg|) then Err(AssertionFailed(INDEX_ASSERTION))
    else
      match reg[index].onChange
      case None => Ok(None)
      case Some(cb) => Ok(Some((cb, value)))
  }

  /** The fields of `struct Element` in declaration order. */
  const ELEMENT_FIELDS: seq<CLayout.Field> := [
    CLayout.Word("type"), CLayout.Word("text"), CLayout.Word("children"),
    CLayout.Word("on_click"), CLayout.Word("on_click_args"), CLayout.Word("attributes"),
    CLayout.Word("index"), CLayout.Word("on_change")]

  /** Every field of `struct Element` is a pointer or a `size_t`: one
      4-byte word on wasm32. */
  lemma ElementFieldsAreWords()
    ensures |ELEMENT_FIELDS| == 8
    ensures forall k :: 0 <= k < 8 ==> ELEMENT_FIELDS[k].size == 4
    ensures ELEMENT_FIELDS[3].name == "on_click" && ELEMENT_FIELDS[6].name == "index"
  {
  }

  /** `get_element_layout()`: the offsets of the eight fields in declaration
      order followed by `sizeof(Element)`. On wasm32 the table is 0, 4, ...,
      28 and then 32: field `k` (so `on_click` at 12 and `index` at 24) is at
      `4k`, so the offsets strictly increase. */
  function GetElementLayout(): (layout: seq<nat>)
    ensures |layout| == 9
    ensures forall k :: 0 <= k < 9 ==> layout[k] == 4 * k
  {
    ElementFieldsAreWords();
    var t := CLayout.Table(ELEMENT_FIELDS);
    assert |ELEMENT_FIELDS| == 8;
    t
  }

  /** The runtime's globals: `r_elements`, the `input_arena` cursor and the
      number of `platform_rerender()` requests made so far. The bytes of
      `r_arena` are not modelled: the objects it holds are the registry's. */
  class Runtime {
    var registry: seq<ElementRec>
    var inputArenaCursor: nat
    var rerenders: nat

    ghost predicate Valid()
      reads this
    {
      Registered(registry)
    }

    /** The zero-initialised globals at start-up. */
    constructor ()
      ensures Valid()
      ensures registry == [] && inputArenaCursor == 0 && rerenders == 0
    {
      registry := [];
      inputArenaCursor := 0;
      rerenders := 0;
    }

    /** `element(type, children)`: a fresh record stamped with the current
        registry length and appended to the registry. */
    method Element(tag: Str, children: Option<seq<Handle>>) returns (h: Handle)
      requires Valid()
      requires children.Some? ==> forall c :: c in children.value ==> c < |registry|
      modifies this`registry
      ensures Valid()
      ensures h == old(|registry|)
      ensures registry == old(registry) + [Fresh(tag, children, h)]
    {
      h := |registry|;
      registry := registry + [Fresh(tag, children, h)];
    }

    /** `button(text, callback, args)`: one `"button"` element with an empty
        children list and only `text`, `on_click` and `on_click_args` set. */
    method Button(text: Str, callback: Option<Callback>, args: Args) returns (h: Handle)
      requires Valid()
      modifies this`registry
      ensures Valid()
      ensures h == old(|registry|)
      ensures registry == old(registry)
                          + [Fresh(Lit("button"), Some([]), h).(text := Chars(text), onClick := callback, onClickArgs := args)]
    {
      var empty := CollectChildren([]);
      h := Element(Lit("button"), Some(empty));
      registry := registry[h := registry[h].(text := Chars(text), onClick := callback, onClickArgs := args)];
    }

    /** `text_element_empty(type)`: no children and an uninitialised
        `TEXT_CAPACITY`-byte text block. */
    method TextElementEmpty(tag: Str) returns (h: Handle)
      requires Valid()
      modifies this`registry
      ensures Valid()
      ensures h == old(|registry|)
      ensures registry == old(registry) + [Fresh(tag, None, h).(text := Scratch(TEXT_CAPACITY))]
    {
      h := Element(tag, None);
      registry := registry[h := registry[h].(text := Scratch(TEXT_CAPACITY))];
    }

    /** `text_element(type, text)`: no children and a copy of `text`. */
    method TextElement(tag: Str, text: Str) returns (h: Handle)
      requires Valid()
      modifies this`registry
      ensures Valid()
      ensures h == old(|registry|)
      ensures registry == old(registry) + [Fresh(tag, None, h).(text := Chars(text))]
    {
      h := Element(tag, None);
      registry := registry[h := registry[h].(text := Chars(text))];
    }

    /** `_add_children(parent, count, ...)`: appends the arguments in order to
        the parent's children list; no element is registered. The parent's
        list must exist (appending through a NULL `children` is undefined). */
    method AddChildren(parent: Handle, args: seq<Handle>)
      requires Valid()
      requires parent < |registry| && registry[parent].children.Some?
      requires forall c :: c in args ==> c < |registry|
      modifies this`registry
      ensures Valid()
      ensures registry == old(registry)[parent := old(registry)[parent].(
                children := Some(old(registry)[parent].children.value + args))]
    {
      ghost var before := old(registry)[parent].children.value;
      assert before + args[..0] == before;
      assert registry == old(registry)[parent := old(registry)[parent].(children := Some(before + args[..0]))];
      for i := 0 to |args|
        invariant |registry| == |old(registry)|
        invariant Valid()
        invariant registry == old(registry)[parent := old(registry)[parent].(
                    children := Some(old(registry)[parent].children.value + args[..i]))]
      {
        assert registry[parent].children.value == before + args[..i];
        assert before + args[..i + 1] == (before + args[..i]) + [args[i]];
        assert args[i] in args;
        registry := registry[parent := registry[parent].(children := Some(registry[parent].children.value + [args[i]]))];
        assert ChildrenLive(registry[parent], |registry|);
      }
      assert args[..|args|] == args;
    }

    /** `_attributes(element, count, ...)`: traps on an odd count before the
        element is touched; otherwise replaces its attributes by the
        `count / 2` (name, value) pairs in argument order and returns the same
        element. */
    method SetAttributes(e: Handle, args: seq<Str>) returns (r: Result<Handle, Trap>)
      requires Valid() && e < |registry|
      modifies this`registry
      ensures Valid()
      ensures r.Err? <==> |args| % 2 != 0
      ensures r.Err? ==> registry == old(registry)
      ensures |registry| == |old(registry)|
      ensures r.Ok? ==> r.value == e
      ensures r.Ok? ==> registry == old(registry)[e := old(registry)[e].(attributes := registry[e].attributes)]
      ensures r.Ok? ==> registry[e].attributes.Some? && IsPairing(registry[e].attributes.value, args)
    {
      if |args| % 2 != 0 {
        return Err(AssertionFailed(COUNT_ASSERTION));
      }
      var attrs: seq<Attribute> := [];
      registry := registry[e := registry[e].(attributes := Some(attrs))];
      for i := 0 to |args| / 2
        invariant Valid()
        invariant |attrs| == i
        invariant forall k :: 0 <= k < i ==> attrs[k] == Attribute(args[2 * k], args[2 * k + 1])
        invariant registry == old(registry)[e := old(registry)[e].(attributes := Some(attrs))]
      {
        attrs := attrs + [Attribute(args[2 * i], args[2 * i + 1])];
        registry := registry[e := registry[e].(attributes := Some(attrs))];
      }
      r := Ok(e);
    }

    /** The `class(element, value)` macro: `_attributes(element, 2, "class", value)`. */
    method Class(e: Handle, value: Str) returns (h: Handle)
      requires Valid() && e < |registry|
      modifies this`registry
      ensures Valid()
      ensures h == e
      ensures registry == old(registry)[e := old(registry)[e].(attributes := Some([Attribute(Lit("class"), value)]))]
    {
      var r := SetAttributes(e, [Lit("class"), value]);
      h := r.value;
      assert registry[e].attributes.value == [Attribute(Lit("class"), value)];
    }

    /** The reset `render_component_internal` performs before it calls the
        application's `render_component`: `arena_reset(&r_arena)` and
        `r_elements.count = r_elements.capacity = 0`. */
    method ResetForRender()
      modifies this`registry
      ensures Valid()
      ensures registry == []
    {
      registry := [];
    }

    /** `platform_rerender()`, recorded as a count. */
    method RequestRerender()
      modifies this`rerenders
      ensures rerenders == old(rerenders) + 1
    {
      rerenders := rerenders + 1;
    }

    /** `invoke_on_click(index)` on the runtime's side: traps outside the
        registry; when `on_click` is bound, returns the binding the host's
        call fires and requests one rerender; otherwise nothing changes. The
        application's callback itself is run by the application model. */
    method InvokeOnClick(index: nat) returns (r: Result<Option<Binding>, Trap>)
      modifies this`rerenders
      ensures r == ClickTarget(registry, index)
      ensures rerenders == old(rerenders) + (if r.Ok? && r.value.Some? then 1 else 0)
    {
      r := ClickTarget(registry, index);
      if r.Ok? && r.value.Some? {
        RequestRerender();
      }
    }

    /** `invoke_on_change(index, value)`: as `InvokeOnClick`, with `on_change`
        and the host's `value` pointer passed through unchanged. */
    method InvokeOnChange(index: nat, value: nat) returns (r: Result<Option<(Callback, nat)>, Trap>)
      modifies this`rerenders
      ensures r == ChangeTarget(registry, index, value)
      ensures rerenders == old(rerenders) + (if r.Ok? && r.value.Some? then 1 else 0)
    {
      r := ChangeTarget(registry, index, value);
      if r.Ok? && r.value.Some? {
        RequestRerender();
      }
    }

    /** `get_input_buffer()`: a fresh `INPUT_BUFFER_CAPACITY`-byte block from
        `input_arena`, which is never reset, so every call takes new memory. */
    method GetInputBuffer() returns (p: nat)
      modifies this`inputArenaCursor
      ensures p == old(inputArenaCursor)
      ensures inputArenaCursor == old(inputArenaCursor) + INPUT_BUFFER_CAPACITY
    {
      p := inputArenaCursor;
      inputArenaCursor := inputArenaCursor + INPUT_BUFFER_CAPACITY;
    }
  }

  /** Appending a record stamped with the old length keeps the invariant. */
  lemma RegisteredAppend(reg: seq<ElementRec>, e: ElementRec)
    requires Registered(reg)
    requires e.index == |reg| && ChildrenLive(e, |reg|)
    ensures Registered(reg + [e])
  {
  }

  /** Input buffers handed out by `n` successive `get_input_buffer()` calls
      from cursor `c`. */
  function InputBuffers(c: nat, n: nat): (ps: seq<nat>)
    ensures |ps| == n
    decreases n
  {
    if n == 0 then [] else [c] + InputBuffers(c + INPUT_BUFFER_CAPACITY, n - 1)
  }

  /** The blocks of successive `get_input_buffer()` calls never overlap: the
      k-th starts `k * INPUT_BUFFER_CAPACITY` bytes after the first, so none is
      ever reused. */
  lemma {:induction false} InputBuffersDisjoint(c: nat, n: nat, k: nat)
    requires k < n
    ensures InputBuffers(c, n)[k] == c + k * INPUT_BUFFER_CAPACITY
    decreases n
  {
    if k > 0 {
      InputBuffersDisjoint(c + INPUT_BUFFER_CAPACITY, n - 1, k - 1);
    }
  }
}
