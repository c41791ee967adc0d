/** wasm/wasm-component.h: the predecessor runtime. It has no registry and no
    `index` field: elements are arena records the host refers to by address,
    and `invoke_on_click` takes that address back with no check at all. A
    pointer is modelled as a position in `heap`, the records allocated from
    `r_arena` since its last reset. */
module LegacyRuntime {
  import opened Wrappers
  import opened VarArgs
  import opened Sandor
  import CLayout

  type Ptr = nat

  /** `struct Element` of wasm/wasm-component.h. */
  datatype LegacyElement = LegacyElement(
    tag: Str,
    text: Text,
    children: Option<seq<Ptr>>,
    onClick: Option<Callback>,
    onClickArgs: Args)

  /** The fields of the legacy `struct Element` in declaration order. */
  const LEGACY_ELEMENT_FIELDS: seq<CLayout.Field> := [
    CLayout.Word("type"), CLayout.Word("text"), CLayout.Word("children"),
    CLayout.Word("on_click"), CLayout.Word("on_click_args")]

  /** The fields of `Children` (both runtimes) in declaration order. */
  const CHILDREN_FIELDS: seq<CLayout.Field> := [
    CLayout.Word("count"), CLayout.Word("capacity"), CLayout.Word("items")]

  /** Every field of both structures is a pointer or a `size_t`: one 4-byte
      word on wasm32. */
  lemma LegacyFieldsAreWords()
    ensures |LEGACY_ELEMENT_FIELDS| == 5 && |CHILDREN_FIELDS| == 3
    ensures forall k :: 0 <= k < 5 ==> LEGACY_ELEMENT_FIELDS[k].size == 4
    ensures forall k :: 0 <= k < 3 ==> CHILDREN_FIELDS[k].size == 4
    ensures LEGACY_ELEMENT_FIELDS[0].name == "type" && LEGACY_ELEMENT_FIELDS[1].name == "text"
    ensures LEGACY_ELEMENT_FIELDS[2].name == "children" && LEGACY_ELEMENT_FIELDS[3].name == "on_click"
    ensures CHILDREN_FIELDS[0].name == "count" && CHILDREN_FIELDS[1].name == "capacity"
    ensures CHILDREN_FIELDS[2].name == "items"
  {
  }

  predicate PointersLive(heap: seq<LegacyElement>) {
    forall i :: 0 <= i < |heap| ==>
      heap[i].children.Some? ==> forall c :: c in heap[i].children.value ==> c < |heap|
  }

  class LegacyRuntime {
    var heap: seq<LegacyElement>
    var rerenders: nat

    ghost predicate Valid()
      reads this
    {
      PointersLive(heap)
    }

    constructor ()
      ensures Valid() && heap == [] && rerenders == 0
    {
      heap := [];
      rerenders := 0;
    }

    /** `element(type, children)`: a new record holding the `type` pointer
        itself (not a copy) and NULL `text`, `on_click` and `on_click_args`.
        Nothing is registered. */
    method Element(tag: Str, children: Option<seq<Ptr>>) returns (p: Ptr)
      requires Valid()
      requires children.Some? ==> forall c :: c in children.value ==> c < |heap|
      modifies this`heap
      ensures Valid()
      ensures p == old(|heap|)
      ensures heap == old(heap) + [LegacyElement(tag, NoText, children, None, NullArgs)]
    {
      p := |heap|;
      heap := heap + [LegacyElement(tag, NoText, children, None, NullArgs)];
    }

    /** `button(text, callback, args)`: `element("button", children_empty())`
        with `text`, `on_click` and `on_click_args` set from the arguments. */
    method Button(text: Str, callback: Option<Callback>, args: Args) returns (p: Ptr)
      requires Valid()
      modifies this`heap
      ensures Valid()
      ensures p == old(|heap|)
      ensures heap == old(heap) + [LegacyElement(Lit("button"), Chars(text), Some([]), callback, args)]
    {
      var empty := CollectChildren([]);
      p := Element(Lit("button"), Some(empty));
      heap := heap[p := heap[p].(text := Chars(text), onClick := callback, onClickArgs := args)];
    }

    /** `text_element_empty(type)`: NULL children and an uninitialised
        `TEXT_CAPACITY`-byte text block. */
    method TextElementEmpty(tag: Str) returns (p: Ptr)
      requires Valid()
      modifies this`heap
      ensures Valid()
      ensures p == old(|heap|)
      ensures heap == old(heap) + [LegacyElement(tag, Scratch(TEXT_CAPACITY), None, None, NullArgs)]
    {
      p := Element(tag, None);
      heap := heap[p := heap[p].(text := Scratch(TEXT_CAPACITY))];
    }

    /** `text_element(type, text)`: NULL children and a copy of `text`. */
    method TextElement(tag: Str, text: Str) returns (p: Ptr)
      requires Valid()
      modifies this`heap
      ensures Valid()
      ensures p == old(|heap|)
      ensures heap == old(heap) + [LegacyElement(tag, Chars(text), None, None, NullArgs)]
    {
      p := Element(tag, None);
      heap := heap[p := heap[p].(text := Chars(text))];
    }

    /** `add_children(parent, ...)`: appends the arguments before the first
        NULL to the parent's children, in order. The list must end in NULL
        (reading past the last argument is undefined) and the parent must have
        a children list. */
    method AddChildren(parent: Ptr, args: seq<Option<Ptr>>)
      requires Valid()
      requires None in args
      requires parent < |heap| && heap[parent].children.Some?
      requires forall k :: 0 <= k < FirstNull(args) ==> args[k].value < |heap|
      modifies this`heap
      ensures Valid()
      ensures heap == old(heap)[parent := old(heap)[parent].(
                children := Some(old(heap)[parent].children.value + NonNullPrefix(args)))]
    {
      var items := TakeUntilNull(args);
      assert items == NonNullPrefix(args);
      heap := heap[parent := heap[parent].(children := Some(heap[parent].children.value + items))];
    }

    /** The reset `render_component_internal` performs before it calls the
        application's `render_component`: every earlier record is expired. */
    method ResetForRender()
      modifies this`heap
      ensures Valid() && heap == []
    {
      heap := [];
    }

    /** `invoke_on_click(element)`: no bounds or registry check; when
        `on_click` is bound, returns the binding fired and requests one
        rerender, otherwise nothing changes. A pointer outside the current
        records is undefined behaviour, hence the precondition. */
    method InvokeOnClick(p: Ptr) returns (fired: Option<Binding>)
      requires p < |heap|
      modifies this`rerenders
      ensures fired.Some? <==> heap[p].onClick.Some?
      ensures fired.Some? ==> fired.value == Binding(heap[p].onClick.value, heap[p].onClickArgs)
      ensures rerenders == old(rerenders) + (if fired.Some? then 1 else 0)
    {
      match heap[p].onClick
      case None =>
        fired := None;
      case Some(cb) =>
        fired := Some(Binding(cb, heap[p].onClickArgs));
        rerenders := rerenders + 1;
    }
  }
}
