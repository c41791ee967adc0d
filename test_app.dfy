/** examples/test.c: a click counter. `render_component` counts its own calls
    and builds a heading, two paragraphs and an Increment button inside a
    `div`; the button's callback counts clicks. */
module TestApp {
  import opened Wrappers
  import opened Traps
  import opened Sandor

  /** `button_callback`, the only callback the application binds. */
  const BUTTON_CALLBACK: Callback := Callback(0)

  const ARGS_NULL_ASSERTION: string := "args == NULL"

  const GREETING: string := "Hello, world!"
  const HEADING_CLASS: string := "text-3xl font-bold"
  const COUNT_FORMAT: string := "Count: %d"
  const COUNT_CLASS: string := "text-xl"
  const RENDER_COUNT_FORMAT: string := "Render count: %d"
  const BUTTON_TEXT: string := "Increment"
  const BUTTON_CLASS: string := "btn rounded-full"
  const ROOT_CLASS: string := "flex-1 flex flex-col items-center gap-4 p-6"

  function ClassAttr(value: string): Option<seq<Attribute>> {
    Some([Attribute(Lit("class"), Lit(value))])
  }

  /** The registry one `render_component` call leaves behind, given the
      counters it formats. With arguments evaluated left to right, the
      children are registered first (h1 = 0, p = 1, p = 2, button = 3) and the
      root `div` last (4). */
  function TestTree(count: int, renderCount: int): seq<ElementRec> {
    [ Fresh(Lit("h1"), None, 0).(text := Chars(Lit(GREETING)), attributes := ClassAttr(HEADING_CLASS)),
      Fresh(Lit("p"), None, 1).(text := Chars(Formatted(COUNT_FORMAT, [IntArg(count)])), attributes := ClassAttr(COUNT_CLASS)),
      Fresh(Lit("p"), None, 2).(text := Chars(Formatted(RENDER_COUNT_FORMAT, [IntArg(renderCount)]))),
      Fresh(Lit("button"), Some([]), 3).(text := Chars(Lit(BUTTON_TEXT)), onClick := Some(BUTTON_CALLBACK),
                                         onClickArgs := NullArgs, attributes := ClassAttr(BUTTON_CLASS)),
      Fresh(Lit("div"), Some([0, 1, 2, 3]), 4).(attributes := ClassAttr(ROOT_CLASS)) ]
  }

  /** The tree satisfies the registry invariant; its root is a `div` whose
      four children are, in order, the `h1`, the two `p`s and the button. */
  lemma TestTreeShape(count: int, renderCount: int)
    ensures Registered(TestTree(count, renderCount))
    ensures var t := TestTree(count, renderCount);
            t[4].tag == Lit("div") && t[4].children == Some([0, 1, 2, 3])
            && t[0].tag == Lit("h1") && t[1].tag == Lit("p") && t[2].tag == Lit("p") && t[3].tag == Lit("button")
  {
  }

  /** The button is the only element with an `on_click`: dispatching index 3
      fires `button_callback` with NULL, any other index in range is a no-op,
      and any index from 5 on traps. */
  lemma TestTreeDispatch(count: int, renderCount: int, index: nat)
    ensures var t := TestTree(count, renderCount);
            ClickTarget(t, index) == (if index == 3 then Ok(Some(Binding(BUTTON_CALLBACK, NullArgs)))
                                      else if index < 5 then Ok(None)
                                      else Err(AssertionFailed(INDEX_ASSERTION)))
  {
  }

  class TestApp {
    var count: int
    var renderCount: int

    /** The zero-initialised globals `render_count` and `count`. */
    constructor ()
      ensures count == 0 && renderCount == 0
    {
      count := 0;
      renderCount := 0;
    }

    /** `button_callback(args)`: traps unless `args` is NULL, otherwise adds
        exactly one to `count`. */
    method ButtonCallback(args: Args) returns (r: Result<(), Trap>)
      modifies this`count
      ensures r.Err? <==> args != NullArgs
      ensures count == old(count) + (if r.Ok? then 1 else 0)
    {
      if args != NullArgs {
        return Err(AssertionFailed(ARGS_NULL_ASSERTION));
      }
      count := count + 1;
      r := Ok(());
    }

    /** `render_component_internal()` with this application's
        `render_component`: the registry is reset, `render_count` goes up by
        one, and the tree is built. */
    method Render(rt: Runtime) returns (root: Handle)
      modifies rt`registry, this`renderCount
      ensures rt.Valid()
      ensures renderCount == old(renderCount) + 1
      ensures rt.registry == TestTree(count, renderCount)
      ensures root == 4
    {
      rt.ResetForRender();
      renderCount := renderCount + 1;
      ghost var t := TestTree(count, renderCount);
      var h1 := rt.TextElement(Lit("h1"), Lit(GREETING));
      h1 := rt.Class(h1, Lit(HEADING_CLASS));
      var countText := rt.TextElement(Lit("p"), Formatted(COUNT_FORMAT, [IntArg(count)]));
      countText := rt.Class(countText, Lit(COUNT_CLASS));
      assert rt.registry == t[..2];
      var renderText := rt.TextElement(Lit("p"), Formatted(RENDER_COUNT_FORMAT, [IntArg(renderCount)]));
      var button := rt.Button(Lit(BUTTON_TEXT), Some(BUTTON_CALLBACK), NullArgs);
      button := rt.Class(button, Lit(BUTTON_CLASS));
      assert rt.registry == t[..4];
      var kids := VarArgs.CollectChildren([h1, countText, renderText, button]);
      assert kids == [0, 1, 2, 3];
      root := rt.Element(Lit("div"), Some(kids));
      root := rt.Class(root, Lit(ROOT_CLASS));
    }

    /** A host click on element `index`: `invoke_on_click` looks the element
        up (trapping outside the registry); a bound callback runs with its
        argument, and only when it returns is one rerender requested. */
    method Click(rt: Runtime, index: nat) returns (r: Result<(), Trap>)
      requires forall i :: 0 <= i < |rt.registry| ==> rt.registry[i].onClick in {None, Some(BUTTON_CALLBACK)}
      modifies this`count, rt`rerenders
      ensures var target := ClickTarget(rt.registry, index);
              r.Ok? <==> target.Ok? && (target.value.None? || target.value.value.args == NullArgs)
      ensures var target := ClickTarget(rt.registry, index);
              var fired := target.Ok? && target.value.Some? && r.Ok?;
              count == old(count) + (if fired then 1 else 0) && rt.rerenders == old(rt.rerenders) + (if fired then 1 else 0)
    {
      var target := ClickTarget(rt.registry, index);
      if target.Err? {
        return Err(target.error);
      }
      if target.value.None? {
        return Ok(());
      }
      r := ButtonCallback(target.value.value.args);
      if r.Ok? {
        rt.RequestRerender();
      }
    }
  }
}
