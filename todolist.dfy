/** example/sandor-apps/todolist.c: a to-do list. Its globals are the list
    `todos`, the `input_text` buffer the input's change handler fills, and the
    `has_error` flag that styles the input. */
module TodoList {
  import opened Wrappers
  import opened Traps
  import opened Sandor
  import opened CString

  datatype Todo = Todo(text: string, completed: bool)

  /** The application's callbacks. */
  const ADD_TODO: Callback := Callback(0)
  const TOGGLE_TODO: Callback := Callback(1)
  const ON_CHANGE: Callback := Callback(2)

  const ARGS_NULL_ASSERTION: string := "args == NULL"
  const ARGS_NON_NULL_ASSERTION: string := "args != NULL"

  const DONE_MARK: string := "\U{2705}"
  const OPEN_MARK: string := "\U{274C}"
  const INPUT_CLASS: string := "input"
  const INPUT_ERROR_CLASS: string := "input input-error"
  const TOGGLE_CLASS: string := "btn ml-2"
  const ROW_FORMAT: string := "%s: %s"

  /** The class `render_component` gives the input. */
  function InputClass(hasError: bool): (cls: string)
    ensures (cls == INPUT_ERROR_CLASS) == hasError
    ensures (cls == INPUT_CLASS) == !hasError
  {
    if hasError then INPUT_ERROR_CLASS else INPUT_CLASS
  }

  /** The three elements `todo_list` registers for todo `i` when the list
      itself is at `h`: a `span` with the todo's text and mark, a Toggle
      button whose argument holds `i`, and the `li` holding both. */
  function TodoRow(t: Todo, i: nat, h: nat): seq<ElementRec> {
    [ Fresh(Lit("span"), None, h + 1 + 3 * i).(
        text := Chars(Formatted(ROW_FORMAT, [StrArg(t.text), StrArg(if t.completed then DONE_MARK else OPEN_MARK)]))),
      Fresh(Lit("button"), Some([]), h + 2 + 3 * i).(
        text := Chars(Lit("Toggle")), onClick := Some(TOGGLE_TODO), onClickArgs := Boxed(i),
        attributes := Some([Attribute(Lit("class"), Lit(TOGGLE_CLASS))])),
      Fresh(Lit("li"), Some([h + 1 + 3 * i, h + 2 + 3 * i]), h + 3 + 3 * i) ]
  }

  /** The rows of the first `n` todos, in list order. */
  function TodoRows(todos: seq<Todo>, h: nat, n: nat): (rows: seq<ElementRec>)
    requires n <= |todos|
    ensures |rows| == 3 * n
  {
    if n == 0 then [] else TodoRows(todos, h, n - 1) + TodoRow(todos[n - 1], n - 1, h)
  }

  /** The `li` elements of the first `n` rows. */
  function Items(h: nat, n: nat): seq<Handle> {
    seq(n, i => h + 3 + 3 * i)
  }

  /** The `ul` at `h` with the rows of the first `n` todos. */
  function ListTree(todos: seq<Todo>, h: nat, n: nat): seq<ElementRec>
    requires n <= |todos|
  {
    [Fresh(Lit("ul"), Some(Items(h, n)), h)] + TodoRows(todos, h, n)
  }

  /** Row `i` sits at positions `3i .. 3i+2` of the rows. */
  lemma {:induction false} TodoRowsAt(todos: seq<Todo>, h: nat, n: nat, i: nat)
    requires i < n <= |todos|
    ensures TodoRows(todos, h, n)[3 * i..3 * i + 3] == TodoRow(todos[i], i, h)
    decreases n
  {
    if i < n - 1 {
      TodoRowsAt(todos, h, n - 1, i);
      assert TodoRows(todos, h, n)[..3 * (n - 1)] == TodoRows(todos, h, n - 1);
    }
  }

  /** After `todo_list()` registered its list at `h`, element `h + 2 + 3i` is
      the Toggle button of todo `i`, and a click on it fires `toggle_todo`
      with an argument holding `i`. */
  lemma ToggleButtonDispatch(reg: seq<ElementRec>, todos: seq<Todo>, h: nat, i: nat)
    requires |reg| >= h && reg[h..] == ListTree(todos, h, |todos|)
    requires i < |todos|
    ensures ClickTarget(reg, h + 2 + 3 * i) == Ok(Some(Binding(TOGGLE_TODO, Boxed(i))))
  {
    TodoRowsAt(todos, h, |todos|, i);
    assert reg[h + 2 + 3 * i] == reg[h..][2 + 3 * i];
    assert TodoRows(todos, h, |todos|)[3 * i + 1] == TodoRows(todos, h, |todos|)[3 * i..3 * i + 3][1];
  }

  /** One iteration of `todo_list`'s loop before `add_children`: the `span`,
      the classed Toggle button bound to `toggle_todo` with `i`, and the `li`
      holding both, registered at `h + 1 + 3i` onwards. */
  method AppendRow(rt: Runtime, todo: Todo, i: nat, h: nat) returns (li: Handle)
    requires rt.Valid() && |rt.registry| == h + 1 + 3 * i
    modifies rt`registry
    ensures rt.Valid()
    ensures li == h + 3 + 3 * i
    ensures rt.registry == old(rt.registry) + TodoRow(todo, i, h)
  {
    var span := rt.TextElement(Lit("span"),
      Formatted(ROW_FORMAT, [StrArg(todo.text), StrArg(if todo.completed then DONE_MARK else OPEN_MARK)]));
    var button := rt.Button(Lit("Toggle"), Some(TOGGLE_TODO), Boxed(i));
    button := rt.Class(button, Lit(TOGGLE_CLASS));
    var kids := VarArgs.CollectChildren([span, button]);
    assert kids == [span, button];
    li := rt.Element(Lit("li"), Some(kids));
  }

  class TodoApp {
    var todos: seq<Todo>
    var hasError: bool
    const inputText: array<char>

    /** `input_text` always holds a NUL-terminated string. */
    ghost predicate Valid()
      reads this, inputText
    {
      inputText.Length == INPUT_BUFFER_CAPACITY && NUL in inputText[..]
    }

    /** The string in `input_text`. */
    function InputValue(): string
      reads this, inputText
      requires Valid()
    {
      CStr(inputText[..])
    }

    /** The zero-initialised globals. */
    constructor ()
      ensures Valid() && fresh(inputText)
      ensures todos == [] && !hasError && InputValue() == ""
    {
      todos := [];
      hasError := false;
      inputText := new char[INPUT_BUFFER_CAPACITY](_ => NUL);
      new;
      assert inputText[..][0] == NUL;
    }

    /** `on_change(text)`: copies the text into `input_text` (a text that
        does not fit traps), sets `has_error` exactly when it is empty, and
        requests a rerender. */
    method OnChange(text: seq<char>, rt: Runtime) returns (r: Result<(), Trap>)
      requires Valid() && NUL in text
      modifies inputText, this`hasError, rt`rerenders
      ensures r.Ok? <==> StrLen(text) < INPUT_BUFFER_CAPACITY
      ensures r.Ok? ==> Valid() && InputValue() == CStr(text)
      ensures r.Ok? ==> hasError == (CStr(text) == "") && rt.rerenders == old(rt.rerenders) + 1
      ensures r.Err? ==> hasError == old(hasError) && rt.rerenders == old(rt.rerenders)
    {
      r := Copy(text, inputText, INPUT_BUFFER_CAPACITY);
      if r.Err? {
        return;
      }
      ghost var n := StrLen(text);
      assert inputText[..] == CStr(text) + [NUL] + inputText[n + 1..];
      CStrOfTerminated(CStr(text), inputText[n + 1..]);
      hasError := inputText[0] == NUL;
      assert hasError == (n == 0);
      rt.RequestRerender();
    }

    /** `add_todo(args)`: traps unless `args` is NULL. With an empty input
        it only sets `has_error`; otherwise it appends a not-completed todo
        holding a copy of the input and empties the input, leaving
        `has_error` as it was. */
    method AddTodo(args: Args) returns (r: Result<(), Trap>)
      requires Valid()
      modifies this`todos, this`hasError, inputText
      ensures Valid()
      ensures r.Err? <==> args != NullArgs
      ensures r.Err? ==> todos == old(todos) && hasError == old(hasError) && inputText[..] == old(inputText[..])
      ensures r.Ok? && old(InputValue()) == "" ==>
                hasError && todos == old(todos) && inputText[..] == old(inputText[..])
      ensures r.Ok? && old(InputValue()) != "" ==>
                todos == old(todos) + [Todo(old(InputValue()), false)]
                && InputValue() == "" && hasError == old(hasError)
    {
      if args != NullArgs {
        return Err(AssertionFailed(ARGS_NULL_ASSERTION));
      }
      if inputText[0] == NUL {
        hasError := true;
        return Ok(());
      }
      var todo := Todo(InputValue(), false);
      inputText[0] := NUL;
      assert inputText[..][0] == NUL;
      todos := todos + [todo];
      r := Ok(());
    }

    /** `toggle_todo(args)`: traps on a NULL `args`; otherwise flips
        `completed` of the todo whose index the argument holds and changes
        nothing else. The index is not checked: one outside the list is
        undefined behaviour, which callers must rule out. */
    method ToggleTodo(args: Args) returns (r: Result<(), Trap>)
      requires args.Boxed? ==> args.word < |todos|
      modifies this`todos
      ensures r.Err? <==> args == NullArgs
      ensures r.Err? ==> todos == old(todos)
      ensures r.Ok? ==> |todos| == |old(todos)|
      ensures r.Ok? ==> forall k :: 0 <= k < |todos| && k != args.word ==> todos[k] == old(todos)[k]
      ensures r.Ok? ==> todos[args.word].text == old(todos)[args.word].text
                        && todos[args.word].completed == !old(todos)[args.word].completed
      ensures r.Ok? ==> todos == old(todos)[args.word := old(todos)[args.word].(completed := !old(todos)[args.word].completed)]
    {
      if args == NullArgs {
        return Err(AssertionFailed(ARGS_NON_NULL_ASSERTION));
      }
      var i := args.word;
      todos := todos[i := todos[i].(completed := !todos[i].completed)];
      r := Ok(());
    }

    /** `todo_list()`: a `ul` with one `li` per todo in list order; the i-th
        Toggle button's argument holds `i`. */
    method BuildTodoList(rt: Runtime) returns (h: Handle)
      requires rt.Valid()
      modifies rt`registry
      ensures rt.Valid()
      ensures h == old(|rt.registry|)
      ensures rt.registry == old(rt.registry) + ListTree(todos, h, |todos|)
    {
      var empty := VarArgs.CollectChildren([]);
      h := rt.Element(Lit("ul"), Some(empty));
      assert Items(h, 0) == [];
      for i := 0 to |todos|
        invariant rt.Valid()
        invariant rt.registry == old(rt.registry) + ListTree(todos, h, i)
      {
        var li := AppendRow(rt, todos[i], i, h);
        rt.AddChildren(h, [li]);
        assert Items(h, i) + [li] == Items(h, i + 1);
      }
    }

    /** A host click on element `index`: `invoke_on_click` traps outside the
        registry; a bound callback runs with its argument, and only when it
        returns is one rerender requested. */
    method Click(rt: Runtime, index: nat) returns (r: Result<(), Trap>)
      requires Valid()
      requires forall i :: 0 <= i < |rt.registry| ==> rt.registry[i].onClick in {None, Some(ADD_TODO), Some(TOGGLE_TODO)}
      requires forall i :: 0 <= i < |rt.registry| && rt.registry[i].onClick == Some(TOGGLE_TODO) ==>
                 rt.registry[i].onClickArgs.Boxed? ==> rt.registry[i].onClickArgs.word < |todos|
      modifies this`todos, this`hasError, inputText, rt`rerenders
      ensures Valid()
      ensures var target := ClickTarget(rt.registry, index);
              r.Ok? <==> target.Ok? && (target.value.None?
                                        || (target.value.value.callback == ADD_TODO) == (target.value.value.args == NullArgs))
      ensures var target := ClickTarget(rt.registry, index);
              rt.rerenders == old(rt.rerenders) + (if r.Ok? && target.value.Some? then 1 else 0)
      ensures r.Err? ==> todos == old(todos) && hasError == old(hasError) && inputText[..] == old(inputText[..])
      ensures var target := ClickTarget(rt.registry, index);
              target.Err? || target.value.None? ==>
                todos == old(todos) && hasError == old(hasError) && inputText[..] == old(inputText[..])
      ensures var target := ClickTarget(rt.registry, index);
              r.Ok? && target.value.Some? && target.value.value.callback == ADD_TODO ==>
                if old(InputValue()) == "" then
                  hasError && todos == old(todos) && inputText[..] == old(inputText[..])
                else
                  todos == old(todos) + [Todo(old(InputValue()), false)]
                  && InputValue() == "" && hasError == old(hasError)
      ensures var target := ClickTarget(rt.registry, index);
              r.Ok? && target.value.Some? && target.value.value.callback == TOGGLE_TODO ==>
                var w := target.value.value.args.word;
                todos == old(todos)[w := old(todos)[w].(completed := !old(todos)[w].completed)]
                && hasError == old(hasError) && inputText[..] == old(inputText[..])
    {
      var target := ClickTarget(rt.registry, index);
      if target.Err? {
        return Err(target.error);
      }
      if target.value.None? {
        return Ok(());
      }
      var binding := target.value.value;
      if binding.callback == ADD_TODO {
        r := AddTodo(binding.args);
      } else {
        r := ToggleTodo(binding.args);
      }
      if r.Ok? {
        rt.RequestRerender();
      }
    }

    /** A host change on element `index` with the text it staged at
        `valuePtr`: `invoke_on_change` traps outside the registry; a bound
        `on_change` copies the text and requests a rerender, and
        `invoke_on_change` then requests another, so one change yields two
        requests. */
    method Change(rt: Runtime, index: nat, valuePtr: nat, text: seq<char>) returns (r: Result<(), Trap>)
      requires Valid() && NUL in text
      requires forall i :: 0 <= i < |rt.registry| ==> rt.registry[i].onChange in {None, Some(ON_CHANGE)}
      modifies inputText, this`hasError, rt`rerenders
      ensures var target := ChangeTarget(rt.registry, index, valuePtr);
              r.Ok? <==> target.Ok? && (target.value.None? || StrLen(text) < INPUT_BUFFER_CAPACITY)
      ensures var target := ChangeTarget(rt.registry, index, valuePtr);
              rt.rerenders == old(rt.rerenders) + (if r.Ok? && target.value.Some? then 2 else 0)
      ensures var target := ChangeTarget(rt.registry, index, valuePtr);
              r.Ok? && target.value.Some? ==> Valid() && InputValue() == CStr(text) && hasError == (CStr(text) == "")
      ensures var target := ChangeTarget(rt.registry, index, valuePtr);
              target.Err? || target.value.None? ==> inputText[..] == old(inputText[..]) && hasError == old(hasError)
    {
      var target := ChangeTarget(rt.registry, index, valuePtr);
      if target.Err? {
        return Err(target.error);
      }
      if target.value.None? {
        return Ok(());
      }
      r := OnChange(text, rt);
      if r.Ok? {
        rt.RequestRerender();
      }
    }
  }
}
