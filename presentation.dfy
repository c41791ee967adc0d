/** example/sandor-apps/presentation.c: a six-slide deck. The current slide is
    a `size_t`; four navigation buttons move it, saturating at both ends. */
module Presentation {
  import opened Wrappers
  import opened Traps
  import opened Sandor

  const SLIDE_COUNT: nat := 6

  const ARGS_NULL_ASSERTION: string := "args == NULL"

  /** The four navigation callbacks. */
  datatype Nav = Next | Prev | First | Last

  const NEXT_SLIDE: Callback := Callback(0)
  const PREV_SLIDE: Callback := Callback(1)
  const GOTO_FIRST_SLIDE: Callback := Callback(2)
  const GOTO_LAST_SLIDE: Callback := Callback(3)

  function CallbackOf(n: Nav): Callback {
    match n
    case Next => NEXT_SLIDE
    case Prev => PREV_SLIDE
    case First => GOTO_FIRST_SLIDE
    case Last => GOTO_LAST_SLIDE
  }

  /** The navigation a bound callback stands for. */
  function NavOf(cb: Callback): (n: Nav)
    requires cb.id < 4
    ensures CallbackOf(n) == cb
  {
    if cb.id == 0 then Next else if cb.id == 1 then Prev else if cb.id == 2 then First else Last
  }

  /** The slide a navigation callback leaves behind. */
  function Navigate(current: nat, n: Nav): nat {
    match n
    case Next => if current < SLIDE_COUNT - 1 then current + 1 else current
    case Prev => if current > 0 then current - 1 else current
    case First => 0
    case Last => SLIDE_COUNT - 1
  }

  /** The slide after a run of navigation clicks. */
  function NavigateAll(current: nat, ns: seq<Nav>): nat
    decreases |ns|
  {
    if ns == [] then current else NavigateAll(Navigate(current, ns[0]), ns[1..])
  }

  /** Each callback keeps the slide within [0, SLIDE_COUNT - 1] and moves it
      by at most one step unless it jumps to an end. */
  lemma NavigateInRange(current: nat, n: Nav)
    requires current < SLIDE_COUNT
    ensures Navigate(current, n) < SLIDE_COUNT
    ensures n == Next || n == Prev ==>
              Navigate(current, n) <= current + 1 && current <= Navigate(current, n) + 1
  {
  }

  /** Starting anywhere in [0, 5] (in particular from the initial 0), any
      sequence of the four callbacks stays in [0, 5]. */
  lemma {:induction false} NavigateAllInRange(current: nat, ns: seq<Nav>)
    requires current < SLIDE_COUNT
    ensures NavigateAll(current, ns) < SLIDE_COUNT
    decreases |ns|
  {
    if ns != [] {
      NavigateInRange(current, ns[0]);
      NavigateAllInRange(Navigate(current, ns[0]), ns[1..]);
    }
  }

  /** Every slide in [0, 5] is reachable from 0. */
  lemma {:induction false} EverySlideReachable(target: nat)
    requires target < SLIDE_COUNT
    ensures NavigateAll(0, seq(target, _ => Next)) == target
  {
    var k := 0;
    while k < target
      invariant k <= target
      invariant NavigateAll(0, seq(target, _ => Next)) == NavigateAll(k, seq(target - k, _ => Next))
    {
      assert seq(target - k, _ => Next)[1..] == seq(target - k - 1, _ => Next);
      k := k + 1;
    }
  }

  /** The title and background class of `get_slide(slide_index)`. */
  datatype SlideInfo = SlideInfo(title: string, backgroundClass: string)

  const UNKNOWN_SLIDE: SlideInfo := SlideInfo("Unknown Slide", "bg-base-200")

  /** `get_slide(slide_index)`, its content tree aside. */
  function GetSlide(slideIndex: nat): (s: SlideInfo)
    ensures slideIndex >= SLIDE_COUNT <==> s == UNKNOWN_SLIDE
  {
    if slideIndex == 0 then SlideInfo("\U{1F680} Welcome to Sandor", "bg-gradient-to-br from-primary/20 to-secondary/20")
    else if slideIndex == 1 then SlideInfo("\U{2728} Key Features", "bg-gradient-to-br from-accent/20 to-info/20")
    else if slideIndex == 2 then SlideInfo("\U{1F3D7}\U{FE0F} Architecture", "bg-gradient-to-br from-success/20 to-warning/20")
    else if slideIndex == 3 then SlideInfo("\U{1F4BB} Example Component", "bg-gradient-to-br from-neutral/20 to-base-300/30")
    else if slideIndex == 4 then SlideInfo("\U{1F3AF} Why Choose Sandor?", "bg-gradient-to-br from-secondary/20 to-primary/20")
    else if slideIndex == 5 then SlideInfo("\U{1F64F} Thank You!", "bg-gradient-to-br from-primary/20 via-accent/15 to-secondary/20")
    else UNKNOWN_SLIDE
  }

  const DISABLED_CLASS: string := "btn btn-circle btn-disabled opacity-50"
  const COUNTER_CLASS: string := "mx-6 text-lg font-bold text-base-content bg-base-100 bg-opacity-80 px-4 py-2 rounded-full"
  const ROW_CLASS: string := "flex items-center justify-center gap-3"
  const NAVIGATION_CLASS: string :=
    "fixed bottom-8 left-1/2 transform -translate-x-1/2 bg-base-100 bg-opacity-95 backdrop-blur-lg rounded-2xl px-8 py-4 shadow-2xl border border-base-content border-opacity-10"

  /** The classes `slide_navigation` gives its four buttons, in the order
      first, previous, next, last. */
  function NavClasses(current: nat): (classes: seq<string>)
    ensures |classes| == 4
    ensures (classes[0] == DISABLED_CLASS) == (current == 0)
    ensures (classes[1] == DISABLED_CLASS) == (current == 0)
    ensures (classes[2] == DISABLED_CLASS) == (current >= SLIDE_COUNT - 1)
    ensures (classes[3] == DISABLED_CLASS) == (current >= SLIDE_COUNT - 1)
  {
    [ if current == 0 then DISABLED_CLASS else "btn btn-circle btn-primary",
      if current == 0 then DISABLED_CLASS else "btn btn-circle btn-secondary",
      if current >= SLIDE_COUNT - 1 then DISABLED_CLASS else "btn btn-circle btn-secondary",
      if current >= SLIDE_COUNT - 1 then DISABLED_CLASS else "btn btn-circle btn-primary" ]
  }

  class PresentationApp {
    var currentSlide: nat

    constructor ()
      ensures currentSlide == 0
    {
      currentSlide := 0;
    }

    /** `next_slide`, `prev_slide`, `goto_first_slide` and
        `goto_last_slide`: each traps unless `args` is NULL, otherwise moves
        the slide as `Navigate` says. */
    method Navigation(n: Nav, args: Args) returns (r: Result<(), Trap>)
      modifies this
      ensures r.Err? <==> args != NullArgs
      ensures currentSlide == (if r.Ok? then Navigate(old(currentSlide), n) else old(currentSlide))
    {
      if args != NullArgs {
        return Err(AssertionFailed(ARGS_NULL_ASSERTION));
      }
      match n {
        case Next =>
          if currentSlide < SLIDE_COUNT - 1 {
            currentSlide := currentSlide + 1;
          }
        case Prev =>
          if currentSlide > 0 {
            currentSlide := currentSlide - 1;
          }
        case First =>
          currentSlide := 0;
        case Last =>
          currentSlide := SLIDE_COUNT - 1;
      }
      r := Ok(());
    }

    /** A host click on element `index`: `invoke_on_click` traps outside the
        registry; a bound navigation callback runs, and only when it returns
        is one rerender requested. */
    method Click(rt: Runtime, index: nat) returns (r: Result<(), Trap>)
      requires forall i :: 0 <= i < |rt.registry| && rt.registry[i].onClick.Some? ==> rt.registry[i].onClick.value.id < 4
      modifies this, rt`rerenders
      ensures var target := ClickTarget(rt.registry, index);
              r.Ok? <==> target.Ok? && (target.value.None? || target.value.value.args == NullArgs)
      ensures var target := ClickTarget(rt.registry, index);
              var fired := target.Ok? && target.value.Some? && r.Ok?;
              currentSlide == (if fired then Navigate(old(currentSlide), NavOf(target.value.value.callback)) else old(currentSlide))
              && rt.rerenders == old(rt.rerenders) + (if fired then 1 else 0)
    {
      var target := ClickTarget(rt.registry, index);
      if target.Err? {
        return Err(target.error);
      }
      if target.value.None? {
        return Ok(());
      }
      r := Navigation(NavOf(target.value.value.callback), target.value.value.args);
      if r.Ok? {
        rt.RequestRerender();
      }
    }

    /** The start of `render_component`: `get_slide(current_slide)` is taken
        first, then `slide_content` resets an out-of-range slide to 0. A slide
        index of 6 or more therefore renders "Unknown Slide" once, with the
        navigation already showing slide 0. */
    method BeginRender() returns (slide: SlideInfo)
      modifies this
      ensures slide == GetSlide(old(currentSlide))
      ensures currentSlide == (if old(currentSlide) >= SLIDE_COUNT then 0 else old(currentSlide))
      ensures currentSlide < SLIDE_COUNT
    {
      slide := GetSlide(currentSlide);
      if currentSlide >= SLIDE_COUNT {
        currentSlide := 0;
      }
    }

    /** `slide_navigation()`: four buttons and a counter inside two `div`s.
        Each button stays bound to its callback with a NULL argument whether
        or not its class marks it disabled. */
    method SlideNavigation(rt: Runtime) returns (root: Handle)
      requires rt.Valid()
      modifies rt`registry
      ensures rt.Valid()
      ensures root == old(|rt.registry|) + 6
      ensures |rt.registry| == old(|rt.registry|) + 7
      ensures Extends(rt.registry, old(rt.registry))
      ensures forall k :: 0 <= k < 4 ==>
                NavButtonBound(rt.registry[NavButton(old(|rt.registry|), k)], NavOrder(k), NavClasses(currentSlide)[k])
      ensures CounterText(rt.registry[old(|rt.registry|) + 2], Counter(currentSlide))
      ensures ClassedDivOf(rt.registry[root - 1], NavRowHandles(old(|rt.registry|)), ROW_CLASS)
      ensures ClassedDivOf(rt.registry[root], [root - 1], NAVIGATION_CLASS)
    {
      var classes := NavClasses(currentSlide);
      var counter := Counter(currentSlide);
      ghost var base := |rt.registry|;
      var row := NavRow(rt, classes, counter);
      ghost var buttons := rt.registry;
      root := NavFrame(rt, row);
      forall k | 0 <= k < 4
        ensures NavButtonBound(rt.registry[NavButton(base, k)], NavOrder(k), classes[k])
      {
        assert rt.registry[NavButton(base, k)] == buttons[NavButton(base, k)];
      }
      assert rt.registry[base + 2] == buttons[base + 2];
    }
  }

  /** The five children of the navigation row: first and previous buttons,
      the `span` counter, next and last buttons, in that order. */
  method NavRow(rt: Runtime, classes: seq<string>, counter: Str) returns (row: seq<Handle>)
    requires rt.Valid() && |classes| == 4
    modifies rt`registry
    ensures rt.Valid()
    ensures |rt.registry| == old(|rt.registry|) + 5
    ensures Extends(rt.registry, old(rt.registry))
    ensures row == NavRowHandles(old(|rt.registry|))
    ensures forall k :: 0 <= k < 4 ==>
              NavButtonBound(rt.registry[NavButton(old(|rt.registry|), k)], NavOrder(k), classes[k])
    ensures CounterText(rt.registry[old(|rt.registry|) + 2], counter)
  {
    var base := |rt.registry|;
    var first := ClassedButton(rt, First, classes[0]);
    var prev := ClassedButton(rt, Prev, classes[1]);
    ghost var r2 := rt.registry;
    var span := ClassedText(rt, Lit("span"), counter, COUNTER_CLASS);
    assert CounterText(rt.registry[span], counter);
    var next := ClassedButton(rt, Next, classes[2]);
    var last := ClassedButton(rt, Last, classes[3]);
    assert NavButtonBound(r2[base], First, classes[0]);
    assert NavButtonBound(rt.registry[base], First, classes[0]);
    assert NavButtonBound(rt.registry[base + 1], Prev, classes[1]);
    assert CounterText(rt.registry[base + 2], counter);
    row := VarArgs.CollectChildren([first, prev, span, next, last]);
  }

  /** The two `div`s around the navigation row: the row `div` holding `row`,
      then the outer `div` holding only the row `div`. */
  method NavFrame(rt: Runtime, row: seq<Handle>) returns (root: Handle)
    requires rt.Valid()
    requires forall c :: c in row ==> c < |rt.registry|
    modifies rt`registry
    ensures rt.Valid()
    ensures root == old(|rt.registry|) + 1 && |rt.registry| == root + 1
    ensures Extends(rt.registry, old(rt.registry))
    ensures ClassedDivOf(rt.registry[root - 1], row, ROW_CLASS)
    ensures ClassedDivOf(rt.registry[root], [root - 1], NAVIGATION_CLASS)
  {
    var inner := ClassedDiv(rt, row, ROW_CLASS);
    ghost var rows := rt.registry;
    var outer := VarArgs.CollectChildren([inner]);
    assert outer == [inner];
    root := ClassedDiv(rt, outer, NAVIGATION_CLASS);
    assert rt.registry[inner] == rows[inner];
  }

  const FIRST_ICON: string := "\U{23EE}"
  const PREV_ICON: string := "\U{25C0}"
  const NEXT_ICON: string := "\U{25B6}"
  const LAST_ICON: string := "\U{23ED}"
  /** The icon `slide_navigation` shows on the button of `n`. */
  function IconOf(n: Nav): string {
    match n
    case First => FIRST_ICON
    case Prev => PREV_ICON
    case Next => NEXT_ICON
    case Last => LAST_ICON
  }

  const COUNTER_FORMAT: string := "%zu / %d"

  /** A navigation button as `slide_navigation` builds it: bound to the
      callback of `n` with a NULL argument, and carrying class `cls`. */
  predicate NavButtonBound(e: ElementRec, n: Nav, cls: string) {
    e.tag == Lit("button") && e.text == Chars(Lit(IconOf(n)))
    && e.onClick == Some(CallbackOf(n)) && e.onClickArgs == NullArgs
    && e.attributes == Some([Attribute(Lit("class"), Lit(cls))])
  }

  /** The navigation counter as `slide_navigation` builds it: a text
      element with no callback, holding `counter` and carrying its class. */
  predicate CounterText(e: ElementRec, counter: Str) {
    e.tag == Lit("span") && e.text == Chars(counter) && e.onClick.None?
    && e.attributes == Some([Attribute(Lit("class"), Lit(COUNTER_CLASS))])
  }

  /** The counter's text, `"%zu / %d"` of the one-based slide number and
      the slide count. */
  function Counter(current: nat): Str {
    Formatted(COUNTER_FORMAT, [IntArg(current + 1), IntArg(SLIDE_COUNT)])
  }

  /** A `div` holding exactly `children` and carrying class `cls`. */
  predicate ClassedDivOf(e: ElementRec, children: seq<Handle>, cls: string) {
    e.tag == Lit("div") && e.children == Some(children) && e.attributes == Some([Attribute(Lit("class"), Lit(cls))])
  }

  /** `class(button(icon, callback, NULL), cls)` for the button of `n`. */
  method ClassedButton(rt: Runtime, n: Nav, cls: string) returns (h: Handle)
    requires rt.Valid()
    modifies rt`registry
    ensures rt.Valid()
    ensures h == old(|rt.registry|) && |rt.registry| == h + 1
    ensures Extends(rt.registry, old(rt.registry))
    ensures NavButtonBound(rt.registry[h], n, cls)
  {
    h := rt.Button(Lit(IconOf(n)), Some(CallbackOf(n)), NullArgs);
    h := rt.Class(h, Lit(cls));
  }

  /** `class(text_element(tag, text), cls)`: a text element with no callback. */
  method ClassedText(rt: Runtime, tag: Str, text: Str, cls: string) returns (h: Handle)
    requires rt.Valid()
    modifies rt`registry
    ensures rt.Valid()
    ensures h == old(|rt.registry|) && |rt.registry| == h + 1
    ensures Extends(rt.registry, old(rt.registry))
    ensures rt.registry[h].tag == tag && rt.registry[h].text == Chars(text) && rt.registry[h].onClick.None?
    ensures rt.registry[h].attributes == Some([Attribute(Lit("class"), Lit(cls))])
  {
    h := rt.TextElement(tag, text);
    h := rt.Class(h, Lit(cls));
  }

  /** `class(element("div", children), cls)`. */
  method ClassedDiv(rt: Runtime, children: seq<Handle>, cls: string) returns (h: Handle)
    requires rt.Valid()
    requires forall c :: c in children ==> c < |rt.registry|
    modifies rt`registry
    ensures rt.Valid()
    ensures h == old(|rt.registry|) && |rt.registry| == h + 1
    ensures Extends(rt.registry, old(rt.registry))
    ensures ClassedDivOf(rt.registry[h], children, cls)
  {
    h := rt.Element(Lit("div"), Some(children));
    h := rt.Class(h, Lit(cls));
  }

  /** The handles of the navigation row's five children, registered from
      `base` on. */
  function NavRowHandles(base: nat): (row: seq<Handle>)
    ensures |row| == 5 && forall k :: 0 <= k < 5 ==> row[k] == base + k
  {
    [base, base + 1, base + 2, base + 3, base + 4]
  }

  /** The navigation buttons in registry order: first, previous, next, last. */
  function NavOrder(k: nat): Nav {
    if k == 0 then First else if k == 1 then Prev else if k == 2 then Next else Last
  }

  /** Where `slide_navigation` registers button `k` (the counter sits between
      the second and third). */
  function NavButton(base: nat, k: nat): nat {
    if k < 2 then base + k else base + k + 1
  }
}
