/** The variadic-argument loops shared by both runtimes: each reads its
    arguments with `va_arg` in order and appends them to an arena-backed
    dynamic array. An argument list is a sequence in argument order. */
module VarArgs {
  import opened Wrappers

  /** `_children(count, e1, ..., en)`: a Children list built by appending each
      argument in turn (sandor.h and wasm/wasm-component.h run the same loop). */
  method CollectChildren(args: seq<nat>) returns (items: seq<nat>)
    ensures |items| == |args|
    ensures forall k :: 0 <= k < |args| ==> items[k] == args[k]
  {
    items := [];
    for i := 0 to |args|
      invariant items == args[..i]
    {
      items := items + [args[i]];
    }
  }

  /** Position of the first NULL in an argument list. */
  function FirstNull(args: seq<Option<nat>>): (n: nat)
    requires None in args
    ensures n < |args| && args[n] == None
    ensures forall k :: 0 <= k < n ==> args[k].Some?
    decreases |args|
  {
    if args[0] == None then 0 else 1 + FirstNull(args[1..])
  }

  /** The arguments before the first NULL. */
  function NonNullPrefix(args: seq<Option<nat>>): (items: seq<nat>)
    requires None in args
  {
    seq(FirstNull(args), k requires 0 <= k < FirstNull(args) => args[k].value)
  }

  /** The NULL-terminated loop of wasm/wasm-component.h's `add_children`:
      the arguments before the first NULL, in order; the NULL and everything
      after it are not read. */
  method TakeUntilNull(args: seq<Option<nat>>) returns (items: seq<nat>)
    requires None in args
    ensures |items| == FirstNull(args)
    ensures forall k :: 0 <= k < |items| ==> args[k] == Some(items[k])
  {
    items := [];
    var i := 0;
    while args[i] != None
      invariant i <= FirstNull(args)
      invariant |items| == i
      invariant forall k :: 0 <= k < i ==> args[k] == Some(items[k])
      decreases FirstNull(args) - i
    {
      items := items + [args[i].value];
      i := i + 1;
    }
  }
}
