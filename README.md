# sandor, modelled in Dafny

sandor is a small C framework that builds a web user interface inside a
WebAssembly module. An application's `render_component` builds a tree of
`Element` records in a per-render arena. Every element is stamped with its
position in a global registry, `r_elements`. A TypeScript host reads the tree
out of linear memory and turns it into DOM nodes. Clicks and input changes come
back into the module as registry indices through `invoke_on_click` and
`invoke_on_change`.

This project models:

- **The runtime in `sandor.h`** (module `Sandor`). The class `Runtime` holds
  the registry, the `input_arena` cursor and a count of `platform_rerender()`
  requests. An `Element*` is its registry index. The element constructors,
  `_children`, `_add_children`, `_attributes`, the render reset, dispatch,
  `get_input_buffer` and `get_element_layout` are modelled. The variadic loops
  are in `VarArgs`.
- **`copy`** (module `CString`). It is modelled both as written and corrected.
- **The predecessor runtime in `wasm/wasm-component.h`** (module
  `LegacyRuntime`). It has no registry, dispatches by pointer and ends
  `add_children` at a NULL sentinel.
- **The bump allocator and byte loops of `wasm/low_budget_memory.c`** (module
  `LowBudgetMemory`), with 32-bit `size_t` arithmetic written out.
- **The host decoders** over linear memory, which is a byte sequence read as
  little-endian words (modules `LinearMemory` and `HostMemory`):
  - `example/src/wasm-component.ts` in module `ExampleHost`;
  - `src/wasm-component.ts` in module `LegacyHost`;
  - `src/hello-wasm-component.ts` in module `HelloHost`.
- **The packed struct reader of `src/structs.ts`** (module `Structs`) and the
  schemas of `src/definitions.ts` (module `Definitions`).
- **Three applications** driven by dispatch:
  - the click counter of `examples/test.c` (module `TestApp`);
  - the slide deck of `example/sandor-apps/presentation.c` (module
    `Presentation`);
  - the to-do list of `example/sandor-apps/todolist.c` (module `TodoList`).

Modelling choices:

- A trap (`__builtin_trap()` after a failed `ASSERT`) is the `Err` side of a
  `Result`, carrying the asserted condition.
- A thrown host exception is an `Err(HostError)`.
- Callbacks are opaque tags, `Callback(id)`.
- A `void*` callback argument is `NullArgs`, or `Boxed(word)` for a pointer to
  a one-word record.
- Text produced by `arena_sprintf` is kept as its format string and arguments.

Registry order is construction order. Arguments are evaluated before the call,
so children get lower indices than their parent. ISO/IEC 9899:2011, section
6.5.2.2, leaves the order of argument evaluation unspecified. The model assumes
left to right, which fixes the order of siblings.

The runtime in `sandor.h` and the decoder in `example/src/wasm-component.ts`
are modelled each against its own text, and no agreement between them is
claimed. The runtime publishes a 9-word layout for an untagged `Element`: an
element is a button exactly when `on_click` is non-NULL. The decoder expects a
14-word table, a type discriminant 0..3 and a `get_layout_word_size` export,
none of which the runtime provides. The older pair does agree, and
`LegacyHost.LegacyLayoutAgrees` and `LegacyHost.ChildrenLayoutAgrees` prove it. Their layout follows ISO/IEC
9899:2011, section 6.7.2.1 (members at increasing addresses in declaration
order), with 4-byte pointers and `size_t` on wasm32.

## Model

| member | source | states |
|---|---|---|
| CString.StrLen | sandor.h:57 | the index of the first NUL; no NUL occurs before it |
| CString.CStrOfTerminated | sandor.h:57-63 | a NUL-free string followed by NUL reads back as itself |
| CString.CopyAsWritten | sandor.h:54-64 | what `copy` as written stores from `dst[0]` reads back as the source string and is up to `max_len + 1` characters long, so its NUL can reach `dst[max_len]` |
| CString.RunCopyAsWritten | sandor.h:54-64 | the source loop, run on a buffer with a cell past `max_len`, traps or stores exactly as `CopyAsWritten` says and changes nothing after the NUL; a source of exactly `max_len` characters puts its NUL at `dst[max_len]`; on a trap the first `max_len` characters were copied |
| CString.CopyStores | sandor.h:54-64 | the corrected copy stores a string that reads back as the source and never reaches `dst[max_len]` |
| CString.CopyAgreement | sandor.h:54-64 | the copy as written and the corrected copy agree exactly when the source is not `max_len` characters long; at `max_len` the first stores and the second traps |
| CString.CopyAsWrittenOverruns | sandor.h:58-63 | a source of exactly `max_len` characters passes every check and puts the NUL at `dst[max_len]` |
| CString.Copy | sandor.h:54-64 | corrected `copy`: traps iff the string and its NUL do not fit in `max_len`; on success `dst` holds what `CopyStores` says, string plus NUL, and nothing after it changes; on a trap the first `max_len` characters were copied |
| VarArgs.CollectChildren | sandor.h:145-161 | `_children(n, e1..en)` holds exactly the n arguments in argument order; the older runtime's `_children` at wasm/wasm-component.h:71-86 runs the same loop and is modelled by the same method |
| VarArgs.FirstNull | wasm/wasm-component.h:91 | the position of the first NULL argument; every argument before it is non-NULL |
| VarArgs.TakeUntilNull | wasm/wasm-component.h:88-95 | the NULL-terminated loop collects the arguments before the first NULL, in order, and nothing after |
| CLayout.OffsetsFromBounds | sandor.h:294-305 | each member's offset is where the previous member ends, and it lies inside the structure |
| CLayout.LayoutOrdered | sandor.h:85-94 | members occupy disjoint, increasing byte ranges in declaration order, all inside `sizeof` |
| CLayout.WordLayout | sandor.h:294-305 | in a structure made only of 4-byte words, member k is at offset 4k and `sizeof` is 4 times the member count |
| CLayout.Table | sandor.h:294-307 | the offsets followed by `sizeof` has one entry more than the members, and entry k is 4k when every member is a 4-byte word |
| CLayout.WordOffsetOf | sandor.h:296-303 | in such a structure, `offsetof` of the first member with a given name, at position k, is 4k |
| CLayout.IndexOf | sandor.h:296-303 | the position of the first member with the given name, and no earlier member has it |
| Sandor.ClickTarget | sandor.h:264-272 | `invoke_on_click`'s lookup traps iff not `count > 0 && index < count`; it fires iff `on_click` is bound, with `on_click_args` |
| Sandor.ChangeTarget | sandor.h:275-283 | `invoke_on_change`'s lookup has the same trap, fires iff `on_change` is bound, and passes the host's value pointer through unchanged |
| Sandor.ElementFieldsAreWords | sandor.h:85-94 | all eight members of `struct Element` are one 4-byte word on wasm32; `on_click` is the fourth and `index` the seventh |
| Sandor.GetElementLayout | sandor.h:294-307 | on wasm32 the table has 9 entries and entry k is 4k (0, 4, …, 28, then `sizeof` 32), so the offsets strictly increase |
| Sandor.Runtime.constructor | sandor.h:112-113 | the zero-initialised globals: an empty registry and arena cursor |
| Sandor.Runtime.Element | sandor.h:202-219 | a fresh record with every pointer NULL, stamped `index = count`, appended to the registry; the registry invariant `registry[i].index == i` holds |
| Sandor.Runtime.Button | sandor.h:221-230 | registers exactly one `button` element with empty children and only `text`, `on_click` and `on_click_args` set |
| Sandor.Runtime.TextElementEmpty | sandor.h:234-241 | one element with NULL children and an uninitialised 256-byte text block |
| Sandor.Runtime.TextElement | sandor.h:243-250 | one element with NULL children and a copy of the text |
| Sandor.Runtime.AddChildren | sandor.h:164-172 | appends the arguments to the parent's children in order; no element is registered and nothing else changes |
| Sandor.Runtime.SetAttributes | sandor.h:176-200 | traps on an odd count before touching the element; otherwise replaces its attributes with exactly the count/2 (name, value) pairs in argument order and returns the same element |
| Sandor.Runtime.Class | sandor.h:175 | `class(e, v)` sets the single attribute `class = v` and returns `e` |
| Sandor.Runtime.ResetForRender | sandor.h:255-258 | the registry is emptied before the application renders |
| Sandor.Runtime.RequestRerender | sandor.h:110 | one more rerender request |
| Sandor.Runtime.InvokeOnClick | sandor.h:264-272 | traps out of range; when `on_click` is bound it returns the binding and one rerender is requested, otherwise nothing changes |
| Sandor.Runtime.InvokeOnChange | sandor.h:275-283 | the same for `on_change`, with the value pointer unchanged |
| Sandor.Runtime.GetInputBuffer | sandor.h:285-290 | a new 4096-byte block at the cursor every call; the cursor only grows |
| Sandor.RegisteredAppend | sandor.h:215-216 | appending a record stamped with the old count keeps `registry[i].index == i` |
| Sandor.InputBuffers | sandor.h:285-290 | n successive calls hand out n blocks |
| Sandor.InputBuffersDisjoint | sandor.h:285-290 | the k-th block starts k·4096 bytes after the first, so no block is reused |
| LegacyRuntime.LegacyRuntime.constructor | wasm/wasm-component.h:49 | the empty arena at start-up |
| LegacyRuntime.LegacyRuntime.Element | wasm/wasm-component.h:97-108 | a new record with the `type` pointer and NULL `text`, `on_click` and `on_click_args` |
| LegacyRuntime.LegacyRuntime.Button | wasm/wasm-component.h:110-119 | `element("button", empty children)` with `text`, `on_click` and `on_click_args` from the arguments |
| LegacyRuntime.LegacyRuntime.TextElementEmpty | wasm/wasm-component.h:123-130 | NULL children and an uninitialised 256-byte text block |
| LegacyRuntime.LegacyRuntime.TextElement | wasm/wasm-component.h:132-139 | NULL children and a copy of the text |
| LegacyRuntime.LegacyRuntime.AddChildren | wasm/wasm-component.h:88-95 | appends the arguments before the first NULL to the parent's children, in order, and excludes the NULL |
| LegacyRuntime.LegacyRuntime.ResetForRender | wasm/wasm-component.h:143-148 | the arena is reset before the application renders |
| LegacyRuntime.LegacyRuntime.InvokeOnClick | wasm/wasm-component.h:150-156 | no bounds or registry check; fires `on_click(args)` and rerenders iff `on_click` is non-NULL |
| LowBudgetMemory.MallocAsWritten | wasm/low_budget_memory.c:8-18 | `malloc` as written, in 32-bit `size_t`: NULL and no change iff the wrapped sum exceeds the pool, otherwise the old offset, with the offset advanced modulo 2^32 |
| LowBudgetMemory.MallocWrapAround | wasm/low_budget_memory.c:10 | from offset 16 a size of 2^32−8 passes the test, returns offset 16 and moves the offset back to 8 |
| LowBudgetMemory.MallocStep | wasm/low_budget_memory.c:10-17 | corrected `malloc`: NULL and no change iff offset + size exceeds 8 MB, otherwise the old offset and an advance by exactly `size`; the offset stays within the pool |
| LowBudgetMemory.MallocAgreesWithoutWrap | wasm/low_budget_memory.c:10 | without wrap-around the written test and the corrected one agree |
| LowBudgetMemory.AllocationsContiguous | wasm/low_budget_memory.c:15-17 | two successive allocations are adjacent and disjoint |
| LowBudgetMemory.MallocRun | wasm/low_budget_memory.c:5-18 | a run of allocations never moves the offset backwards or past the pool |
| LowBudgetMemory.MallocRunDisjoint | wasm/low_budget_memory.c:5-18 | any two blocks of a run are disjoint, in allocation order |
| LowBudgetMemory.MallocRunBounds | wasm/low_budget_memory.c:5-18 | every block of a run lies between the start and the final offset |
| LowBudgetMemory.Pool.Malloc | wasm/low_budget_memory.c:8-18 | the allocator's state follows `MallocStep`; `memory_offset` never decreases |
| LowBudgetMemory.Memcpy | wasm/low_budget_memory.c:20-29 | `dest[i] = src[i]` for i < n, returns `dest`, nothing outside `dest[0..n)` changes |
| LowBudgetMemory.Memset | wasm/low_budget_memory.c:31-39 | every byte of `s[0..n)` is `(unsigned char)c`, returns `s`, nothing else changes |
| LinearMemory.ReadU8 | src/structs.ts:77 | `getUint8` succeeds iff the address is in memory |
| LinearMemory.ReadU32 | src/structs.ts:68 | `getUint32(addr, true)` succeeds iff four bytes fit |
| LinearMemory.DecodeEncode | example/src/wasm-component.ts:387 | decoding the little-endian bytes of a word gives the word back |
| LinearMemory.ReadAfterWrite | example/src/wasm-component.ts:387 | a word written reads back at the same address |
| LinearMemory.ReadAfterOtherWrite | example/src/wasm-component.ts:387 | a write leaves every non-overlapping word unchanged |
| HostMemory.CStringFrom | example/src/wasm-component.ts:518-524 | the bytes up to, not including, the first 0; it fails with RangeError iff no 0 lies before the end of memory |
| HostMemory.ReadCString | example/src/wasm-component.ts:513-525 | `readString` throws on address 0; otherwise it returns the bytes before the first 0 (the older host's `readString`, lines 128-140 of src/wasm-component.ts, behaves the same) |
| HostMemory.ReadString | example/src/wasm-component.ts:513-525 | the byte-collecting loop returns exactly `ReadCString` |
| HostMemory.WrittenString | example/src/wasm-component.ts:527-538 | the bytes at `bufferPtr..`, a 0 after them, and nothing else changed |
| HostMemory.WriteString | example/src/wasm-component.ts:527-538 | `writeString` returns `bufferPtr` and leaves memory as `WrittenString` iff it fits; there is no capacity check, and a write past the end throws RangeError |
| HostMemory.CStringFromRun | example/src/wasm-component.ts:521-523 | a run of non-zero bytes followed by 0 reads back as that run |
| HostMemory.WriteThenRead | example/src/wasm-component.ts:513-538 | `readString(writeString(s, p)) == s` for a NUL-free `s` and non-null `p` |
| HostMemory.ReadWords | example/src/wasm-component.ts:195-218 | n words at a stride; succeeds iff the last one fits, and word i is the word at `base + i·stride` |
| HostMemory.ReadPointerArray | example/src/wasm-component.ts:504-511 | `readDynamicPointerArray`: `count` words from the items pointer at +8, the count at +0; a misaligned or out-of-range view throws (the older host's copy, lines 119-126 of src/wasm-component.ts, behaves the same) |
| HostMemory.ReadOptionalString | example/src/wasm-component.ts:392-395 | a string field decoded only when its pointer is non-zero |
| ExampleHost.ReadLayout | example/src/wasm-component.ts:173-218 | the offsets table has 14 entries; entry i is the word at `layoutPtr + i·wordSize` |
| ExampleHost.ReadEntry | example/src/wasm-component.ts:410-414 | an attribute's key pointer is at +0 and its value pointer at +4, both read as C strings |
| ExampleHost.ReadEntries | example/src/wasm-component.ts:407-416 | on success, one key/value pair per entry, in array order, each the decoding of its entry; on failure, the error of the first entry that cannot be decoded |
| ExampleHost.AttributeKeys | example/src/wasm-component.ts:408-416 | the attribute map's keys are exactly the keys of the pairs read, except `__proto__`, whose assignment the prototype setter ignores |
| ExampleHost.LastWriteWins | example/src/wasm-component.ts:408-416 | a key other than `__proto__` maps to the value of the last entry that names it; an earlier entry with the same key is overwritten |
| ExampleHost.ReadAttributes | example/src/wasm-component.ts:404-407 | attributes are decoded only for a non-zero pointer |
| ExampleHost.ReadVariant | example/src/wasm-component.ts:419-501 | types 0..3 read generic, button, input and canvas fields at the union address plus the variant's offset; any other type throws; handlers carry the element's `id` and are no-ops for a zero callback |
| ExampleHost.ReadElement | example/src/wasm-component.ts:382-502 | with no fuel left the decoding fails with `OutOfFuel` |
| ExampleHost.ReadElementFields | example/src/wasm-component.ts:382-502 | a decoded element's `id`, `text`, `children`, `attributes` and variant come from the words at the layout's offsets, each decoded by its own reader |
| ExampleHost.ReadChildren | example/src/wasm-component.ts:397-402 | children are decoded only for a non-zero pointer, each recursively |
| ExampleHost.ReadElements | example/src/wasm-component.ts:401 | a successful decoding has one child per array entry |
| ExampleHost.ReadElementsAt | example/src/wasm-component.ts:401 | child i of the result is the decoding of array entry i |
| ExampleHost.ReadElementFuel | example/src/wasm-component.ts:382-502 | more fuel never changes a successful decoding |
| ExampleHost.ExampleComponent.Init | example/src/wasm-component.ts:173-218 | the instance is stored and the offsets become the layout table iff it can be read |
| ExampleHost.ExampleComponent.Render | example/src/wasm-component.ts:243-344 | `init_component` runs only while `initialized` is false; the result is `readElement` of the root; `initialized` becomes true after a successful render into a parent |
| ExampleHost.ExampleComponent.Destroy | example/src/wasm-component.ts:221-241 | the instance and offsets are dropped and `initialized` is cleared |
| LegacyHost.ReadLegacyElement | src/wasm-component.ts:87-117 | with no fuel left the decoding fails with `OutOfFuel`; `onClick` exists iff the word at +12 is non-zero, and then targets the element's own address |
| LegacyHost.ReadLegacyElementFields | src/wasm-component.ts:87-106 | a decoded element's tag, text and children come from the words at +0, +4 and +8, each decoded by its own reader |
| LegacyHost.ReadLegacyChildren | src/wasm-component.ts:101-106 | children are decoded only for a non-zero pointer, as the decoding of the pointer array's entries |
| LegacyHost.ReadLegacyElements | src/wasm-component.ts:105 | a successful decoding has one child per array entry |
| LegacyHost.ReadLegacyElementsAt | src/wasm-component.ts:105 | child i of the result is the decoding of array entry i |
| LegacyRuntime.LegacyFieldsAreWords | wasm/wasm-component.h:33-45 | every member of the legacy `Element` and of `Children` is one 4-byte word, in declaration order `type`, `text`, `children`, `on_click` and `count`, `capacity`, `items` |
| LegacyHost.LegacyLayoutAgrees | wasm/wasm-component.h:39-45 | the host's offsets 0/4/8/12 are where wasm32 places `type`, `text`, `children` and `on_click` |
| LegacyHost.ChildrenLayoutAgrees | wasm/wasm-component.h:33-37 | the array header the host reads has `count` at +0 and `items` at +8, where wasm32 places them in `Children` |
| LegacyHost.ReadAfterWriteRecord | src/wasm-component.ts:90-109 | a record stored word by word at separated offsets reads back word by word |
| LegacyHost.LegacyRecordRoundTrip | src/wasm-component.ts:90-109 | a legacy `Element` laid out by the compiler decodes field by field at the host's offsets |
| HelloHost.ReadSizedString | src/hello-wasm-component.ts:63-72 | a length word at +0 and a data pointer at +4; exactly `length` bytes from the data pointer, no NUL scan |
| HelloHost.ReadHelloElement | src/hello-wasm-component.ts:51-61 | the tag pointer at +0 and the text pointer at +4, both read unconditionally |
| HelloHost.SizedStringRoundTrip | src/hello-wasm-component.ts:63-72 | a `{length, data}` pair reads back as the bytes it describes |
| HelloHost.EmbeddedZeroKept | src/hello-wasm-component.ts:69-71 | an embedded 0 byte is kept |
| Structs.ReadU16 | src/structs.ts:71-75 | `getUint16` succeeds iff two bytes fit |
| Structs.ReadPrimitive | src/structs.ts:55-81 | succeeds iff the primitive fits; `__size` is the primitive's size; `bool` is true iff the byte is non-zero; integers are little-endian |
| Structs.ReadValueSize | src/structs.ts:27-53 | the `__size` of a read is `getStructTotalSize` of its definition |
| Structs.ReadMembersSize | src/structs.ts:89-104 | after k members the size is the size of those members; the address has moved past them for a struct and stays at the base for a union |
| Structs.ReadStructSize | src/structs.ts:83-108 | `readStructValueAtAddress(..).__size == getStructTotalSize(definition)` |
| Structs.MembersSizeMonotone | src/structs.ts:31-40 | the first k members never take more room than all of them |
| Structs.MemberFits | src/structs.ts:31-40 | a struct member ends within the struct; every member fits in the whole |
| Structs.ReadValueTotal | src/structs.ts:83-108 | reading never fails when the whole definition lies in memory |
| Structs.ReadMembersFields | src/structs.ts:98-105 | one entry per member name; a name's entry is the last member with that name, read at base plus the sizes of the earlier members (struct) or at base (union) |
| Structs.ReadMembersKeys | src/structs.ts:105 | the keys are exactly the member names |
| Definitions.ColorAndStringSizes | src/definitions.ts:17-33 | color totals 16 and string 8 |
| Definitions.BorderAndCornerRadiusSizes | src/definitions.ts:35-51 | border totals 20 and cornerRadius 16 |
| Definitions.RectangleConfigSize | src/definitions.ts:53-62 | rectangle config totals 41 |
| Definitions.BorderConfigSize | src/definitions.ts:64-74 | border config totals 116 |
| Definitions.TextConfigSize | src/definitions.ts:76-87 | text config totals 29, not a multiple of 4 |
| Definitions.SmallConfigSizes | src/definitions.ts:89-116 | scroll, image and custom configs total 2, 20 and 4 |
| Definitions.RenderCommandLayout | src/definitions.ts:118-136 | render command totals 36 with `config` at 16, `text` at 20, `id` at 28 and `commandType` at 32 |
| Definitions.FlatSchemasHavePlainNames | src/definitions.ts:17-116 | color, string, cornerRadius, scroll and custom configs name no member `__size` or `__proto__` |
| Definitions.NestedSchemasHavePlainNames | src/definitions.ts:35-74 | border, the rectangle config and the border config name no member `__size` or `__proto__` at any depth |
| Definitions.CommandSchemasHavePlainNames | src/definitions.ts:76-136 | text and image configs and the render command name no member `__size` or `__proto__` at any depth |
| TestApp.TestTreeShape | examples/test.c:15-26 | the rendered registry satisfies the registry invariant; the root `div` has the `h1`, the two `p`s and the button as children, in order |
| TestApp.TestTreeDispatch | examples/test.c:21 | index 3 fires `button_callback` with NULL; any other index below 5 is a no-op; from 5 on it traps |
| TestApp.TestApp.constructor | examples/test.c:3-4 | both counters start at 0 |
| TestApp.TestApp.ButtonCallback | examples/test.c:6-9 | traps unless `args` is NULL, otherwise adds exactly 1 to `count` |
| TestApp.TestApp.Render | examples/test.c:11-26 | `render_count` goes up by exactly 1 and the registry is h1=0, p=1, p=2, button=3, div=4 |
| TestApp.TestApp.Click | examples/test.c:6-9 | a click counts once and requests one rerender iff it hits the button with NULL args; out of range traps |
| Presentation.NavOf | example/sandor-apps/presentation.c:127-149 | the navigation a bound callback stands for |
| Presentation.NavigateInRange | example/sandor-apps/presentation.c:127-149 | each callback keeps the slide in [0, 5] and moves it at most one step unless it jumps to an end |
| Presentation.NavigateAllInRange | example/sandor-apps/presentation.c:4-12 | from any slide in [0, 5], any sequence of callbacks stays in [0, 5] |
| Presentation.EverySlideReachable | example/sandor-apps/presentation.c:127-132 | every slide is reachable from 0 |
| Presentation.GetSlide | example/sandor-apps/presentation.c:19-125 | "Unknown Slide" exactly for an index of 6 or more |
| Presentation.NavClasses | example/sandor-apps/presentation.c:158-162 | first and prev are disabled iff the slide is 0; next and last iff it is at least 5 |
| Presentation.PresentationApp.Navigation | example/sandor-apps/presentation.c:127-149 | each callback traps unless `args` is NULL, otherwise moves the slide as `Navigate` says |
| Presentation.PresentationApp.Click | example/sandor-apps/presentation.c:127-149 | a click navigates and requests one rerender iff it hits a bound button with NULL args |
| Presentation.PresentationApp.BeginRender | example/sandor-apps/presentation.c:171-174 | the slide is taken before `slide_content` resets an out-of-range index to 0 |
| Presentation.PresentationApp.SlideNavigation | example/sandor-apps/presentation.c:151-169 | registers 7 elements with the root last and leaves earlier elements untouched; the four records at the button positions are `button`s showing ⏮ ◀ ▶ ⏭, bound to their callbacks with NULL args whatever their class; the counter is a `span` holding `"%zu / %d"` of the one-based slide and 6, with its class; the row record is a `div` holding exactly the five row handles; the root is a `div` holding only the row `div`; both carry their classes |
| Presentation.NavRow | example/sandor-apps/presentation.c:157-163 | registers the row's five children in order (first, previous, counter, next, last) and returns their handles; each button is a `button` showing its icon, bound to its callback with a NULL argument and carrying its class; the counter is a `span` with the given text, no callback and its class |
| Presentation.NavFrame | example/sandor-apps/presentation.c:152-169 | registers a `div` holding exactly the given row and then a root `div` holding only the first, each with its class, leaving earlier elements untouched |
| Presentation.ClassedButton | example/sandor-apps/presentation.c:158 | `class(button(icon, cb, NULL), cls)` registers one `button` showing the navigation's icon, bound to its callback with NULL args and carrying the class; earlier elements are untouched |
| Presentation.ClassedText | example/sandor-apps/presentation.c:160 | `class(text_element(tag, text), cls)` registers one element with that tag and text, no callback and that class |
| Presentation.ClassedDiv | example/sandor-apps/presentation.c:154-156 | `class(element("div", children), cls)` registers one record tagged `div` holding exactly those children, with that class |
| TodoList.InputClass | example/sandor-apps/todolist.c:82-85 | "input input-error" iff `has_error`, else "input" |
| TodoList.TodoRows | example/sandor-apps/todolist.c:65-75 | three records per todo |
| TodoList.TodoRowsAt | example/sandor-apps/todolist.c:65-75 | the records of todo i sit at positions 3i..3i+2 |
| TodoList.ToggleButtonDispatch | example/sandor-apps/todolist.c:66-72 | after `todo_list`, a click on the i-th Toggle button fires `toggle_todo` with an argument holding i |
| TodoList.TodoApp.constructor | example/sandor-apps/todolist.c:15-19 | no todos, no error, an empty input |
| TodoList.TodoApp.OnChange | example/sandor-apps/todolist.c:20-29 | copies the text into `input_text` with the corrected `copy`, so a text of 4096 characters or more traps; `has_error` iff it is empty; one rerender request |
| TodoList.TodoApp.AddTodo | example/sandor-apps/todolist.c:31-49 | traps unless `args` is NULL; an empty input only sets `has_error`; otherwise one not-completed todo with a copy of the input is appended and the input emptied, `has_error` untouched |
| TodoList.TodoApp.ToggleTodo | example/sandor-apps/todolist.c:55-60 | traps on NULL `args`; otherwise flips only `completed` of the indexed todo |
| TodoList.AppendRow | example/sandor-apps/todolist.c:66-73 | one loop iteration registers the todo's `span`, its classed Toggle button bound to `toggle_todo` with an argument holding i, and the `li` holding both, at the next three handles |
| TodoList.TodoApp.BuildTodoList | example/sandor-apps/todolist.c:62-78 | a `ul` followed by one span, Toggle button and `li` per todo, in order; the i-th button's argument holds i |
| TodoList.TodoApp.Click | example/sandor-apps/todolist.c:31-60 | a click runs the bound callback and requests one rerender iff it succeeds; an `add_todo` click leaves the state `AddTodo` gives, a `toggle_todo` click with argument w flips exactly `completed` of todo w, and a no-op or trapping click leaves `todos`, `has_error` and `input_text` unchanged |
| TodoList.TodoApp.Change | example/sandor-apps/todolist.c:20-29 | a change runs `on_change` and then `invoke_on_change` requests another rerender: two requests per change; it fails iff the index is out of range, or a handler is bound and the text does not fit with its NUL in the 4096-byte buffer; with the index out of range or no handler bound, `input_text` and `has_error` are unchanged |

## Left out

- arena.h is not part of this model. `arena_alloc`, `arena_reset`, `arena_da_append` and `arena_strdup` are modelled only by their effect: registry and sequence appends, plus a bump cursor for `input_arena`. The bytes of `r_arena`, growth factors and alignment are not modelled.
- Objects allocated in `r_arena` (Children, Attributes, callback argument records, strings) are values inside the registry records. An `Element*` shared by two parents, or a `Children*` aliased between elements, is not modelled.
- `stb_sprintf`, `printf` and `arena_sprintf` are a foreign library. Formatted text is kept as its format string and arguments.
- The `platform_*` imports are the host's. Only `platform_rerender` is recorded, as a counter.
- `Sandor.Runtime.Element` copies `type` with `arena_strdup`, while `LegacyRuntime.LegacyRuntime.Element` stores the pointer. Both hold the string value, so the difference is not visible in the model.
- `input()` and `canvas()` are not defined in `sandor.h`, so no modelled code binds `on_change`. For the same reason, the `input` element of the to-do list's `render_component` is not built. Only its class choice (`TodoList.InputClass`) is modelled.
- The rest of the to-do list's `render_component`, and the slide deck's `get_slide` content trees, `slide_content` and `render_component` trees are not built. Their callbacks, the navigation tree and the slide clamp are modelled.
- `TestApp.TestApp.ButtonCallback` and `TestApp.TestApp.Render`: `count` and `render_count` are C `int`, and their overflow (undefined behaviour) is not modelled.
- State after a trap: a trapped module is dead, so the model says nothing about `TodoList.TodoApp.Valid` after `OnChange` traps.
- `TodoList.TodoApp.OnChange` uses the corrected `copy` (`CString.Copy`): a text of exactly 4096 characters traps in the model. As written, the source stores it, writes its NUL one byte past `input_text`, clears `has_error` and requests a rerender. That write lands in whatever follows `input_text` in the C layout, which the model does not have.
- `TodoList.TodoApp.Change` inherits the same difference through `OnChange`: a 4096-character text fails here and succeeds with two rerender requests as written.
- `ExampleHost.ReadAttributes` reads the attribute entries from current memory. The host reads them through `memoryDataView`, which it caches at init (example/src/wasm-component.ts:170, 411-412). After `memory.grow` that view is detached and the reads throw. The element and variant words are read through a fresh view, so only attributes are affected. Memory growth is not modelled.
- `TodoList.TodoApp.ToggleTodo` requires the argument's index to be inside the list. C does no bounds check, so an index outside the list is undefined behaviour.
- Host DOM work is left out: `renderElement`, morphdom, the debug button, animation-frame scheduling, `readCanvasFromMemory` and the canvas hand-off. These are browser APIs.
- `Structs.ReadMembers`, `Structs.ReadStructSize`, `Structs.ReadMembersFields` and `Structs.ReadMembersKeys` keep the size apart from the fields. In the source both live in one object, so a member named `__size` would overwrite the size, and a member named `__proto__` would go to the prototype setter. The model does not capture this. `Structs.PlainNames` states the condition under which the two agree, and the `Definitions.*HavePlainNames` lemmas prove that every schema meets it.
- UTF-8 decoding and encoding by TextDecoder and TextEncoder are left out. Host strings are byte sequences. `ExampleHost.Assign` compares attribute keys as bytes. Two keys that decode to the same string, such as a key with a leading byte-order mark or two keys with different invalid bytes, are distinct in the model but one key in the host.
- The float case of `readPrimitiveValueAtAddress` keeps the raw 32-bit pattern. Floating point is not modelled.
- Clay rendering (`src/clay-canvas-renderer.ts`, `wasm/hello.c`), `cube.h`, `dvd.h` and `canvas.c` are left out. They involve a foreign layout library, floating-point drawing and pixel buffers.
- `wasm/test.c` and `wasm/todolist.c` are left out. They call functions their header does not define.
- Build and shell files are not modelled: both `nob.c` files, both `vite.config.ts` files, `src/hello.ts`, `wasm-shell-component.ts`, `app-switcher.ts`, `wasm-test-component.ts` and `assert-value.ts`.
- `ExampleHost.ReadElement`, `ExampleHost.ReadChildren`, `ExampleHost.ReadElements`, `LegacyHost.ReadLegacyElement`, `LegacyHost.ReadLegacyChildren` and `LegacyHost.ReadLegacyElements` take a `fuel` bound on the nesting depth. A tree deeper than the fuel, or a cyclic one on which the host would recurse until the stack overflows, yields `OutOfFuel`.
- `ExampleHost.ExampleComponent.Init` takes the results of `get_element_layout` and `get_layout_word_size` as parameters. The module's memory after `render_component` is a parameter of `Render`.
- `HostMemory.ReadPointerArray` reads the items of a `Uint32Array` as little-endian, which is the byte order of every platform the host runs on.
- `LowBudgetMemory.Memcpy` requires the two regions to be disjoint, as section 7.24.2.1 of ISO/IEC 9899:2011 does. The forward loop's result on overlapping regions is not modelled.
- `CLayout` covers only word-sized members, which is all the runtime's structures have. Padding for smaller members is not modelled.
- The agreement of `sandor.h` with `example/src/wasm-component.ts` is not asserted, because the two texts disagree (see above).

## Findings

| source | as written | input that shows it | evidently intended | confidence | as-written member | corrected member |
|---|---|---|---|---|---|---|
| sandor.h:54-64 | `copy` checks `i < max_len` only before each character, then writes the NUL at `dst[len]` | a source of exactly `max_len` characters, e.g. a 4096-character text given to the to-do list's `on_change`: the NUL lands at `input_text[4096]`, one past the buffer | nothing is written at or beyond `dst[max_len]`, so a source that fits only without its NUL traps | not executed | CString.CopyAsWrittenOverruns | CString.Copy |
| wasm/low_budget_memory.c:10 | the bound test `memory_offset + size > MEMORY_POOL_SIZE` is computed in 32-bit `size_t` and can wrap | `memory_offset` 16 and `size` 2^32−8: the sum wraps to 8, the test passes, 16 is returned and the offset moves back to 8 | refuse any size that does not fit in the rest of the pool | not executed | LowBudgetMemory.MallocWrapAround | LowBudgetMemory.MallocStep |
