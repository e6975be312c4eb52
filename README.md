# zngur C++ generator: a Dafny model

zngur generates the C++ side of a Rust/C++ bridge. `CppFile` describes the
bridge: its types, free functions, trait definitions, exported functions and
exported impls. `zngur-generator/src/cpp.rs` prints a header and an optional
source unit from it. This project models the logic of that file.

- **Paths and types.** `CppPath::from`, `Display`, `name`, `namespace`,
  `need_header`, `from_rust_path` and `emit_in_namespace`. Also
  `split_string` (the comma splitter that respects angle brackets) and
  `CppType::from`/`Display`, with a parse-after-display round trip. Also
  `cpp_handle_keyword` and `cpp_handle_field_name`.
- **Link names and the dispatch table.** `get_link_names`, as a loop proved
  against a list function. The `__zngur_dyn_api` class that `emit_h_file`
  writes (fields and `dlsym` blocks, in one order). What the generated `init`
  does against an abstract library.
- **Per-type decisions.** Which wrappers (`Ref`, `RefMut`, `FieldOwned`,
  `FieldRef`, `FieldRefMut`) declare and define a method. Whether there is a
  drop flag. What `__zngur_internal_size_of` returns. Which generation-time
  panics stop `emit` and `emit_cpp_fn_defs`.
- **The drop-flag protocol.** This is what every non-Copy wrapper does at run
  time.
  - A `Wrapper` class implements it; each method is specified by one step
    function.
  - A trace semantics over many wrappers proves that no Rust value is
    dropped twice, for every C++ program that does not use a wrapper after
    its destructor ran. It also proves that a value is never both held and
    dropped, and never both held and owned by Rust.
  - The generated destructor leaves `drop_flag` set, so running it twice
    would drop twice. The model therefore ends a wrapper's life at its
    destructor: any later use, a second destruction included, is undefined
    behaviour in C++ and is a step the trace semantics refuses.
- **Rendering.**
  - `emit_cpp_file`, as loops writing into the `State` buffer, proved against
    the text they produce.
  - The order of the panics of `emit_h_file`.
  - `render`: the header comes back unchanged when `panic_to_exception` is
    false, and with ` noexcept ` replaced when it is true. The source unit
    comes back exactly when it is needed.

Rust panics (`unwrap`, `assert!`, `panic!`, `todo!`, and `inputs.len() - 1` on
an empty list) are modelled as `Result.Panic(reason)`. The `Reason` datatype
in `base.dfy` names each cause.

`emit_cpp_file` sets `*is_really_needed = true` for each trait definition
(`zngur-generator/src/cpp.rs`, lines 2029-2032), so the source unit looks needed whenever there is one. But `emit_h_file` panics
on any trait definition before `render` reaches `emit_cpp_file`. So a
`render` that returns gives `Some(source)` exactly when there is an
exported function or an exported impl. `Rendering.RenderSource` states the
rule as written, and `Rendering.RenderFile` states this consequence. The
generated `operator=` and the trait-definition `todo!()` follow the code.
In particular, the `todo!()` can never be what stops `render`; see
`Rendering.HeaderNeverTodo`.

## Model

| member | source | states |
|---|---|---|
| Strings.Trim | zngur-generator/src/cpp.rs:63-67 | `str::trim` gives text with no whitespace at either end and no longer than the input |
| Strings.TrimClean | zngur-generator/src/cpp.rs:63-67 | trimming text with no surrounding whitespace changes nothing |
| Strings.TrimTwice | zngur-generator/src/cpp.rs:163-165 | trimming twice is trimming once |
| Strings.TrimPadded | zngur-generator/src/cpp.rs:163-165 | clean text padded with whitespace on both sides trims back to itself |
| Strings.NatToString | zngur-generator/src/cpp.rs:233-235 | `format!("{n}")` is a non-empty string of decimal digits |
| Strings.IndexOf | zngur-generator/src/cpp.rs:166 | the `split_once` search: either no occurrence of the character, or the index of one |
| Strings.ReplaceWithoutOccurrence | zngur-generator/src/cpp.rs:201-205 | `replace` changes nothing when the pattern does not occur |
| Strings.ReplaceShrinks | zngur-generator/src/cpp.rs:201-205 | replacing ` noexcept ` by a space never lengthens the text, and shortens it when there is an occurrence |
| Paths.SplitPath | zngur-generator/src/cpp.rs:66 | `split("::")` gives at least one piece, the pieces joined with `::` give back the input, and no piece holds `::` |
| Paths.SplitJoin | zngur-generator/src/cpp.rs:66 | splitting the `::`-join of colon-free segments gives the segments back |
| Paths.SplitPathPrefix | zngur-generator/src/cpp.rs:66 | a leading colon-free piece stays glued to the first segment |
| Paths.FromStr | zngur-generator/src/cpp.rs:63-68 | `CppPath::from` has at least one segment, its `::`-join is the trimmed input, and its display is `::` before the trimmed input |
| Paths.DisplayTrimmed | zngur-generator/src/cpp.rs:70-74 | a displayed path of whitespace-free segments has nothing to trim |
| Paths.DisplayFromStr | zngur-generator/src/cpp.rs:63-74 | reading back a displayed path gives its segments behind one empty root segment |
| Paths.RootedJoin | zngur-generator/src/cpp.rs:70-74 | the display is the `::`-join of the segments behind an empty root |
| Paths.Name | zngur-generator/src/cpp.rs:35-37 | `name` is the last segment: the namespace followed by the name is the whole path |
| Paths.Namespace | zngur-generator/src/cpp.rs:16-18 | `namespace` is every segment but the last, in order |
| Paths.HandleKeyword | zngur-generator/src/cpp.rs:2103-2109 | `new` and `default` get an underscore, every other name is unchanged, and the result is never a reserved name |
| Paths.HandleKeywordIdempotent | zngur-generator/src/cpp.rs:2103-2109 | renaming a renamed name changes nothing |
| Paths.HandleKeywordCollision | zngur-generator/src/cpp.rs:2103-2109 | `new` and `new_` get the same C++ name |
| Paths.FromRustPath | zngur-generator/src/cpp.rs:46-55 | the path is one segment longer, `rust` comes first, and every Rust segment is keyword-renamed |
| Paths.FromRustPathNeedHeader | zngur-generator/src/cpp.rs:39-55 | a path built by `from_rust_path` needs a forward declaration exactly when it is not `Unit`, `Ref` or `RefMut` |
| Paths.HandleFieldName | zngur-generator/src/cpp.rs:2111-2116 | a name that parses as `u32` gets an `f` in front; any other name is keyword-renamed |
| Paths.DecimalOfNatToString | zngur-generator/src/cpp.rs:2111-2116 | the decimal text of `n` is all digits and reads back as `n` |
| Paths.TupleFieldName | zngur-generator/src/cpp.rs:2111-2116 | tuple field `n` is named `f{n}`, and distinct indices get distinct names |
| Paths.OpenLineBraces | zngur-generator/src/cpp.rs:25-27 | one `namespace p {` line holds one `{` and no `}` |
| Paths.CloseLineBraces | zngur-generator/src/cpp.rs:29-31 | one closing line holds one `}` and no `{` |
| Paths.NamespacesBalance | zngur-generator/src/cpp.rs:20-33 | `emit_in_namespace` opens one brace per namespace segment and closes exactly as many |
| Splitting.Fields | zngur-generator/src/cpp.rs:130-160 | the pieces of the text between depth-0 commas; there is always at least one |
| Splitting.FieldsJoin | zngur-generator/src/cpp.rs:130-160 | putting the dropped commas back between the pieces gives the input |
| Splitting.TopLevelParts | zngur-generator/src/cpp.rs:153-157 | the result is the pieces, minus the last piece only when it is empty |
| Splitting.SplitString | zngur-generator/src/cpp.rs:130-160 | the loop over the characters, with the depth counter, returns exactly `TopLevelParts(input)` |
| Splitting.FieldsConcat | zngur-generator/src/cpp.rs:136-150 | gluing the pieces gives the input with its depth-0 commas removed |
| Splitting.TopLevelConcat | zngur-generator/src/cpp.rs:130-160 | `split_string`'s parts glued in order are the input without the commas it split on |
| Splitting.TopLevelCount | zngur-generator/src/cpp.rs:130-160 | one part per depth-0 comma, plus one unless the text after the last separator is empty |
| Splitting.FieldsCount | zngur-generator/src/cpp.rs:136-150 | there is one piece more than there are depth-0 commas |
| Splitting.FieldsShape | zngur-generator/src/cpp.rs:136-150 | every piece is read without meeting a separator, and every inner piece leaves the depth at 0 |
| Splitting.FieldsAppend | zngur-generator/src/cpp.rs:136-150 | text without a separator extends the first piece |
| Splitting.FieldsNoSeparator | zngur-generator/src/cpp.rs:136-150 | text without a separator is a single piece |
| Splitting.FieldsOfJoin | zngur-generator/src/cpp.rs:130-160 | splitting the comma-join of balanced, separator-free parts gives the parts back |
| Splitting.KeepsInnerEmptyParts | zngur-generator/src/cpp.rs:137-140 | empty middle parts are kept and a trailing empty part is dropped |
| Splitting.NestedCommaKept | zngur-generator/src/cpp.rs:141-148 | a comma inside angle brackets does not split |
| Types.RenderAll | zngur-generator/src/cpp.rs:120-128 | one displayed argument per template argument |
| Types.IntoRef | zngur-generator/src/cpp.rs:83-88 | `into_ref` wraps the type as the single argument of `::rust::Ref` |
| Types.RustRefPath | zngur-generator/src/cpp.rs:85 | `CppPath::from("rust::Ref")` has the segments `rust` and `Ref` |
| Types.ParseWithoutAngle | zngur-generator/src/cpp.rs:166-170 | without a `<` the trimmed text is the path and there are no template arguments |
| Types.ParseTrimmed | zngur-generator/src/cpp.rs:164-178 | the read of trimmed text: no `<` gives a plain path; a successful read has a non-empty path |
| Types.ParseAngled | zngur-generator/src/cpp.rs:171-177 | the read after the first `<` has a non-empty path when it succeeds |
| Types.ParseAll | zngur-generator/src/cpp.rs:175 | reading the parts gives one type per part when it succeeds |
| Types.Reads | zngur-generator/src/cpp.rs:175 | one read per part, in order |
| Types.CollectOk | zngur-generator/src/cpp.rs:175 | `collect` succeeds exactly when every read does, and then keeps each value in place |
| Types.CollectFirstPanic | zngur-generator/src/cpp.rs:175 | a failed `collect` reports the panic of one of the reads |
| Types.ParseAllParts | zngur-generator/src/cpp.rs:175 | reading the arguments succeeds exactly when each part reads, argument `k` is the read of part `k`, and a failure is the panic of the first part that fails |
| Types.Rooted | zngur-generator/src/cpp.rs:63-74 | what reading back a display gives: the same shape with an empty root segment on every path |
| Types.RenderBalanced | zngur-generator/src/cpp.rs:120-128 | a displayed well-formed type closes every bracket it opens and holds no depth-0 comma |
| Types.DisplayPlain | zngur-generator/src/cpp.rs:70-74 | a displayed path of identifiers holds no bracket, comma or whitespace |
| Types.RenderTrimmed | zngur-generator/src/cpp.rs:120-128 | a displayed well-formed type has no whitespace at either end |
| Types.Spaced | zngur-generator/src/cpp.rs:124 | the arguments as `split_string` cuts them out of `< a, b >` |
| Types.SpacedJoin | zngur-generator/src/cpp.rs:124 | `< a, b >` between its brackets is the comma-join of the padded arguments |
| Types.SpacedParts | zngur-generator/src/cpp.rs:124 | each cut-out argument is the displayed argument with a leading blank, and the last one with a trailing blank too |
| Types.ParseTrim | zngur-generator/src/cpp.rs:164 | only the trimmed text matters to `CppType::from` |
| Types.ParseRender | zngur-generator/src/cpp.rs:120-179 | reading back a displayed well-formed type gives the type again, with an empty root segment on every path |
| Types.ParseRenderPlain | zngur-generator/src/cpp.rs:166-170 | the round trip for a type without template arguments |
| Types.SpacedTopLevel | zngur-generator/src/cpp.rs:130-160 | `split_string` cuts the padded argument list back into the padded arguments |
| Types.SpacedFields | zngur-generator/src/cpp.rs:130-160 | the padded argument list splits into the padded arguments at depth 0 |
| Types.ParseRenderArgs | zngur-generator/src/cpp.rs:171-177 | the round trip for a type with template arguments |
| Types.ParseArguments | zngur-generator/src/cpp.rs:171-177 | when each part between the brackets reads as an argument, the type is the path before the `<` with those arguments |
| Types.RenderArgsCut | zngur-generator/src/cpp.rs:166-173 | where `CppType::from` cuts a displayed type: the first `<` ends the path, the text ends with `>`, and the inside splits into the padded arguments |
| Types.RenderArgsText | zngur-generator/src/cpp.rs:120-128 | the displayed text around its first `<` |
| Types.RootedPath | zngur-generator/src/cpp.rs:63-74 | the path read back from a display is the rooted path |
| Types.SpacedBalanced | zngur-generator/src/cpp.rs:130-160 | each cut-out argument is balanced and has no depth-0 comma |
| Types.ParseSpaced | zngur-generator/src/cpp.rs:162-179 | each cut-out argument reads back as the rooted argument |
| Types.RenderInjective | zngur-generator/src/cpp.rs:120-128 | distinct well-formed types are displayed differently |
| Types.RootedInjective | zngur-generator/src/cpp.rs:63-74 | adding the root segment loses nothing |
| Types.ParseMissingClose | zngur-generator/src/cpp.rs:172 | a `<` without a final `>` is the `strip_suffix('>').unwrap()` panic |
| Types.ParseGenerics | zngur-generator/src/cpp.rs:171-177 | with a first `<` and a final `>`, the read is the path before the `<` and one read per `split_string` part |
| Output.State.constructor | zngur-generator/src/cpp.rs:2086-2093 | a fresh buffer is empty and keeps the file's mode |
| Output.State.WriteStr | zngur-generator/src/cpp.rs:208-213 | `write_str` appends and changes nothing else |
| Output.State.PanicHandler | zngur-generator/src/cpp.rs:187-199 | the panic check is empty exactly when `panic_to_exception` is false |
| Output.State.RemoveNoExceptInPanic | zngur-generator/src/cpp.rs:201-205 | in exception mode the text is rewritten by `replace(" noexcept ", " ")`; otherwise it is unchanged |
| Output.State.EmitInNamespace | zngur-generator/src/cpp.rs:20-33 | one `namespace p {` line per namespace segment, the body, then one `}` line per segment |
| Output.RemoveNoExceptLeavesOverlap | zngur-generator/src/cpp.rs:201-205 | the rewrite can leave a marker behind: ` noexcept noexcept ` becomes ` noexcept ` |
| Links.TraitLinkNames | zngur-generator/src/cpp.rs:1585-1598 | Debug contributes its pretty then its debug printer, Drop its `drop_in_place`, Copy and Unsized nothing |
| Links.LayoutLinkNames | zngur-generator/src/cpp.rs:1575-1584 | a heap layout contributes its size, alloc and free functions, in that order; other layouts nothing |
| Links.MethodLinkNames | zngur-generator/src/cpp.rs:1565-1567 | one symbol per method, in order |
| Links.ConstructorLinkNames | zngur-generator/src/cpp.rs:1568-1570 | one symbol per constructor, in order |
| Links.GetLinkNames | zngur-generator/src/cpp.rs:1563-1601 | the pushes give exactly `LinkNames(td)`, and a type with a C++ value is the `assert!` panic |
| Links.PushTraitNames | zngur-generator/src/cpp.rs:1585-1599 | the loop over the well-known traits appends their symbols in order |
| Links.WellknownMember | zngur-generator/src/cpp.rs:1585-1599 | a symbol comes from the well-known traits exactly when one of them contributes it |
| Links.LinkNamesMembers | zngur-generator/src/cpp.rs:1563-1601 | the list holds exactly the method, constructor, layout and well-known-trait symbols |
| Links.LinkNamesOrder | zngur-generator/src/cpp.rs:1563-1601 | method symbols first, then constructor symbols, each in declaration order, then the rest |
| Emission.DeclaredOn | zngur-generator/src/cpp.rs:550-555 | over a list of wrappers, a method is declared on exactly those it is exposed on |
| Emission.DeclaredViews | zngur-generator/src/cpp.rs:530-575 | the declarations in the reference and field specialisations are exactly the wrappers the exposure rule allows |
| Emission.DefinedViews | zngur-generator/src/cpp.rs:1364-1372 | the wrappers `emit_cpp_fn_defs` defines a method on are exactly those it is declared on |
| Emission.PlanMethod | zngur-generator/src/cpp.rs:1070-1101 | every definition has a declaration; a defined member form is declared unless the type is `Unit`; only non-static methods of sized types get one |
| Emission.ViewsOfReceivers | zngur-generator/src/cpp.rs:761-765 | a `&mut self` method never reaches `Ref` or `FieldRef`; a `&self` method reaches all five wrappers; other receivers reach none |
| Emission.HasDropFlag | zngur-generator/src/cpp.rs:943-945 | a drop flag exists only on a class body for a by-value type that is not Copy |
| Emission.FirstDrop | zngur-generator/src/cpp.rs:989-999 | the `find_map` finds the first Drop trait of the list, with no Drop before it, or there is none |
| Emission.OwnerSize | zngur-generator/src/cpp.rs:1127-1154 | no size for a by-reference type; the literal size for a stack layout; exactly `SizeFnCall(size_fn)` for a heap layout, and that symbol is one of the type's link names |
| Emission.RefSize | zngur-generator/src/cpp.rs:826 | `Ref`/`RefMut` of an Unsized type take 16 bytes, of any other type 8 |
| Emission.TypePanic | zngur-generator/src/cpp.rs:866-999 | each panic happens exactly when its condition holds and no earlier check fired: an empty path; a `Bool` whose layout is not stack size 1 align 1; a `Bool` that is not Copy; a non-Copy class body without Drop data. Without a panic, a class body has its Copy marker or its Drop data |
| Emission.UnitIsNotBool | zngur-generator/src/cpp.rs:867-923 | `Unit` is never the `Bool` of the assertions |
| Emission.FnDefsPanic | zngur-generator/src/cpp.rs:1329-1460 | the `todo!()` fires exactly for a type built from a reference to a `Fn` trait; otherwise the subtraction panics exactly when some method with a receiver or a member definition has no input; without a panic every such method has an input to drop |
| Emission.NoTraitsNoTodo | zngur-generator/src/cpp.rs:1329-1331 | without trait definitions the `todo!()` is never reached |
| Emission.DropFlagDropLinked | zngur-generator/src/cpp.rs:989-1027 | a class with a drop flag that did not panic has its `drop_in_place`, and that symbol is in its link names |
| Emission.CopyNeedsNoDrop | zngur-generator/src/cpp.rs:943-999 | a Copy type has no drop flag and never reaches the `unwrap` of its Drop data |
| DynApi.FnDefNames | zngur-generator/src/cpp.rs:1915-1919 | one field per free function, in order |
| DynApi.WriteLines | zngur-generator/src/cpp.rs:1915-1957 | writing a line per name appends the lines in order |
| DynApi.WriteTypeLine | zngur-generator/src/cpp.rs:1920-1928 | one type's fields, or the `get_link_names` panic when it has a C++ value |
| DynApi.WriteTypeLines | zngur-generator/src/cpp.rs:1920-1928 | every type's fields in order; panics exactly when some type has a C++ value |
| DynApi.EmitDynApi | zngur-generator/src/cpp.rs:1905-1966 | `__zngur_dyn_api` is written as `DynApiText` says, or the panic it names |
| DynApi.LinesContain | zngur-generator/src/cpp.rs:1915-1957 | the line of the `k`-th symbol sits right after the lines of the symbols before it, so fields and `dlsym` blocks come in the same order |
| DynApi.TypeLinkNamesMember | zngur-generator/src/cpp.rs:1920-1928 | a symbol is in the types' table exactly when it is a link name of one type |
| DynApi.DispatchNamesContent | zngur-generator/src/cpp.rs:1915-1957 | the table starts with the free functions' symbols in order, then holds exactly the link names of the types |
| DynApi.DynApiTextPanics | zngur-generator/src/cpp.rs:1961-1963 | the class is refused exactly when a type has a C++ value or any trait definition exists, and names which |
| DynApi.FirstMissing | zngur-generator/src/cpp.rs:1950-1957 | the first symbol the library lacks, or proof that it has them all |
| DynApi.InitOutcomes | zngur-generator/src/cpp.rs:1935-1958 | `init` fails exactly when a symbol is missing, with the message naming the first one; otherwise every field is filled |
| DynApi.LoadAllOutcome | zngur-generator/src/cpp.rs:1933-1958 | from an empty table, `init` succeeds exactly when the library resolves every symbol, and the table is then the library on those symbols |
| Protocol.StepSound | zngur-generator/src/cpp.rs:1003-1027 | every wrapper operation on living wrappers keeps each Rust value in at most one place: a living flagged wrapper, the dropped list, or Rust; the destructor keeps the flag and ends the wrapper's life |
| Protocol.StepCount | zngur-generator/src/cpp.rs:1003-1027 | the per-value count across one step, case by case, a destroyed wrapper holding nothing although its flag stays set |
| Protocol.MoveAssignCount | zngur-generator/src/cpp.rs:1016-1027 | move assignment between distinct wrappers drops the old value and moves the new one without duplicating it |
| Protocol.RunSound | zngur-generator/src/cpp.rs:1003-1027 | a whole program that uses no wrapper after its destructor keeps the invariant, only appends to the dropped list, and drops each value at most once |
| Protocol.DroppedIsDead | zngur-generator/src/cpp.rs:1003-1027 | a dropped value is held by no wrapper and not owned by Rust |
| Protocol.StepKeepsDrops | zngur-generator/src/cpp.rs:1003-1027 | no step forgets a drop |
| Protocol.DestroyKeepsFlag | zngur-generator/src/cpp.rs:1004-1009 | `~T()` drops exactly when the flag is set and leaves the flag and buffer as they were, so a second run on the same storage would drop the value again |
| Protocol.DestroyedTakesNoStep | zngur-generator/src/cpp.rs:1004-1009 | after its destructor a wrapper takes no step: destroying, assigning, moving or handing it to Rust again is refused |
| Protocol.MovedFromIsEmpty | zngur-generator/src/cpp.rs:1016-1027 | after a move the source is uninitialised and the destination holds what the source held |
| Protocol.SelfMoveAssign | zngur-generator/src/cpp.rs:1017 | self move-assignment changes nothing |
| Protocol.ToRustTwiceAborts | zngur-generator/src/cpp.rs:1700-1704 | handing one wrapper's value to Rust twice aborts in `check_init` |
| Lifecycle.Rust.constructor | zngur-generator/src/cpp.rs:1003-1027 | Rust starts with the values it owns and has dropped nothing |
| Lifecycle.Rust.DropInPlace | zngur-generator/src/cpp.rs:1006 | `drop_in_place` records the drop |
| Lifecycle.Rust.Receive | zngur-generator/src/cpp.rs:1700-1704 | Rust takes over a value moved out of a buffer |
| Lifecycle.Rust.Give | zngur-generator/src/cpp.rs:1707-1712 | Rust gives up a value it moves into a buffer |
| Lifecycle.Wrapper.constructor | zngur-generator/src/cpp.rs:1003 | a new wrapper is uninitialised |
| Lifecycle.Wrapper.Destroy | zngur-generator/src/cpp.rs:1004-1009 | the destructor is `DestroyStep`: drop the buffer only when the flag is set, leave the flag, end the object's life |
| Lifecycle.Wrapper.MoveAssign | zngur-generator/src/cpp.rs:1016-1027 | nothing on self-assignment; otherwise `MoveAssignStep`: drop a flagged destination, copy the flag and buffer, clear the source flag |
| Lifecycle.Wrapper.MoveFrom | zngur-generator/src/cpp.rs:1012-1015 | move construction is a move assignment into an uninitialised wrapper |
| Lifecycle.Wrapper.CheckInit | zngur-generator/src/cpp.rs:1178-1183 | `check_init` passes exactly when `assume_deinit` would not abort, that is, when the flag is set |
| Lifecycle.Wrapper.AssumeInit | zngur-generator/src/cpp.rs:1186-1188 | `assume_init` sets the flag and leaves the buffer |
| Lifecycle.Wrapper.AssumeDeinit | zngur-generator/src/cpp.rs:1191-1194 | `assume_deinit` aborts on a clear flag and otherwise clears it |
| Lifecycle.Wrapper.MoveToRust | zngur-generator/src/cpp.rs:1700-1704 | the buffer goes to Rust and the wrapper is deinitialised, or the program aborts with nothing changed |
| Lifecycle.MoveFromRust | zngur-generator/src/cpp.rs:1706-1712 | a fresh wrapper, initialised, holding the value Rust gave up |
| Rendering.EmitRustLink | zngur-generator/src/cpp.rs:231-238 | the link signature is written: the head, one `uint8_t* i{n},` per input, then `uint8_t* o)` |
| Rendering.RustLinkCommas | zngur-generator/src/cpp.rs:231-238 | the link signature adds exactly one comma per input to the symbol's own |
| Rendering.LinkParamsCommas | zngur-generator/src/cpp.rs:233-235 | `n` inputs write `n` commas |
| Rendering.WriteForwarder | zngur-generator/src/cpp.rs:2035-2052 | one forwarding function: link signature, call, move of the result to Rust, closing brace |
| Rendering.WriteExportedFn | zngur-generator/src/cpp.rs:2033-2053 | an exported function forwards to `::rust::exported_functions::{name}` |
| Rendering.WriteExportedFns | zngur-generator/src/cpp.rs:2033-2053 | all exported functions in order; needed exactly when it already was or there is one |
| Rendering.WriteImpl | zngur-generator/src/cpp.rs:2056-2079 | each impl method forwards to `::rust::Impl< ty, trait >::name` in order |
| Rendering.WriteImpls | zngur-generator/src/cpp.rs:2054-2080 | all exported impls in order; needed exactly when it already was or there is one |
| Rendering.WriteTraitSignature | zngur-generator/src/cpp.rs:451-455 | a trait method's C signature: the data pointer, one pointer per input, the output |
| Rendering.WriteTraitMethod | zngur-generator/src/cpp.rs:451-479 | one trait method: signature, cast of the buffer, call, move of the result |
| Rendering.WriteTraitCpp | zngur-generator/src/cpp.rs:442-482 | nothing for a `Fn` trait, one function per method for a normal trait |
| Rendering.WriteTraitMethods | zngur-generator/src/cpp.rs:450-480 | the methods of a normal trait in order |
| Rendering.WriteTraits | zngur-generator/src/cpp.rs:2029-2032 | all trait definitions in the map's order; needed exactly when it already was or there is one |
| Rendering.EmitCppFile | zngur-generator/src/cpp.rs:2026-2083 | the source unit is `CppFileText`, and it is needed exactly when there is a trait definition, an exported function or an exported impl |
| Rendering.FirstTypePanic | zngur-generator/src/cpp.rs:1980-1982 | no type's `emit` panics, or the first panicking type's reason with all earlier types passing |
| Rendering.FirstFnDefsPanic | zngur-generator/src/cpp.rs:1983-1985 | the same for `emit_cpp_fn_defs` |
| Rendering.HeaderPanicCases | zngur-generator/src/cpp.rs:1658-2024 | the header is written exactly when no type has a C++ value, there is no trait definition, and every type and free function passes its checks |
| Rendering.HeaderNeverTodo | zngur-generator/src/cpp.rs:1329-1331 | the `todo!()` is never what stops the header, because a trait definition stops it first |
| Rendering.HeaderDropsLinked | zngur-generator/src/cpp.rs:1920-1928 | in a header that is written, every class with a drop flag has its `drop_in_place` in the dispatch table, and every method with a receiver has an input |
| Rendering.EmitHFile | zngur-generator/src/cpp.rs:1658-2024 | `emit_h_file` stops at its first failing check, in source order; otherwise it writes the header with the dispatch table for the file's symbols |
| Rendering.RenderHeader | zngur-generator/src/cpp.rs:2086-2098 | the header, unchanged when `panic_to_exception` is false and with ` noexcept ` replaced when it is true |
| Rendering.RenderSource | zngur-generator/src/cpp.rs:2090-2098 | the source unit is kept exactly when `is_cpp_needed` was set, and it is `CppFileText` |
| Rendering.RenderFile | zngur-generator/src/cpp.rs:2085-2099 | `render` panics exactly when `emit_h_file` does, with the same reason; otherwise it gives the header as `RenderHeader` states, and the source unit exactly when there is an exported function or impl |

## Left out

- Character-exact template bodies of the header are left out: `emit`, `emit_ref_specialization`, `emit_field_specialization`, the Debug printers, the built-in integer specialisations, `emit_header`, the trait `emit`, the `extern "C"` declarations and the prelude. The header is modelled as `before` + dispatch table + `after`, with `before` and `after` given. Per-type emission is modelled as decisions, not text.
- Run-time C++ behaviour beyond the drop flag is left out: `memcpy`, `reinterpret_cast`, heap allocation and free for heap layouts, `std::function`, and `std::cerr`. The abort `while (true) raise(SIGSEGV)` is modelled as a `false` or `None` result.
- The life of a wrapper ends at its destructor. A program that uses a wrapper again afterwards, or destroys it twice, is not modelled beyond the refusal of that step (`Protocol.DestroyedTakesNoStep`), and the methods of `Lifecycle.Wrapper` require a wrapper whose destructor has not run. On such a program the generated `~T()` would drop the value a second time, because it leaves `drop_flag` set (`Protocol.DestroyKeepsFlag`). `RunSound` promises nothing for such programs.
- A wrapper's buffer is a natural number standing for a Rust value. The uninitialised buffer of a fresh wrapper is modelled as 0; it is never dropped, because its flag is clear.
- `dlopen`, `dlsym` and `dlerror` are left out. The library is a map from symbol to address, and `dlerror`'s text is a parameter.
- `zngur_def` types (`RustTrait`, `ZngurField`) and `into_cpp` are left out. Traits are opaque identities and fields are a name and an offset.
- The iteration order of the `HashMap` `trait_defs` is a parameter `order` that lists every key once. Every property holds for every such order; the text of the source unit depends on it.
- Splitting.SplitString: the depth counter is an unbounded integer. The source's `i32` would overflow after 2^31 unmatched `<`.
- `inputs.len() - 1` on a method with a receiver and no inputs is modelled as the panic `ReceiverWithoutInputs`, as in a debug build. A release build would wrap around instead.
- `str::parse::<u32>` is modelled as an optional `+`, then decimal digits, with a value below 2^32.
- The `float_t`/`double_t` handling, the `::rust::Str` literal operator and `cpp_ref`/`cpp_value` accessors are left out; they are text only.
- `remove_no_except_in_panic` is not claimed to remove every ` noexcept `. `Output.RemoveNoExceptLeavesOverlap` shows an input where one remains.
- Concrete examples of `CppType::from` on literal nested text are not stated. The general round trip `Types.ParseRender` and the parse properties cover them.
