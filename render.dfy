/**
  `CppFile::emit_cpp_file` and `CppFile::render`: the source unit that
  forwards Rust's calls of exported functions and impl methods to C++, the
  order of the panics that stop the header, and what `render` hands back.
 */
module Rendering {
  import opened Base
  import opened Strings
  import opened Types
  import opened Model
  import opened Links
  import opened Output
  import opened Emission
  import opened DynApi

  // The text of `emit_cpp_file`.

  /** One input of `emit_rust_link`: `uint8_t* i{n},`. */
  function LinkParam(n: nat): string {
    "uint8_t* i" + NatToString(n) + ","
  }

  /** The inputs `0 .. n` of `emit_rust_link`. */
  function LinkParams(n: nat): string
    decreases n
  {
    if n == 0 then "" else LinkParams(n - 1) + LinkParam(n - 1)
  }

  /** The opening of `emit_rust_link`. */
  function LinkHead(sig: FnSig): string {
    "void " + sig.rustLinkName + "("
  }

  /** `CppFnSig::emit_rust_link`: the C signature Rust calls, one byte
      pointer per input and one for the output. */
  function RustLink(sig: FnSig): string {
    LinkHead(sig) + LinkParams(|sig.inputs|) + "uint8_t* o)"
  }

  /** Input `n` of type `ty`, moved out of the Rust buffer `i{n}`. */
  function MoveFromRust(ty: CppType, n: nat): string {
    "::rust::__zngur_internal_move_from_rust< " + Render(ty) + " >(i" + NatToString(n) + ")"
  }

  /** The arguments of a forwarded call, separated by `, `. */
  function MoveFromArgs(inputs: seq<CppType>): string {
    Join(seq(|inputs|, n requires 0 <= n < |inputs| => MoveFromRust(inputs[n], n)), ", ")
  }

  const MoveToRustLine: string := "   ::rust::__zngur_internal_move_to_rust(o, oo);\n"

  /** The line calling the C++ side with the moved inputs. */
  function CallLine(sig: FnSig, callee: string): string {
    "   " + Render(sig.output) + " oo = " + callee + "(" + MoveFromArgs(sig.inputs) + ");\n"
  }

  /** A function Rust calls: the link signature, the call, and the result
      moved back into `o`. */
  function Forwarder(sig: FnSig, callee: string): string {
    RustLink(sig) + "{\n" + CallLine(sig, callee) + MoveToRustLine + "}\n"
  }

  /** An exported function calls `::rust::exported_functions::{name}`. */
  function ExportedFnText(f: ExportedFn): string {
    Forwarder(f.sig, "::rust::exported_functions::" + f.name)
  }

  /** The second argument of `::rust::Impl`: the trait, or
      `::rust::Inherent`. */
  function ImplTraitName(tr: Option<CppType>): string {
    match tr
    case Some(x) => Render(x)
    case None => "::rust::Inherent"
  }

  /** A method of an exported impl calls
      `::rust::Impl< {ty}, {trait} >::{name}`. */
  function ImplMethodText(imp: ExportedImpl, m: (string, FnSig)): string {
    Forwarder(m.1, "::rust::Impl< " + Render(imp.ty) + ", " + ImplTraitName(imp.tr) + " >::" + m.0)
  }

  function ImplMethodsText(imp: ExportedImpl, ms: seq<(string, FnSig)>): string
    decreases |ms|
  {
    if ms == [] then "" else ImplMethodsText(imp, ms[..|ms| - 1]) + ImplMethodText(imp, ms[|ms| - 1])
  }

  function ImplsText(imps: seq<ExportedImpl>): string
    decreases |imps|
  {
    if imps == [] then ""
    else ImplsText(imps[..|imps| - 1]) + ImplMethodsText(imps[|imps| - 1], imps[|imps| - 1].methods)
  }

  /** One input of a trait method's C signature: `, uint8_t* i{n}`. */
  function TraitParam(n: nat): string {
    ", uint8_t* i" + NatToString(n)
  }

  function TraitParams(n: nat): string
    decreases n
  {
    if n == 0 then "" else TraitParams(n - 1) + TraitParam(n - 1)
  }

  /** The C signature of a trait method, called with the object's buffer
      first. */
  function TraitSignature(m: TraitMethod): string {
    "void " + m.rustLinkName + "(uint8_t* data" + TraitParams(|m.inputs|) + ", uint8_t* o) {\n"
  }

  /** The cast of the buffer to the C++ object. */
  function DataTypedLine(asTy: CppType): string {
    "   " + Render(asTy) + "* data_typed = reinterpret_cast< " + Render(asTy) + "* >(data);\n"
  }

  /** The call of the C++ method; the generator ends it without a line
      break. */
  function TraitCallText(m: TraitMethod): string {
    "   " + Render(m.output) + " oo = data_typed->" + m.name + "(" + MoveFromArgs(m.inputs) + ");"
  }

  /** One method of `CppTraitDefinition::emit_cpp`. */
  function TraitMethodText(asTy: CppType, m: TraitMethod): string {
    TraitSignature(m) + DataTypedLine(asTy) + TraitCallText(m) + MoveToRustLine + "}\n"
  }

  function TraitMethodsText(asTy: CppType, ms: seq<TraitMethod>): string
    decreases |ms|
  {
    if ms == [] then "" else TraitMethodsText(asTy, ms[..|ms| - 1]) + TraitMethodText(asTy, ms[|ms| - 1])
  }

  /** `CppTraitDefinition::emit_cpp`: nothing for a `Fn` trait, a function
      per method for a normal trait. */
  function TraitCppText(t: TraitDef): string {
    match t
    case FnTraitDef(_) => ""
    case NormalTraitDef(asTy, ms, _, _) => TraitMethodsText(asTy, ms)
  }

  /** `order` lists every key of `m` once: the order a `HashMap` happens to
      iterate in. */
  predicate ListsKeys<K, V>(order: seq<K>, m: map<K, V>) {
    && |order| == |m|
    && (forall k :: 0 <= k < |order| ==> order[k] in m)
    && (forall i, j :: 0 <= i < j < |order| ==> order[i] != order[j])
  }

  function TraitsText(defs: map<RustTrait, TraitDef>, order: seq<RustTrait>): string
    requires forall k :: 0 <= k < |order| ==> order[k] in defs
    decreases |order|
  {
    if order == [] then ""
    else TraitsText(defs, order[..|order| - 1]) + TraitCppText(defs[order[|order| - 1]])
  }

  const IncludeLine: string := "#include \"./generated.h\"\n"
  const ExternOpen: string := "extern \"C\" {\n"
  const ExternClose: string := "}\n"

  /** The whole source unit, with the trait definitions in `order`. */
  function CppFileText(file: CppFile, order: seq<RustTrait>): string
    requires forall k :: 0 <= k < |order| ==> order[k] in file.traitDefs
  {
    IncludeLine + ExternOpen + TraitsText(file.traitDefs, order)
    + Lines(file.exportedFnDefs, ExportedFnText) + ImplsText(file.exportedImpls) + ExternClose
  }

  // The writing methods of `emit_cpp_file`.

  /** `emit_rust_link`: the head, one write per input, the output. */
  method EmitRustLink(st: State, sig: FnSig)
    modifies st
    ensures st.text == old(st.text) + RustLink(sig)
  {
    ghost var start := st.text;
    var head := LinkHead(sig);
    st.WriteStr(head);
    var n := 0;
    while n < |sig.inputs|
      invariant 0 <= n <= |sig.inputs|
      invariant st.text == start + head + LinkParams(n)
    {
      st.WriteStr(LinkParam(n));
      AppendAssoc(start + head, LinkParams(n), LinkParam(n));
      n := n + 1;
    }
    st.WriteStr("uint8_t* o)");
    AppendAssoc(start, head, LinkParams(n));
    AppendAssoc(start, head + LinkParams(n), "uint8_t* o)");
  }

  /** The four writes of one forwarding function. */
  method WriteForwarder(st: State, sig: FnSig, callee: string)
    modifies st
    ensures st.text == old(st.text) + Forwarder(sig, callee)
  {
    ghost var start := st.text;
    EmitRustLink(st, sig);
    var a := RustLink(sig);
    st.WriteStr("{\n");
    AppendAssoc(start, a, "{\n");
    a := a + "{\n";
    var call := CallLine(sig, callee);
    st.WriteStr(call);
    AppendAssoc(start, a, call);
    a := a + call;
    st.WriteStr(MoveToRustLine);
    AppendAssoc(start, a, MoveToRustLine);
    a := a + MoveToRustLine;
    st.WriteStr("}\n");
    AppendAssoc(start, a, "}\n");
  }

  /** One exported function's forwarder. */
  method WriteExportedFn(st: State, f: ExportedFn)
    modifies st
    ensures st.text == old(st.text) + ExportedFnText(f)
  {
    WriteForwarder(st, f.sig, "::rust::exported_functions::" + f.name);
  }

  /** The loop over the exported functions; each one marks the source unit
      as needed. */
  method WriteExportedFns(st: State, fns: seq<ExportedFn>, needed0: bool) returns (needed: bool)
    modifies st
    ensures needed <==> needed0 || |fns| > 0
    ensures st.text == old(st.text) + Lines(fns, ExportedFnText)
  {
    needed := needed0;
    ghost var start := st.text;
    var k := 0;
    while k < |fns|
      invariant 0 <= k <= |fns|
      invariant needed <==> needed0 || k > 0
      invariant st.text == start + Lines(fns[..k], ExportedFnText)
    {
      needed := true;
      WriteExportedFn(st, fns[k]);
      LinesSnoc(fns, ExportedFnText, k);
      AppendAssoc(start, Lines(fns[..k], ExportedFnText), ExportedFnText(fns[k]));
      k := k + 1;
    }
    assert fns[..k] == fns;
  }

  /** The methods of one exported impl. */
  method WriteImpl(st: State, imp: ExportedImpl)
    modifies st
    ensures st.text == old(st.text) + ImplMethodsText(imp, imp.methods)
  {
    ghost var start := st.text;
    var ms := imp.methods;
    var k := 0;
    while k < |ms|
      invariant 0 <= k <= |ms|
      invariant st.text == start + ImplMethodsText(imp, ms[..k])
    {
      var m := ms[k];
      WriteForwarder(st, m.1, "::rust::Impl< " + Render(imp.ty) + ", " + ImplTraitName(imp.tr) + " >::" + m.0);
      ImplMethodsSnoc(imp, ms, k);
      AppendAssoc(start, ImplMethodsText(imp, ms[..k]), ImplMethodText(imp, m));
      k := k + 1;
    }
    assert ms[..k] == ms;
  }

  /** The loop over the exported impls; each impl marks the source unit as
      needed, even one without methods. */
  method WriteImpls(st: State, imps: seq<ExportedImpl>, needed0: bool) returns (needed: bool)
    modifies st
    ensures needed <==> needed0 || |imps| > 0
    ensures st.text == old(st.text) + ImplsText(imps)
  {
    needed := needed0;
    ghost var start := st.text;
    var k := 0;
    while k < |imps|
      invariant 0 <= k <= |imps|
      invariant needed <==> needed0 || k > 0
      invariant st.text == start + ImplsText(imps[..k])
    {
      needed := true;
      WriteImpl(st, imps[k]);
      ImplsSnoc(imps, k);
      AppendAssoc(start, ImplsText(imps[..k]), ImplMethodsText(imps[k], imps[k].methods));
      k := k + 1;
    }
    assert imps[..k] == imps;
  }

  /** The signature of a trait method: the head, one write per input, the
      output and the opening brace. */
  method WriteTraitSignature(st: State, m: TraitMethod)
    modifies st
    ensures st.text == old(st.text) + TraitSignature(m)
  {
    ghost var start := st.text;
    var head := "void " + m.rustLinkName + "(uint8_t* data";
    st.WriteStr(head);
    var n := 0;
    while n < |m.inputs|
      invariant 0 <= n <= |m.inputs|
      invariant st.text == start + head + TraitParams(n)
    {
      st.WriteStr(TraitParam(n));
      AppendAssoc(start + head, TraitParams(n), TraitParam(n));
      n := n + 1;
    }
    st.WriteStr(", uint8_t* o) {\n");
    AppendAssoc(start, head, TraitParams(n));
    AppendAssoc(start, head + TraitParams(n), ", uint8_t* o) {\n");
  }

  /** One method of a normal trait. */
  method WriteTraitMethod(st: State, asTy: CppType, m: TraitMethod)
    modifies st
    ensures st.text == old(st.text) + TraitMethodText(asTy, m)
  {
    ghost var start := st.text;
    WriteTraitSignature(st, m);
    var a := TraitSignature(m);
    st.WriteStr(DataTypedLine(asTy));
    AppendAssoc(start, a, DataTypedLine(asTy));
    a := a + DataTypedLine(asTy);
    st.WriteStr(TraitCallText(m));
    AppendAssoc(start, a, TraitCallText(m));
    a := a + TraitCallText(m);
    st.WriteStr(MoveToRustLine);
    AppendAssoc(start, a, MoveToRustLine);
    a := a + MoveToRustLine;
    st.WriteStr("}\n");
    AppendAssoc(start, a, "}\n");
  }

  /** `CppTraitDefinition::emit_cpp`. */
  method WriteTraitCpp(st: State, t: TraitDef)
    modifies st
    ensures st.text == old(st.text) + TraitCppText(t)
  {
    match t {
      case FnTraitDef(_) =>
      case NormalTraitDef(asTy, ms, _, _) =>
        WriteTraitMethods(st, asTy, ms);
    }
  }

  /** The loop over a normal trait's methods. */
  method WriteTraitMethods(st: State, asTy: CppType, ms: seq<TraitMethod>)
    modifies st
    ensures st.text == old(st.text) + TraitMethodsText(asTy, ms)
  {
    ghost var start := st.text;
    var k := 0;
    while k < |ms|
      invariant 0 <= k <= |ms|
      invariant st.text == start + TraitMethodsText(asTy, ms[..k])
    {
      var m := ms[k];
      WriteTraitMethod(st, asTy, m);
      TraitMethodsSnoc(asTy, ms, k);
      AppendAssoc(start, TraitMethodsText(asTy, ms[..k]), TraitMethodText(asTy, m));
      k := k + 1;
    }
    assert ms[..k] == ms;
  }

  /** The loop over the trait definitions, in the map's iteration order;
      each one marks the source unit as needed. */
  method WriteTraits(st: State, defs: map<RustTrait, TraitDef>, order: seq<RustTrait>, needed0: bool)
    returns (needed: bool)
    requires forall k :: 0 <= k < |order| ==> order[k] in defs
    modifies st
    ensures needed <==> needed0 || |order| > 0
    ensures st.text == old(st.text) + TraitsText(defs, order)
  {
    needed := needed0;
    ghost var start := st.text;
    var k := 0;
    while k < |order|
      invariant 0 <= k <= |order|
      invariant needed <==> needed0 || k > 0
      invariant st.text == start + TraitsText(defs, order[..k])
    {
      needed := true;
      WriteTraitCpp(st, defs[order[k]]);
      TraitsSnoc(defs, order, k);
      AppendAssoc(start, TraitsText(defs, order[..k]), TraitCppText(defs[order[k]]));
      k := k + 1;
    }
    assert order[..k] == order;
  }

  /** `CppFile::emit_cpp_file`: the unit is needed exactly when there is a
      trait definition, an exported function or an exported impl. */
  method EmitCppFile(st: State, file: CppFile, order: seq<RustTrait>) returns (needed: bool)
    requires ListsKeys(order, file.traitDefs)
    modifies st
    ensures needed <==> |file.traitDefs| > 0 || |file.exportedFnDefs| > 0 || |file.exportedImpls| > 0
    ensures st.text == old(st.text) + CppFileText(file, order)
  {
    ghost var start := st.text;
    st.WriteStr(IncludeLine);
    st.WriteStr(ExternOpen);
    AppendAssoc(start, IncludeLine, ExternOpen);
    ghost var a := IncludeLine + ExternOpen;
    needed := false;
    needed := WriteTraits(st, file.traitDefs, order, needed);
    AppendAssoc(start, a, TraitsText(file.traitDefs, order));
    a := a + TraitsText(file.traitDefs, order);
    needed := WriteExportedFns(st, file.exportedFnDefs, needed);
    AppendAssoc(start, a, Lines(file.exportedFnDefs, ExportedFnText));
    a := a + Lines(file.exportedFnDefs, ExportedFnText);
    needed := WriteImpls(st, file.exportedImpls, needed);
    AppendAssoc(start, a, ImplsText(file.exportedImpls));
    a := a + ImplsText(file.exportedImpls);
    st.WriteStr(ExternClose);
    AppendAssoc(start, a, ExternClose);
  }

  lemma {:induction false} LinesSnoc<T>(xs: seq<T>, line: T -> string, k: nat)
    requires k < |xs|
    ensures Lines(xs[..k + 1], line) == Lines(xs[..k], line) + line(xs[k])
  {
    assert xs[..k + 1][..k] == xs[..k];
  }

  lemma {:induction false} ImplMethodsSnoc(imp: ExportedImpl, ms: seq<(string, FnSig)>, k: nat)
    requires k < |ms|
    ensures ImplMethodsText(imp, ms[..k + 1]) == ImplMethodsText(imp, ms[..k]) + ImplMethodText(imp, ms[k])
  {
    assert ms[..k + 1][..k] == ms[..k];
  }

  lemma {:induction false} ImplsSnoc(imps: seq<ExportedImpl>, k: nat)
    requires k < |imps|
    ensures ImplsText(imps[..k + 1]) == ImplsText(imps[..k]) + ImplMethodsText(imps[k], imps[k].methods)
  {
    assert imps[..k + 1][..k] == imps[..k];
  }

  lemma {:induction false} TraitMethodsSnoc(asTy: CppType, ms: seq<TraitMethod>, k: nat)
    requires k < |ms|
    ensures TraitMethodsText(asTy, ms[..k + 1]) == TraitMethodsText(asTy, ms[..k]) + TraitMethodText(asTy, ms[k])
  {
    assert ms[..k + 1][..k] == ms[..k];
  }

  lemma {:induction false} TraitsSnoc(defs: map<RustTrait, TraitDef>, order: seq<RustTrait>, k: nat)
    requires k < |order|
    requires forall j :: 0 <= j < |order| ==> order[j] in defs
    ensures TraitsText(defs, order[..k + 1]) == TraitsText(defs, order[..k]) + TraitCppText(defs[order[k]])
  {
    assert order[..k + 1][..k] == order[..k];
  }

  // Properties of the source unit.

  /** One input brings one comma. */
  lemma {:induction false} LinkParamCommas(n: nat)
    ensures Count(',', LinkParam(n)) == 1
  {
    var a := "uint8_t* i";
    var d := NatToString(n);
    CountAbsent(',', a);
    CountAbsent(',', d);
    CountAppend(',', a, d);
    CountAppend(',', a + d, ",");
    assert Count(',', ",") == 1 by {
      assert ","[1..] == "";
    }
  }

  lemma {:induction false} LinkParamsCommas(n: nat)
    ensures Count(',', LinkParams(n)) == n
    decreases n
  {
    if n > 0 {
      LinkParamsCommas(n - 1);
      LinkParamCommas(n - 1);
      CountAppend(',', LinkParams(n - 1), LinkParam(n - 1));
    }
  }

  /** The link signature has one comma-terminated pointer per input before
      the output pointer: besides those in the symbol, it has exactly as
      many commas as the function has inputs. */
  lemma {:induction false} RustLinkCommas(sig: FnSig)
    ensures Count(',', RustLink(sig)) == Count(',', sig.rustLinkName) + |sig.inputs|
  {
    LinkParamsCommas(|sig.inputs|);
    CountAbsent(',', "void ");
    CountAbsent(',', "(");
    CountAbsent(',', "uint8_t* o)");
    CountAppend(',', "void ", sig.rustLinkName);
    CountAppend(',', "void " + sig.rustLinkName, "(");
    CountAppend(',', LinkHead(sig), LinkParams(|sig.inputs|));
    CountAppend(',', LinkHead(sig) + LinkParams(|sig.inputs|), "uint8_t* o)");
  }

  // The panics of `emit_h_file`, in the order they are reached.

  /** The first type whose `emit` panics. */
  function FirstTypePanic(tds: seq<TypeDef>): (r: Option<Reason>)
    ensures r.None? <==> forall k :: 0 <= k < |tds| ==> TypePanic(tds[k]).None?
    ensures r.Some? ==> exists k :: 0 <= k < |tds| && TypePanic(tds[k]) == r
                                    && forall j :: 0 <= j < k ==> TypePanic(tds[j]).None?
    decreases |tds|
  {
    if tds == [] then None
    else if TypePanic(tds[0]).Some? then TypePanic(tds[0])
    else
      var r := FirstTypePanic(tds[1..]);
      assert forall k :: 0 <= k < |tds| - 1 ==> tds[1..][k] == tds[k + 1];
      r
  }

  /** The first type whose `emit_cpp_fn_defs` panics. */
  function FirstFnDefsPanic(tds: seq<TypeDef>, traits: map<RustTrait, TraitDef>): (r: Option<Reason>)
    ensures r.None? <==> forall k :: 0 <= k < |tds| ==> FnDefsPanic(tds[k], traits).None?
    ensures r.Some? ==> exists k :: 0 <= k < |tds| && FnDefsPanic(tds[k], traits) == r
                                    && forall j :: 0 <= j < k ==> FnDefsPanic(tds[j], traits).None?
    decreases |tds|
  {
    if tds == [] then None
    else
      var p := FnDefsPanic(tds[0], traits);
      if p.Some? then p
      else
        var r := FirstFnDefsPanic(tds[1..], traits);
        assert forall k :: 0 <= k < |tds| - 1 ==> tds[1..][k] == tds[k + 1];
        r
  }

  /** A free function with an empty path, which `emit_cpp_def` cannot
      place in a namespace. */
  predicate HasNamelessFn(fns: seq<FnDef>) {
    exists k :: 0 <= k < |fns| && |fns[k].name.segments| == 0
  }

  /** Why `emit_h_file` fails, if it does: the dispatch table first, then
      each type's `emit`, then each type's `emit_cpp_fn_defs`, then the free
      functions. */
  function HeaderPanic(file: CppFile): Option<Reason> {
    if HasCppValue(file.typeDefs) then Some(CppValueWithDynApi)
    else if |file.traitDefs| > 0 then Some(TraitDefsWithDynApi)
    else if FirstTypePanic(file.typeDefs).Some? then FirstTypePanic(file.typeDefs)
    else if FirstFnDefsPanic(file.typeDefs, file.traitDefs).Some? then FirstFnDefsPanic(file.typeDefs, file.traitDefs)
    else if HasNamelessFn(file.fnDefs) then Some(EmptyPath)
    else None
  }

  /** The header is written exactly when no check fails: no type has a C++
      value, there is no trait definition, and every type and free function
      passes its own checks. */
  lemma {:induction false} HeaderPanicCases(file: CppFile)
    ensures HeaderPanic(file).None? <==>
              && !HasCppValue(file.typeDefs)
              && |file.traitDefs| == 0
              && (forall k :: 0 <= k < |file.typeDefs| ==> TypePanic(file.typeDefs[k]).None?)
              && (forall k :: 0 <= k < |file.typeDefs| ==> FnDefsPanic(file.typeDefs[k], file.traitDefs).None?)
              && (forall k :: 0 <= k < |file.fnDefs| ==> |file.fnDefs[k].name.segments| >= 1)
    ensures HasCppValue(file.typeDefs) ==> HeaderPanic(file) == Some(CppValueWithDynApi)
    ensures !HasCppValue(file.typeDefs) && |file.traitDefs| > 0 ==> HeaderPanic(file) == Some(TraitDefsWithDynApi)
  {
  }

  /** The `todo!()` for a type built from a reference to a `Fn` trait is
      never what stops the header: a trait definition already stopped it
      at the dispatch table. */
  lemma {:induction false} HeaderNeverTodo(file: CppFile)
    ensures HeaderPanic(file) != Some(FnTraitRefUnimplemented)
  {
    if !HasCppValue(file.typeDefs) && |file.traitDefs| == 0 && FirstTypePanic(file.typeDefs).None?
       && FirstFnDefsPanic(file.typeDefs, file.traitDefs).Some? {
      var r := FirstFnDefsPanic(file.typeDefs, file.traitDefs);
      var k :| 0 <= k < |file.typeDefs| && FnDefsPanic(file.typeDefs[k], file.traitDefs) == r;
      NoTraitsNoTodo(file.typeDefs[k], file.traitDefs);
    }
  }

  /** In a header that is written, every class with a drop flag finds the
      `drop_in_place` its destructor calls among the dispatch table's
      symbols, and every `&self` method has the input its wrappers pass
      `self` in. */
  lemma {:induction false} HeaderDropsLinked(file: CppFile, k: nat)
    requires HeaderPanic(file).None?
    requires k < |file.typeDefs|
    ensures HasDropFlag(file.typeDefs[k]) ==>
              FirstDrop(file.typeDefs[k].wellknownTraits).Some?
              && FirstDrop(file.typeDefs[k].wellknownTraits).value in DispatchNames(file).value
    ensures forall j :: 0 <= j < |file.typeDefs[k].methods| && file.typeDefs[k].methods[j].kind.RefReceiver? ==>
              |file.typeDefs[k].methods[j].sig.inputs| >= 1
  {
    HeaderPanicCases(file);
    var td := file.typeDefs[k];
    assert FnDefsPanic(td, file.traitDefs).None?;
    if HasDropFlag(td) {
      DropFlagDropLinked(td);
      var d := FirstDrop(td.wellknownTraits).value;
      DispatchNamesContent(file, d);
    }
  }

  // `render`.

  /** The header `emit_h_file` writes: `before` stands for the text ahead
      of the dispatch table (prelude and link declarations), `after` for
      the text behind it (classes, function definitions, exports). */
  function HeaderText(file: CppFile, before: string, after: string): string
    requires DispatchNames(file).Ok?
  {
    before + ClassText(DispatchNames(file).value) + after
  }

  /** The dispatch table of a file that passes its checks is the class
      for the file's symbols. */
  lemma {:induction false} DynApiTextValue(file: CppFile)
    requires DynApiText(file).Ok?
    ensures DispatchNames(file).Ok?
    ensures DynApiText(file).value == ClassText(DispatchNames(file).value)
  {
  }

  /** `CppFile::emit_h_file`, with the text around the dispatch table
      given: it stops at the first failing check. */
  method EmitHFile(h: State, file: CppFile, before: string, after: string) returns (r: Result<()>)
    modifies h
    ensures r.Panic? <==> HeaderPanic(file).Some?
    ensures r.Panic? ==> r.reason == HeaderPanic(file).value
    ensures r.Ok? ==> DispatchNames(file).Ok? && h.text == old(h.text) + HeaderText(file, before, after)
  {
    ghost var start := h.text;
    h.WriteStr(before);
    var d := EmitDynApi(h, file);
    DynApiTextPanics(file);
    if d.Panic? {
      assert HeaderPanic(file) == Some(d.reason);
      return Panic(d.reason);
    }
    ghost var table := DynApiText(file).value;
    assert h.text == start + before + table;
    assert !HasCppValue(file.typeDefs) && |file.traitDefs| == 0;
    var p := FirstTypePanic(file.typeDefs);
    if p.Some? {
      assert HeaderPanic(file) == p;
      return Panic(p.value);
    }
    var q := FirstFnDefsPanic(file.typeDefs, file.traitDefs);
    if q.Some? {
      assert HeaderPanic(file) == q;
      return Panic(q.value);
    }
    if exists k :: 0 <= k < |file.fnDefs| && |file.fnDefs[k].name.segments| == 0 {
      assert HeaderPanic(file) == Some(EmptyPath);
      return Panic(EmptyPath);
    }
    assert !HasNamelessFn(file.fnDefs);
    assert FirstTypePanic(file.typeDefs).None? && FirstFnDefsPanic(file.typeDefs, file.traitDefs).None?;
    assert HeaderPanic(file).None?;
    DynApiTextValue(file);
    h.WriteStr(after);
    AppendAssoc(start, before, table);
    AppendAssoc(start, before + table, after);
    r := Ok(());
  }

  /** The header half of `CppFile::render`: `emit_h_file` into a fresh
      buffer, then `remove_no_except_in_panic`. */
  method RenderHeader(file: CppFile, before: string, after: string) returns (r: Result<string>)
    ensures r.Panic? <==> HeaderPanic(file).Some?
    ensures r.Panic? ==> r.reason == HeaderPanic(file).value
    ensures r.Ok? ==> DispatchNames(file).Ok?
    ensures r.Ok? && !file.panicToException ==> r.value == HeaderText(file, before, after)
    ensures r.Ok? && file.panicToException ==> r.value == Replace(HeaderText(file, before, after), NoExcept, " ")
  {
    var h := new State(file.panicToException);
    var e := EmitHFile(h, file, before, after);
    if e.Panic? {
      return Panic(e.reason);
    }
    ghost var header := HeaderText(file, before, after);
    assert h.text == header;
    h.RemoveNoExceptInPanic();
    r := Ok(h.text);
  }

  /** The source half of `CppFile::render`: `emit_cpp_file` into a fresh
      buffer, kept only when `is_cpp_needed` was set. */
  method RenderSource(file: CppFile, order: seq<RustTrait>) returns (src: Option<string>)
    requires ListsKeys(order, file.traitDefs)
    ensures src.Some? <==> |file.traitDefs| > 0 || |file.exportedFnDefs| > 0 || |file.exportedImpls| > 0
    ensures src.Some? ==> src.value == CppFileText(file, order)
  {
    var c := new State(file.panicToException);
    var needed := EmitCppFile(c, file, order);
    src := if needed then Some(c.text) else None;
  }

  /** `CppFile::render`: the header and, when it is needed, the source
      unit; a panic of `emit_h_file` is the panic of `render`. In exception
      mode the header loses its ` noexcept ` markers; otherwise it is left
      as written. Since a trait definition already stops the header, the
      source unit is kept exactly when there is an exported function or
      impl. */
  method RenderFile(file: CppFile, order: seq<RustTrait>, before: string, after: string)
    returns (r: Result<(string, Option<string>)>)
    requires ListsKeys(order, file.traitDefs)
    ensures r.Panic? <==> HeaderPanic(file).Some?
    ensures r.Panic? ==> r.reason == HeaderPanic(file).value
    ensures r.Ok? ==> DispatchNames(file).Ok?
    ensures r.Ok? && !file.panicToException ==> r.value.0 == HeaderText(file, before, after)
    ensures r.Ok? && file.panicToException ==> r.value.0 == Replace(HeaderText(file, before, after), NoExcept, " ")
    ensures r.Ok? ==> (r.value.1.Some? <==> |file.exportedFnDefs| > 0 || |file.exportedImpls| > 0)
    ensures r.Ok? && r.value.1.Some? ==> r.value.1.value == CppFileText(file, order)
  {
    var header := RenderHeader(file, before, after);
    if header.Panic? {
      return Panic(header.reason);
    }
    assert |file.traitDefs| == 0;
    var src := RenderSource(file, order);
    r := Ok((header.value, src));
  }
}
