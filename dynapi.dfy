/**
  The `__zngur_dyn_api` class `CppFile::emit_h_file` writes into the header:
  one function-pointer field per Rust symbol, and an `init` that resolves the
  symbols one by one in a dynamic library. The symbols are those of the free
  functions, then each type's `get_link_names` list, in that order, and the
  fields and the `dlsym` blocks follow the same order.
 */
module DynApi {
  import opened Base
  import opened Strings
  import opened Model
  import opened Links
  import opened Output

  /** The Rust symbols of the free functions, in declaration order. */
  function FnDefNames(fns: seq<FnDef>): (r: seq<string>)
    ensures |r| == |fns| && forall k :: 0 <= k < |fns| ==> r[k] == fns[k].sig.rustLinkName
  {
    seq(|fns|, k requires 0 <= k < |fns| => fns[k].sig.rustLinkName)
  }

  /** The link names of the types, one type after the other. */
  function TypeLinkNames(tds: seq<TypeDef>): seq<string>
    decreases |tds|
  {
    if tds == [] then [] else TypeLinkNames(tds[..|tds| - 1]) + LinkNames(tds[|tds| - 1])
  }

  predicate HasCppValue(tds: seq<TypeDef>) {
    exists k :: 0 <= k < |tds| && tds[k].cppValue.Some?
  }

  /** The symbols of the dispatch table; a type with a C++ value stops the
      generator inside `get_link_names`. */
  function DispatchNames(file: CppFile): Result<seq<string>> {
    if HasCppValue(file.typeDefs) then Panic(CppValueWithDynApi)
    else Ok(FnDefNames(file.fnDefs) + TypeLinkNames(file.typeDefs))
  }

  /** One field of the class: a pointer with the type of the symbol. */
  function FieldLine(n: string): string {
    "  decltype(&::" + n + ") " + n + ";\n"
  }

  /** One block of `init`: look the symbol up, and give up with a message
      naming it when the library does not have it. */
  function DlsymBlock(n: string): string {
    "{\nvoid* dlsym_handle = dlsym(_dylib_handle, \"" + n + "\");\n"
    + "if (dlsym_handle == nullptr) {\n"
    + "    error_message = \"Failed to load " + n + " from dynamic library: \" + std::string(dlerror());\n"
    + "    return false;\n}\n"
    + n + " = reinterpret_cast<decltype(&::" + n + ")>(dlsym_handle);\n}\n\n"
  }

  /** The text `line` gives for each element, in order. */
  function Lines<T>(ns: seq<T>, line: T -> string): string
    decreases |ns|
  {
    if ns == [] then "" else Lines(ns[..|ns| - 1], line) + line(ns[|ns| - 1])
  }

  const ClassHead: string :=
    "class __zngur_dyn_api {\npublic:\n"
    + "  explicit __zngur_dyn_api(void *dylib_handle) : _dylib_handle(dylib_handle) {}\n"
    + "  void * _dylib_handle;\n"

  const InitHead: string := "\n\n  bool init(std::string &error_message) {\n"

  const InitTail: string := "  return true;\n  }\n"

  const ClassTail: string := "\n\n};\n"

  /** The whole class for the symbols `ns`. */
  function ClassText(ns: seq<string>): string {
    ClassHead + Lines(ns, FieldLine) + InitHead + Lines(ns, DlsymBlock) + InitTail + ClassTail
  }

  /** The class, or the panic that stops its emission: a type with a C++
      value, or any trait definition at all. */
  function DynApiText(file: CppFile): Result<string> {
    match DispatchNames(file)
    case Panic(why) => Panic(why)
    case Ok(ns) => if |file.traitDefs| > 0 then Panic(TraitDefsWithDynApi) else Ok(ClassText(ns))
  }

  /** Writes `line(n)` for every name `n` in order. */
  method WriteLines(st: State, ns: seq<string>, line: string -> string)
    modifies st
    ensures st.text == old(st.text) + Lines(ns, line)
  {
    var start := st.text;
    var i := 0;
    while i < |ns|
      invariant 0 <= i <= |ns|
      invariant st.text == start + Lines(ns[..i], line)
    {
      assert ns[..i + 1][..i] == ns[..i];
      st.WriteStr(line(ns[i]));
      i := i + 1;
    }
    assert ns[..i] == ns;
  }

  /** The inner loop over one type: `line` for each of its link names, or
      the panic of `get_link_names`. */
  method WriteTypeLine(st: State, td: TypeDef, line: string -> string) returns (r: Result<()>)
    modifies st
    ensures r.Panic? <==> td.cppValue.Some?
    ensures r.Panic? ==> r.reason == CppValueWithDynApi
    ensures r.Ok? ==> st.text == old(st.text) + Lines(LinkNames(td), line)
  {
    var names := GetLinkNames(td);
    if names.Panic? {
      return Panic(names.reason);
    }
    WriteLines(st, names.value, line);
    return Ok(());
  }

  /** One loop of the dispatch-table part of `emit_h_file` over the types,
      stopping at the first type with a C++ value. */
  method WriteTypeLines(st: State, tds: seq<TypeDef>, line: string -> string) returns (r: Result<()>)
    modifies st
    ensures r.Panic? <==> HasCppValue(tds)
    ensures r.Panic? ==> r.reason == CppValueWithDynApi
    ensures r.Ok? ==> st.text == old(st.text) + Lines(TypeLinkNames(tds), line)
  {
    var start := st.text;
    assert tds[..0] == [];
    var k := 0;
    while k < |tds|
      invariant 0 <= k <= |tds|
      invariant forall j :: 0 <= j < k ==> tds[j].cppValue.None?
      invariant st.text == start + Lines(TypeLinkNames(tds[..k]), line)
    {
      ghost var before := st.text;
      r := WriteTypeLine(st, tds[k], line);
      if r.Panic? {
        assert tds[k].cppValue.Some?;
        return;
      }
      assert tds[k].cppValue.None?;
      TypeLinesSnoc(tds, k, line);
      AppendAssoc(start, Lines(TypeLinkNames(tds[..k]), line), Lines(LinkNames(tds[k]), line));
      k := k + 1;
    }
    assert tds[..k] == tds;
    return Ok(());
  }

  lemma {:induction false} TypeLinesSnoc(tds: seq<TypeDef>, k: nat, line: string -> string)
    requires k < |tds|
    ensures Lines(TypeLinkNames(tds[..k + 1]), line)
            == Lines(TypeLinkNames(tds[..k]), line) + Lines(LinkNames(tds[k]), line)
  {
    TypeLinkNamesSnoc(tds, k);
    LinesAppend(TypeLinkNames(tds[..k]), LinkNames(tds[k]), line);
  }

  /** The dispatch-table part of `emit_h_file`: the fields for the free
      functions and for each type's link names, then `init` with one block
      per symbol in the same order, then the check on `trait_defs`. */
  method EmitDynApi(st: State, file: CppFile) returns (r: Result<()>)
    modifies st
    ensures r.Panic? <==> DynApiText(file).Panic?
    ensures r.Panic? ==> r.reason == DynApiText(file).reason
    ensures r.Ok? ==> st.text == old(st.text) + DynApiText(file).value
  {
    var fnNames := FnDefNames(file.fnDefs);
    ghost var typeNames := TypeLinkNames(file.typeDefs);
    ghost var start := st.text;
    st.WriteStr(ClassHead);
    WriteLines(st, fnNames, FieldLine);
    AppendAssoc(start, ClassHead, Lines(fnNames, FieldLine));
    r := WriteTypeLines(st, file.typeDefs, FieldLine);
    if r.Panic? {
      return;
    }
    LinesAppend(fnNames, typeNames, FieldLine);
    AppendAssoc(start, ClassHead + Lines(fnNames, FieldLine), Lines(typeNames, FieldLine));
    AppendAssoc(ClassHead, Lines(fnNames, FieldLine), Lines(typeNames, FieldLine));
    ghost var written := ClassHead + Lines(fnNames + typeNames, FieldLine);
    assert st.text == start + written;
    st.WriteStr(InitHead);
    AppendAssoc(start, written, InitHead);
    written := written + InitHead;
    WriteLines(st, fnNames, DlsymBlock);
    AppendAssoc(start, written, Lines(fnNames, DlsymBlock));
    r := WriteTypeLines(st, file.typeDefs, DlsymBlock);
    LinesAppend(fnNames, typeNames, DlsymBlock);
    AppendAssoc(start, written + Lines(fnNames, DlsymBlock), Lines(typeNames, DlsymBlock));
    AppendAssoc(written, Lines(fnNames, DlsymBlock), Lines(typeNames, DlsymBlock));
    written := written + Lines(fnNames + typeNames, DlsymBlock);
    assert st.text == start + written;
    st.WriteStr(InitTail);
    AppendAssoc(start, written, InitTail);
    written := written + InitTail;
    if |file.traitDefs| > 0 {
      return Panic(TraitDefsWithDynApi);
    }
    st.WriteStr(ClassTail);
    AppendAssoc(start, written, ClassTail);
    written := written + ClassTail;
    assert written == ClassText(fnNames + typeNames);
    assert DynApiText(file) == Ok(written);
  }

  lemma {:induction false} TypeLinkNamesSnoc(tds: seq<TypeDef>, k: nat)
    requires k < |tds|
    ensures TypeLinkNames(tds[..k + 1]) == TypeLinkNames(tds[..k]) + LinkNames(tds[k])
  {
    assert tds[..k + 1][..k] == tds[..k];
  }

  lemma {:induction false} LinesAppend<T>(a: seq<T>, b: seq<T>, line: T -> string)
    ensures Lines(a + b, line) == Lines(a, line) + Lines(b, line)
    decreases |b|
  {
    if b == [] {
      assert a + b == a;
    } else {
      var c := b[..|b| - 1];
      assert (a + b)[..|a + b| - 1] == a + c;
      assert (a + b)[|a + b| - 1] == b[|b| - 1];
      LinesAppend(a, c, line);
    }
  }

  /** The text of element `k` sits right after the text of the elements
      before it: the fields and the blocks of `init` come in the order of
      the symbols. */
  lemma {:induction false} LinesContain<T>(xs: seq<T>, line: T -> string, k: nat)
    requires k < |xs|
    ensures OccursAt(Lines(xs, line), line(xs[k]), |Lines(xs[..k], line)|)
    decreases |xs|
  {
    var front := xs[..|xs| - 1];
    if k == |xs| - 1 {
      assert OccursAt(Lines(front, line) + line(xs[k]), line(xs[k]), |Lines(front, line)|);
    } else {
      assert front[..k] == xs[..k];
      assert front[k] == xs[k];
      LinesContain(front, line, k);
      OccursInPrefix(Lines(front, line), line(xs[|xs| - 1]), line(xs[k]), |Lines(xs[..k], line)|);
    }
  }

  /** A type's symbols come from exactly one type's list. */
  lemma {:induction false} TypeLinkNamesMember(tds: seq<TypeDef>, x: string)
    ensures x in TypeLinkNames(tds) <==> exists k :: 0 <= k < |tds| && x in LinkNames(tds[k])
    decreases |tds|
  {
    if tds != [] {
      var front := tds[..|tds| - 1];
      TypeLinkNamesMember(front, x);
      if x in TypeLinkNames(front) {
        var k :| 0 <= k < |front| && x in LinkNames(front[k]);
        assert front[k] == tds[k];
      }
      if exists k :: 0 <= k < |tds| && x in LinkNames(tds[k]) {
        var k :| 0 <= k < |tds| && x in LinkNames(tds[k]);
        if k < |front| {
          assert front[k] == tds[k];
        }
      }
    }
  }

  /** The table starts with the free functions' symbols, in order, and holds
      exactly those and every symbol of every type's link names. */
  lemma {:induction false} DispatchNamesContent(file: CppFile, x: string)
    requires DispatchNames(file).Ok?
    ensures var ns := DispatchNames(file).value;
            && |ns| >= |file.fnDefs|
            && (forall k :: 0 <= k < |file.fnDefs| ==> ns[k] == file.fnDefs[k].sig.rustLinkName)
            && (x in ns <==>
                  (exists k :: 0 <= k < |file.fnDefs| && file.fnDefs[k].sig.rustLinkName == x)
                  || (exists k :: 0 <= k < |file.typeDefs| && x in LinkNames(file.typeDefs[k])))
  {
    var fs := FnDefNames(file.fnDefs);
    TypeLinkNamesMember(file.typeDefs, x);
    assert x in fs <==> exists k :: 0 <= k < |file.fnDefs| && file.fnDefs[k].sig.rustLinkName == x by {
      if x in fs {
        var k :| 0 <= k < |fs| && fs[k] == x;
      }
    }
  }

  /** The table is refused exactly when some type has a C++ value, or when
      there are trait definitions. */
  lemma {:induction false} DynApiTextPanics(file: CppFile)
    ensures DynApiText(file).Panic? <==> HasCppValue(file.typeDefs) || |file.traitDefs| > 0
    ensures HasCppValue(file.typeDefs) ==> DynApiText(file) == Panic(CppValueWithDynApi)
    ensures !HasCppValue(file.typeDefs) && |file.traitDefs| > 0 ==> DynApiText(file) == Panic(TraitDefsWithDynApi)
  {
  }

  // What the generated `init` does at run time, over an abstract library.

  /** The result of `init`: every field filled, or the message of the first
      symbol the library lacks. */
  datatype InitOutcome = Loaded(table: map<string, nat>) | LoadFailed(message: string)

  /** The error message of a failed lookup; `err` is what `dlerror` says. */
  function LoadMessage(n: string, err: string): string {
    "Failed to load " + n + " from dynamic library: " + err
  }

  /** The blocks run in order; `lib` maps every symbol the library resolves
      to its address, and `table` holds the fields filled so far. */
  function Init(ns: seq<string>, lib: map<string, nat>, err: string, table: map<string, nat>): InitOutcome
    decreases |ns|
  {
    if ns == [] then Loaded(table)
    else if ns[0] !in lib then LoadFailed(LoadMessage(ns[0], err))
    else Init(ns[1..], lib, err, table[ns[0] := lib[ns[0]]])
  }

  /** The position of the first symbol the library lacks. */
  function FirstMissing(ns: seq<string>, lib: map<string, nat>): (r: Option<nat>)
    ensures r.Some? ==> r.value < |ns| && ns[r.value] !in lib
                        && forall k :: 0 <= k < r.value ==> ns[k] in lib
    ensures r.None? ==> forall k :: 0 <= k < |ns| ==> ns[k] in lib
    decreases |ns|
  {
    if ns == [] then None
    else if ns[0] !in lib then Some(0)
    else match FirstMissing(ns[1..], lib)
      case None => None
      case Some(k) => Some(k + 1)
  }

  /** `init` fails exactly when a symbol is missing, and then names the first
      one; otherwise every field holds its symbol's address and the fields
      filled before are kept. */
  lemma {:induction false} InitOutcomes(ns: seq<string>, lib: map<string, nat>, err: string, table: map<string, nat>)
    ensures var r := Init(ns, lib, err, table);
            match FirstMissing(ns, lib)
            case Some(k) => r == LoadFailed(LoadMessage(ns[k], err))
            case None =>
              && r.Loaded?
              && (forall n :: n in r.table <==> n in table || n in ns)
              && (forall k :: 0 <= k < |ns| ==> r.table[ns[k]] == lib[ns[k]])
              && (forall n :: n in table && n !in ns ==> r.table[n] == table[n])
    decreases |ns|
  {
    if ns != [] && ns[0] in lib {
      var t := table[ns[0] := lib[ns[0]]];
      InitOutcomes(ns[1..], lib, err, t);
      var r := Init(ns, lib, err, table);
      assert r == Init(ns[1..], lib, err, t);
      if FirstMissing(ns, lib).None? {
        assert FirstMissing(ns[1..], lib).None?;
        forall n ensures n in r.table <==> n in table || n in ns {
          assert n in ns <==> n == ns[0] || n in ns[1..];
        }
        forall k | 0 <= k < |ns| ensures r.table[ns[k]] == lib[ns[k]] {
          if k > 0 {
            assert ns[k] == ns[1..][k - 1];
          } else if ns[0] !in ns[1..] {
            assert r.table[ns[0]] == t[ns[0]];
          } else {
            var j :| 0 <= j < |ns[1..]| && ns[1..][j] == ns[0];
          }
        }
        forall n | n in table && n !in ns ensures r.table[n] == table[n] {
          assert n != ns[0];
          assert n !in ns[1..];
        }
      }
    }
  }

  /** `init` on the dispatch table, starting with no field filled. */
  function LoadAll(ns: seq<string>, lib: map<string, nat>, err: string): InitOutcome {
    Init(ns, lib, err, map[])
  }

  /** `init` succeeds exactly when the library has every symbol, and then
      holds exactly the table's symbols at their addresses. */
  lemma {:induction false} LoadAllOutcome(ns: seq<string>, lib: map<string, nat>, err: string)
    ensures LoadAll(ns, lib, err).Loaded? <==> forall k :: 0 <= k < |ns| ==> ns[k] in lib
    ensures LoadAll(ns, lib, err).Loaded? ==>
              && LoadAll(ns, lib, err).table.Keys == (set k | 0 <= k < |ns| :: ns[k])
              && forall n :: n in LoadAll(ns, lib, err).table ==> n in lib && LoadAll(ns, lib, err).table[n] == lib[n]
  {
    InitOutcomes(ns, lib, err, map[]);
    var r := LoadAll(ns, lib, err);
    if forall k :: 0 <= k < |ns| ==> ns[k] in lib {
      assert FirstMissing(ns, lib).None?;
    }
    if r.Loaded? {
      assert FirstMissing(ns, lib).None?;
      forall n | n in r.table ensures n in lib && r.table[n] == lib[n] {
        assert n in ns;
        var k :| 0 <= k < |ns| && ns[k] == n;
      }
      forall n ensures n in r.table.Keys <==> n in (set k | 0 <= k < |ns| :: ns[k]) {
        if n in ns {
          var k :| 0 <= k < |ns| && ns[k] == n;
        }
      }
    }
  }
}
