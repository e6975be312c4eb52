/**
  The generator's output buffer, `State`: the text written so far and whether
  Rust panics are turned into C++ exceptions. Text only grows through
  `write_str`; the one rewrite is `remove_no_except_in_panic`.
 */
module Output {
  import opened Strings
  import opened Paths

  /** The check the generated code runs after every call into Rust when
      panics become exceptions. */
  const PanicCheck: string :=
    "\n            if (__zngur_detect_panic()) {\n                __zngur_take_panic();\n"
    + "                throw ::rust::Panic{};\n            }\n            "

  /** The marker the header rewrite removes from declarations. */
  const NoExcept: string := " noexcept "

  /** One opening line of `emit_in_namespace`. */
  function OpenLine(p: string): string {
    "namespace " + p + " {\n"
  }

  class State {
    var text: string
    const panicToException: bool

    constructor (panicToException: bool)
      ensures text == "" && this.panicToException == panicToException
    {
      text := "";
      this.panicToException := panicToException;
    }

    /** `write_str`: appends and never fails. */
    method WriteStr(s: string)
      modifies this
      ensures text == old(text) + s
    {
      text := text + s;
    }

    /** `State::panic_handler`: the panic check, or nothing when panics
        abort. */
    function PanicHandler(): (r: string)
      ensures r == "" <==> !panicToException
      ensures panicToException ==> r == PanicCheck
    {
      if panicToException then PanicCheck else ""
    }

    /** `State::remove_no_except_in_panic`: a C++ function that may throw
        cannot be `noexcept`, so in exception mode every ` noexcept ` the
        scan finds becomes a blank; otherwise the text stays as it is. */
    method RemoveNoExceptInPanic()
      modifies this
      ensures panicToException ==> text == Replace(old(text), NoExcept, " ")
      ensures !panicToException ==> text == old(text)
    {
      if panicToException {
        text := Replace(text, NoExcept, " ");
      }
    }

    /** `CppPath::emit_in_namespace`: one `namespace p {` line per namespace
        segment, then what `body` writes, then one `}` line per segment. */
    method EmitInNamespace(path: CppPath, body: string)
      requires |path.segments| >= 1
      modifies this
      ensures text == old(text) + OpenNamespaces(Namespace(path)) + body
                      + CloseNamespaces(|Namespace(path)|)
    {
      var ns := Namespace(path);
      var start := text;
      var i := 0;
      while i < |ns|
        invariant 0 <= i <= |ns|
        invariant text == start + OpenNamespaces(ns[..i])
      {
        OpenNamespacesSnoc(ns[..i], ns[i]);
        assert ns[..i + 1] == ns[..i] + [ns[i]];
        WriteStr(OpenLine(ns[i]));
        i := i + 1;
      }
      assert ns[..i] == ns;
      WriteStr(body);
      var middle := text;
      var j := 0;
      while j < |ns|
        invariant 0 <= j <= |ns|
        invariant text == middle + CloseNamespaces(j)
      {
        CloseNamespacesSnoc(j);
        WriteStr("}\n");
        j := j + 1;
      }
    }
  }

  /** Opening one more namespace appends its line. */
  lemma {:induction false} OpenNamespacesSnoc(ns: seq<string>, p: string)
    ensures OpenNamespaces(ns + [p]) == OpenNamespaces(ns) + OpenLine(p)
    decreases |ns|
  {
    if ns == [] {
      assert [] + [p] == [p];
      assert [p][1..] == [];
    } else {
      assert (ns + [p])[0] == ns[0];
      assert (ns + [p])[1..] == ns[1..] + [p];
      OpenNamespacesSnoc(ns[1..], p);
    }
  }

  /** Closing one more namespace appends one `}` line. */
  lemma {:induction false} CloseNamespacesSnoc(n: nat)
    ensures CloseNamespaces(n + 1) == CloseNamespaces(n) + "}\n"
    decreases n
  {
    if n > 0 {
      CloseNamespacesSnoc(n - 1);
    }
  }

  /** The rewrite does not remove every marker: a scan resumes after the
      replaced text, so two markers sharing a blank leave one behind. */
  lemma {:induction false} RemoveNoExceptLeavesOverlap()
    ensures Replace(" noexcept noexcept ", NoExcept, " ") == " noexcept "
  {
    var s := " noexcept noexcept ";
    var rest := s[10..];
    assert s[..10] == NoExcept;
    assert rest == "noexcept ";
    assert |rest| < 10;
  }
}
