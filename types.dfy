/**
  `CppType`: a C++ type name, a path with optional template arguments. It is
  displayed as `::a::b< x, y >` and read back from text by `CppType::from`,
  which splits the template arguments with `split_string`.
 */
module Types {
  import opened Base
  import opened Strings
  import opened Paths
  import opened Splitting

  datatype CppType = CppType(path: CppPath, genericArgs: seq<CppType>)

  /** `Display for CppType`: the path, then `< a, b >` only when there are
      template arguments. */
  function Render(t: CppType): string
    decreases t
  {
    Display(t.path)
    + (if |t.genericArgs| == 0 then ""
       else "< " + Join(RenderAll(t), ", ") + " >")
  }

  /** The displayed template arguments of `t`, in order. */
  function RenderAll(t: CppType): (r: seq<string>)
    ensures |r| == |t.genericArgs|
    decreases t, 0
  {
    seq(|t.genericArgs|, k requires 0 <= k < |t.genericArgs| => Render(t.genericArgs[k]))
  }

  /** `CppType::into_ref`: the type wrapped as `::rust::Ref< t >`. The path
      is `CppPath::from("rust::Ref")`, whose segments `RustRefPath` computes. */
  function IntoRef(t: CppType): (r: CppType)
    ensures r.genericArgs == [t]
    ensures Render(r) == "::rust::Ref< " + Render(t) + " >"
  {
    var r := CppType(CppPath(["rust", "Ref"]), [t]);
    assert Display(r.path) == "::rust::Ref" by {
      assert Join(r.path.segments, "::") == "rust::Ref";
    }
    assert Join(RenderAll(r), ", ") == Render(t) by {
      assert RenderAll(r) == [Render(t)];
    }
    r
  }

  /** `CppPath::from("rust::Ref")` has the two segments `rust` and `Ref`. */
  lemma {:induction false} RustRefPath()
    ensures FromStr("rust::Ref") == CppPath(["rust", "Ref"])
  {
    var segs := ["rust", "Ref"];
    var text := "rust::Ref";
    assert Join(segs, "::") == text;
    assert text[0] == 'r' && text[|text| - 1] == 'f';
    TrimClean(text);
    assert NoColon(segs[0]) && NoColon(segs[1]) by {
      assert forall i :: 0 <= i < |segs[0]| ==> segs[0][i] in "rust";
      assert forall i :: 0 <= i < |segs[1]| ==> segs[1][i] in "Ref";
    }
    SplitJoin(segs);
    FromStrTrimmed(text);
  }

  /** `CppType::from(&str)`: trim, then read the trimmed text. */
  function Parse(input: string): Result<CppType>
    decreases |input|, 3, 0
  {
    ParseTrimmed(Trim(input))
  }

  /** Without a `<` the trimmed text is one path and there are no template
      arguments. */
  lemma {:induction false} ParseWithoutAngle(input: string)
    requires IndexOf(Trim(input), '<').None?
    ensures Parse(input) == Ok(CppType(FromStr(input), []))
  {
    TrimTwice(input);
  }

  /** Without a `<` the whole text is a path; otherwise the text is read
      around its first `<`. */
  function ParseTrimmed(value: string): (r: Result<CppType>)
    ensures IndexOf(value, '<').None? ==> r == Ok(CppType(FromStr(value), []))
    ensures r.Ok? ==> |r.value.path.segments| >= 1
    decreases |value|, 2, 0
  {
    match IndexOf(value, '<')
    case None => Ok(CppType(FromStr(value), []))
    case Some(i) => ParseAngled(value, i)
  }

  /** The path is the text before the `<` at `i`; the rest must end with
      `>`, and what lies between is split into template arguments, each read
      in turn. */
  function ParseAngled(value: string, i: nat): (r: Result<CppType>)
    requires i < |value|
    ensures r.Ok? ==> |r.value.path.segments| >= 1
    decreases |value|, 1, 0
  {
    // `generics` is `value[i + 1..]`; `strip_suffix('>')` needs it to end with `>`
    if |value| == i + 1 || value[|value| - 1] != '>' then
      Panic(MissingClosingAngle)
    else
      var parts := TopLevelParts(value[i + 1..|value| - 1]);
      match ParseAll(parts, |value|)
      case Panic(why) => Panic(why)
      case Ok(args) => Ok(CppType(FromStr(value[..i]), args))
  }

  /** Reading every part in order, as `map(CppType::from).collect()` does;
      the first part that panics stops the whole read. */
  function ParseAll(parts: seq<string>, bound: nat): (r: Result<seq<CppType>>)
    requires forall k :: 0 <= k < |parts| ==> |parts[k]| < bound
    ensures r.Ok? ==> |r.value| == |parts|
    decreases bound, 0, |parts| + 2
  {
    var rs := Reads(parts, bound);
    CollectOk(rs);
    Collect(rs)
  }

  /** The reads of the parts, one per part. */
  function Reads(parts: seq<string>, bound: nat): (r: seq<Result<CppType>>)
    requires forall k :: 0 <= k < |parts| ==> |parts[k]| < bound
    ensures |r| == |parts|
    ensures forall k :: 0 <= k < |parts| ==> r[k] == Parse(parts[k])
    decreases bound, 0, |parts| + 1
  {
    seq(|parts|, k requires 0 <= k < |parts| => Parse(parts[k]))
  }

  /** Collecting results in order: the first panic, or all values. */
  function Collect(rs: seq<Result<CppType>>): Result<seq<CppType>>
    decreases |rs|
  {
    if rs == [] then Ok([])
    else match rs[0]
      case Panic(why) => Panic(why)
      case Ok(t) =>
        match Collect(rs[1..])
        case Panic(why) => Panic(why)
        case Ok(ts) => Ok([t] + ts)
  }

  /** Collecting succeeds exactly when every result is a value, and then
      lists the values in order. */
  lemma {:induction false} CollectOk(rs: seq<Result<CppType>>)
    ensures Collect(rs).Ok? <==> forall k :: 0 <= k < |rs| ==> rs[k].Ok?
    ensures Collect(rs).Ok? ==>
              (|Collect(rs).value| == |rs|
               && forall k :: 0 <= k < |rs| ==> Collect(rs).value[k] == rs[k].value)
    decreases |rs|
  {
    if rs != [] {
      CollectOk(rs[1..]);
      assert forall k :: 1 <= k < |rs| ==> rs[k] == rs[1..][k - 1];
    }
  }

  /** A failed collection reports the first panic. */
  lemma {:induction false} CollectFirstPanic(rs: seq<Result<CppType>>)
    requires Collect(rs).Panic?
    ensures exists k :: 0 <= k < |rs| && rs[k] == Panic(Collect(rs).reason)
                        && forall j :: 0 <= j < k ==> rs[j].Ok?
    decreases |rs|
  {
    if rs[0].Ok? {
      CollectFirstPanic(rs[1..]);
      var k :| 0 <= k < |rs[1..]| && rs[1..][k] == Panic(Collect(rs[1..]).reason)
               && forall j :: 0 <= j < k ==> rs[1..][j].Ok?;
      assert rs[k + 1] == rs[1..][k];
      assert forall j :: 1 <= j < k + 1 ==> rs[j] == rs[1..][j - 1];
    }
  }

  /** The parts are read one by one: the read succeeds exactly when every
      part reads, a successful read lists the parts' own reads in order, and a
      failing read reports the panic of the first part that fails. */
  lemma {:induction false} ParseAllParts(parts: seq<string>, bound: nat)
    requires forall k :: 0 <= k < |parts| ==> |parts[k]| < bound
    ensures ParseAll(parts, bound).Ok? <==> forall k :: 0 <= k < |parts| ==> Parse(parts[k]).Ok?
    ensures ParseAll(parts, bound).Ok? ==>
              forall k :: 0 <= k < |parts| ==> ParseAll(parts, bound).value[k] == Parse(parts[k]).value
    ensures ParseAll(parts, bound).Panic? ==>
              exists k :: 0 <= k < |parts| && Parse(parts[k]) == Panic(ParseAll(parts, bound).reason)
                          && forall j :: 0 <= j < k ==> Parse(parts[j]).Ok?
  {
    var rs := Reads(parts, bound);
    CollectOk(rs);
    if Collect(rs).Panic? {
      CollectFirstPanic(rs);
    }
  }

  /** A type whose text reads back as itself: a non-empty path whose segments
      hold no whitespace, colon, angle bracket or comma, and well-formed
      template arguments. */
  predicate WellFormed(t: CppType)
    decreases t
  {
    |t.path.segments| >= 1
    && (forall k :: 0 <= k < |t.path.segments| ==> Ident(t.path.segments[k]))
    && forall k :: 0 <= k < |t.genericArgs| ==> WellFormed(t.genericArgs[k])
  }

  predicate Ident(x: string) {
    forall i :: 0 <= i < |x| ==> !IsWhitespace(x[i]) && x[i] !in ":<>,"
  }

  /** What reading back a displayed type gives: every path, at every level,
      gains the empty global-namespace segment in front. */
  function Rooted(t: CppType): (r: CppType)
    ensures |r.genericArgs| == |t.genericArgs|
    decreases t
  {
    CppType(CppPath(RootedSegments(t.path)),
            seq(|t.genericArgs|, k requires 0 <= k < |t.genericArgs| => Rooted(t.genericArgs[k])))
  }

  /** Text with no bracket and no comma leaves the counter alone and holds no
      separator. */
  lemma {:induction false} PlainText(x: string, d: int)
    requires forall i :: 0 <= i < |x| ==> x[i] !in "<>,"
    ensures NoSeparator(x, d) && DepthAfter(x, d) == d
    decreases |x|
  {
    if x != [] {
      assert x[0] !in "<>,";
      PlainText(x[1..], d);
    }
  }

  /** Reading a concatenation is reading its halves in turn. */
  lemma {:induction false} ReadAppend(x: string, y: string, d: int)
    ensures NoSeparator(x + y, d) <==> NoSeparator(x, d) && NoSeparator(y, DepthAfter(x, d))
    ensures DepthAfter(x + y, d) == DepthAfter(y, DepthAfter(x, d))
    decreases |x|
  {
    if x == [] {
      assert x + y == y;
    } else {
      assert (x + y)[0] == x[0] && (x + y)[1..] == x[1..] + y;
      ReadAppend(x[1..], y, d + Delta(x[0]));
    }
  }

  /** A comma-joined list read above depth zero: nothing in it separates. */
  lemma {:induction false} JoinNested(rs: seq<string>, d: int)
    requires d >= 1
    requires forall k :: 0 <= k < |rs| ==> NoSeparator(rs[k], d) && DepthAfter(rs[k], d) == d
    ensures NoSeparator(Join(rs, ", "), d) && DepthAfter(Join(rs, ", "), d) == d
    decreases |rs|
  {
    if |rs| == 0 {
    } else if |rs| == 1 {
    } else {
      JoinNested(rs[1..], d);
      var sep := ", ";
      assert NoSeparator(sep, d) && DepthAfter(sep, d) == d by {
        assert sep[1..] == " " && sep[1..][1..] == "";
      }
      ReadAppend(rs[0], sep, d);
      ReadAppend(rs[0] + sep, Join(rs[1..], sep), d);
    }
  }

  /** A displayed well-formed type closes every bracket it opens and holds no
      comma outside its own brackets, whatever depth it is read at. */
  lemma {:induction false} RenderBalanced(t: CppType, d: int)
    requires WellFormed(t) && d >= 0
    ensures NoSeparator(Render(t), d) && DepthAfter(Render(t), d) == d
    decreases t
  {
    var p := Display(t.path);
    DisplayPlain(t.path);
    PlainText(p, d);
    if |t.genericArgs| > 0 {
      var rs := RenderAll(t);
      forall k | 0 <= k < |rs| ensures NoSeparator(rs[k], d + 1) && DepthAfter(rs[k], d + 1) == d + 1 {
        RenderBalanced(t.genericArgs[k], d + 1);
      }
      JoinNested(rs, d + 1);
      var open := "< ";
      var close := " >";
      assert NoSeparator(open, d) && DepthAfter(open, d) == d + 1 by {
        assert open[1..] == " " && open[1..][1..] == "";
      }
      assert NoSeparator(close, d + 1) && DepthAfter(close, d + 1) == d by {
        assert close[1..] == ">" && close[1..][1..] == "";
      }
      var j := Join(rs, ", ");
      ReadAppend(open, j, d);
      ReadAppend(open + j, close, d);
      ReadAppend(p, open + j + close, d);
      assert Render(t) == p + (open + j + close);
    } else {
      assert Render(t) == p + "";
      assert p + "" == p;
    }
  }

  /** The displayed path of a well-formed type: no bracket, no comma, no
      whitespace. */
  lemma {:induction false} DisplayPlain(p: CppPath)
    requires forall k :: 0 <= k < |p.segments| ==> Ident(p.segments[k])
    ensures forall i :: 0 <= i < |Display(p)| ==> Display(p)[i] !in "<>,"
    ensures NoWhitespace(Display(p))
    ensures forall i :: 0 <= i < |Display(p)| ==> Display(p)[i] != '<'
  {
    DisplayChars(p.segments);
    var d := Display(p);
    var j := Join(p.segments, "::");
    forall i | 0 <= i < |d| ensures d[i] !in "<>,\t\n" && !IsWhitespace(d[i]) {
      if i >= 2 { assert d[i] == j[i - 2]; }
    }
  }

  /** Every character of the joined segments is a colon or comes from a
      segment. */
  lemma {:induction false} DisplayChars(segs: seq<string>)
    requires forall k :: 0 <= k < |segs| ==> Ident(segs[k])
    ensures forall i :: 0 <= i < |Join(segs, "::")| ==>
              !IsWhitespace(Join(segs, "::")[i]) && Join(segs, "::")[i] !in "<>,"
    decreases |segs|
  {
    if |segs| > 1 {
      DisplayChars(segs[1..]);
      var j := Join(segs, "::");
      var a := segs[0] + "::";
      var b := Join(segs[1..], "::");
      assert j == a + b;
      forall i | 0 <= i < |j| ensures !IsWhitespace(j[i]) && j[i] !in "<>," {
        if i < |segs[0]| {
          assert j[i] == segs[0][i];
        } else if i < |a| {
          assert j[i] == ':';
        } else {
          assert j[i] == b[i - |a|];
        }
      }
    }
  }

  /** A displayed well-formed type has no whitespace at either end. */
  lemma {:induction false} RenderTrimmed(t: CppType)
    requires WellFormed(t)
    ensures IsTrimmed(Render(t)) && |Render(t)| >= 2
  {
    var p := Display(t.path);
    DisplayPlain(t.path);
    if |t.genericArgs| > 0 {
      var tail := "< " + Join(RenderAll(t), ", ") + " >";
      assert Render(t) == p + tail;
      assert Render(t)[|Render(t)| - 1] == '>';
    } else {
      assert Render(t) == p + "";
    }
  }

  /** The template arguments as `split_string` cuts them out of `< a, b >`:
      a blank in front of each, and one more behind the last. */
  function Spaced(rs: seq<string>): (r: seq<string>)
    requires |rs| >= 1
    ensures |r| == |rs|
    decreases |rs|
  {
    if |rs| == 1 then [" " + rs[0] + " "] else [" " + rs[0]] + Spaced(rs[1..])
  }

  lemma {:induction false} SpacedJoin(rs: seq<string>)
    requires |rs| >= 1
    ensures " " + Join(rs, ", ") + " " == Join(Spaced(rs), ",")
    decreases |rs|
  {
    if |rs| > 1 {
      SpacedJoin(rs[1..]);
      var s := Spaced(rs);
      assert s[1..] == Spaced(rs[1..]);
      assert " " + Join(rs, ", ") + " "
        == " " + rs[0] + "," + (" " + Join(rs[1..], ", ") + " ");
    }
  }

  /** Each cut-out argument trims back to the displayed argument. */
  lemma {:induction false} SpacedParts(rs: seq<string>, k: int)
    requires |rs| >= 1 && 0 <= k < |rs|
    ensures Spaced(rs)[k] == " " + rs[k] || Spaced(rs)[k] == " " + rs[k] + " "
    ensures Spaced(rs)[k] == " " + rs[k] + " " <==> k == |rs| - 1
    decreases |rs|
  {
    if |rs| > 1 && k > 0 {
      SpacedParts(rs[1..], k - 1);
      assert Spaced(rs)[k] == Spaced(rs[1..])[k - 1];
    }
  }

  /** Only the trimmed text matters to `CppType::from`. */
  lemma {:induction false} ParseTrim(a: string, b: string)
    requires Trim(a) == Trim(b)
    ensures Parse(a) == Parse(b)
  {
  }

  /** Reading back a displayed well-formed type gives the type again, every
      path carrying the empty root segment that the leading `::` denotes. */
  lemma {:induction false} ParseRender(t: CppType)
    requires WellFormed(t)
    ensures Parse(Render(t)) == Ok(Rooted(t))
    decreases t, 2
  {
    var s := Render(t);
    RenderTrimmed(t);
    TrimClean(s);
    assert Parse(s) == ParseTrimmed(s);
    if |t.genericArgs| == 0 {
      ParseRenderPlain(t);
    } else {
      ParseRenderArgs(t);
    }
  }

  /** The read-back of a displayed type without template arguments. */
  lemma {:induction false} ParseRenderPlain(t: CppType)
    requires WellFormed(t) && |t.genericArgs| == 0
    ensures ParseTrimmed(Render(t)) == Ok(Rooted(t))
  {
    var p := Display(t.path);
    assert Render(t) == p + "";
    DisplayPlain(t.path);
    NoAngle(p);
    RootedPath(t);
    assert Rooted(t).genericArgs == [];
  }

  /** The display of a type with template arguments: the path, a `<`, and
      the arguments between blanks, closed by `>`. */
  lemma {:induction false} RenderWithArgs(t: CppType)
    requires |t.genericArgs| >= 1
    ensures Render(t) == Display(t.path) + ("<" + (" " + Join(RenderAll(t), ", ") + " >"))
  {
  }

  /** `split_string` cuts the blank-padded argument list back into its
      arguments, each with its blanks. */
  lemma {:induction false} SpacedTopLevel(rs: seq<string>)
    requires |rs| >= 1
    requires forall k :: 0 <= k < |rs| ==>
               NoSeparator(Spaced(rs)[k], 0) && DepthAfter(Spaced(rs)[k], 0) == 0
    ensures TopLevelParts(" " + Join(rs, ", ") + " ") == Spaced(rs)
  {
    var parts := Spaced(rs);
    SpacedFields(rs);
    SpacedParts(rs, |parts| - 1);
    assert parts[|parts| - 1] != "";
  }

  lemma {:induction false} SpacedFields(rs: seq<string>)
    requires |rs| >= 1
    requires forall k :: 0 <= k < |rs| ==>
               NoSeparator(Spaced(rs)[k], 0) && DepthAfter(Spaced(rs)[k], 0) == 0
    ensures Fields(" " + Join(rs, ", ") + " ", 0) == Spaced(rs)
  {
    var parts := Spaced(rs);
    SpacedJoin(rs);
    FieldsOfJoin(parts);
  }

  /** The read-back of a displayed type whose arguments read back. */
  lemma {:induction false} ParseRenderArgs(t: CppType)
    requires WellFormed(t) && |t.genericArgs| >= 1
    ensures ParseTrimmed(Render(t)) == Ok(Rooted(t))
    decreases t, 1
  {
    var s, i := RenderArgsCut(t);
    var parts := Spaced(RenderAll(t));
    ParseSpaced(t);
    var args := Rooted(t).genericArgs;
    ParseArguments(s, i, parts, args);
    RootedPath(t);
    assert Rooted(t) == CppType(FromStr(s[..i]), args);
  }

  /** When every part between the brackets reads as the corresponding
      argument, the text reads as its path with those arguments. */
  lemma {:induction false} ParseArguments(value: string, i: nat, parts: seq<string>, args: seq<CppType>)
    requires IndexOf(value, '<') == Some(i)
    requires |value| > i + 1 && value[|value| - 1] == '>'
    requires TopLevelParts(value[i + 1..|value| - 1]) == parts
    requires |parts| == |args|
    requires forall k :: 0 <= k < |parts| ==> Parse(parts[k]) == Ok(args[k])
    ensures ParseTrimmed(value) == Ok(CppType(FromStr(value[..i]), args))
  {
    ParseGenerics(value, i);
    var r := ParseTrimmed(value);
    assert r.Ok?;
    assert r.value.genericArgs == args;
  }

  /** Where `CppType::from` cuts a displayed type with template arguments:
      the first `<` ends the path, and `split_string` of what lies inside the
      brackets gives the blank-padded arguments. */
  lemma {:induction false} RenderArgsCut(t: CppType) returns (s: string, i: nat)
    requires WellFormed(t) && |t.genericArgs| >= 1
    ensures s == Render(t) && i == |Display(t.path)|
    ensures IndexOf(s, '<') == Some(i)
    ensures |s| > i + 1 && s[|s| - 1] == '>'
    ensures s[..i] == Display(t.path)
    ensures TopLevelParts(s[i + 1..|s| - 1]) == Spaced(RenderAll(t))
  {
    s := Render(t);
    i := |Display(t.path)|;
    RenderArgsText(t);
    var text := " " + Join(RenderAll(t), ", ") + " ";
    assert s[i + 1..|s| - 1] == text;
    SpacedBalanced(t);
    SpacedTopLevel(RenderAll(t));
    assert TopLevelParts(text) == Spaced(RenderAll(t));
  }

  /** The text of a displayed type with template arguments, around its
      first `<`. */
  lemma {:induction false} RenderArgsText(t: CppType)
    requires WellFormed(t) && |t.genericArgs| >= 1
    ensures var s := Render(t);
            var i := |Display(t.path)|;
            && IndexOf(s, '<') == Some(i)
            && |s| > i + 1 && s[|s| - 1] == '>'
            && s[..i] == Display(t.path)
            && s[i + 1..|s| - 1] == " " + Join(RenderAll(t), ", ") + " "
  {
    var s := Render(t);
    var p := Display(t.path);
    var rs := RenderAll(t);
    var generics := " " + Join(rs, ", ") + " >";
    DisplayPlain(t.path);
    RenderWithArgs(t);
    IndexOfAfter(p, generics);
    var i := |p|;
    assert s[..i] == p;
    assert s[i + 1..|s| - 1] == " " + Join(rs, ", ") + " ";
  }

  /** The root segment the display adds is the one reading it back gives. */
  lemma {:induction false} RootedPath(t: CppType)
    requires WellFormed(t)
    ensures FromStr(Display(t.path)) == Rooted(t).path
  {
    DisplayFromStr(t.path) by {
      forall k | 0 <= k < |t.path.segments| ensures PlainSegment(t.path.segments[k]) {
        var x := t.path.segments[k];
        assert forall i :: 0 <= i < |x| ==> x[i] != ':' by {
          forall i | 0 <= i < |x| ensures x[i] != ':' { assert x[i] !in ":<>,"; }
        }
      }
    }
  }

  /** Each argument `split_string` cuts out of a displayed argument list
      stays within depth zero. */
  lemma {:induction false} SpacedBalanced(t: CppType)
    requires WellFormed(t) && |t.genericArgs| >= 1
    ensures var parts := Spaced(RenderAll(t));
            forall k :: 0 <= k < |parts| ==>
              NoSeparator(parts[k], 0) && DepthAfter(parts[k], 0) == 0
  {
    var rs := RenderAll(t);
    var parts := Spaced(rs);
    PlainText(" ", 0);
    forall k | 0 <= k < |parts|
      ensures NoSeparator(parts[k], 0) && DepthAfter(parts[k], 0) == 0
    {
      RenderBalanced(t.genericArgs[k], 0);
      SpacedParts(rs, k);
      ReadAppend(" ", rs[k], 0);
      if parts[k] != " " + rs[k] {
        ReadAppend(" " + rs[k], " ", 0);
      }
    }
  }

  /** Each argument `split_string` cuts out of a displayed argument list
      reads back as its argument. */
  lemma {:induction false} ParseSpaced(t: CppType)
    requires WellFormed(t) && |t.genericArgs| >= 1
    ensures var parts := Spaced(RenderAll(t));
            forall k :: 0 <= k < |parts| ==> Parse(parts[k]) == Ok(Rooted(t).genericArgs[k])
    decreases t, 0
  {
    var rs := RenderAll(t);
    var parts := Spaced(rs);
    assert forall i :: 0 <= i < |" "| ==> IsWhitespace(" "[i]);
    forall k | 0 <= k < |parts|
      ensures Parse(parts[k]) == Ok(Rooted(t).genericArgs[k])
    {
      var u := t.genericArgs[k];
      RenderTrimmed(u);
      SpacedParts(rs, k);
      assert rs[k] == Render(u);
      if parts[k] == " " + rs[k] {
        TrimPadded(" ", rs[k], "");
        assert " " + rs[k] + "" == parts[k];
      } else {
        TrimPadded(" ", rs[k], " ");
      }
      TrimClean(rs[k]);
      ParseTrim(parts[k], rs[k]);
      ParseRender(u);
    }
  }

  /** A character string without `<` has no first `<`. */
  lemma {:induction false} NoAngle(p: string)
    requires forall i :: 0 <= i < |p| ==> p[i] != '<'
    ensures IndexOf(p, '<').None?
  {
  }

  /** The first `<` of `p + "<" + g` is right after `p` when `p` has none. */
  lemma {:induction false} IndexOfAfter(p: string, g: string)
    requires forall i :: 0 <= i < |p| ==> p[i] != '<'
    ensures IndexOf(p + ("<" + g), '<') == Some(|p|)
    decreases |p|
  {
    var s := p + ("<" + g);
    if p == [] {
      assert s[0] == '<';
    } else {
      assert s[0] == p[0] && s[1..] == p[1..] + ("<" + g);
      IndexOfAfter(p[1..], g);
    }
  }

  /** Distinct well-formed types are displayed differently: the display loses
      nothing. */
  lemma {:induction false} RenderInjective(t: CppType, u: CppType)
    requires WellFormed(t) && WellFormed(u) && Render(t) == Render(u)
    ensures t == u
  {
    ParseRender(t);
    ParseRender(u);
    RootedInjective(t, u);
  }

  lemma {:induction false} RootedInjective(t: CppType, u: CppType)
    requires Rooted(t) == Rooted(u)
    ensures t == u
    decreases t
  {
    assert t.path.segments == Rooted(t).path.segments[1..];
    assert u.path.segments == Rooted(u).path.segments[1..];
    forall k | 0 <= k < |t.genericArgs| ensures t.genericArgs[k] == u.genericArgs[k] {
      assert Rooted(t).genericArgs[k] == Rooted(t.genericArgs[k]);
      assert Rooted(u).genericArgs[k] == Rooted(u.genericArgs[k]);
      RootedInjective(t.genericArgs[k], u.genericArgs[k]);
    }
  }

  /** A `<` with no closing `>` at the very end stops the generator. */
  lemma {:induction false} ParseMissingClose(value: string, i: nat)
    requires IndexOf(value, '<') == Some(i)
    requires |value| == i + 1 || value[|value| - 1] != '>'
    ensures ParseTrimmed(value) == Panic(MissingClosingAngle)
  {
  }

  /** With a first `<` and a closing `>`, the path is the text before the `<`
      and the template arguments are the parts `split_string` cuts out of the
      text between, each read in turn; the first part that panics makes the
      whole read panic. */
  lemma {:induction false} ParseGenerics(value: string, i: nat)
    requires IndexOf(value, '<') == Some(i)
    requires |value| > i + 1 && value[|value| - 1] == '>'
    ensures var parts := TopLevelParts(value[i + 1..|value| - 1]);
            var r := ParseTrimmed(value);
            && (r.Ok? <==> forall k :: 0 <= k < |parts| ==> Parse(parts[k]).Ok?)
            && (r.Ok? ==>
                  r.value.path == FromStr(value[..i])
                  && |r.value.genericArgs| == |parts|
                  && forall k :: 0 <= k < |parts| ==> r.value.genericArgs[k] == Parse(parts[k]).value)
            && (r.Panic? ==>
                  exists k :: 0 <= k < |parts| && Parse(parts[k]) == r
                              && forall j :: 0 <= j < k ==> Parse(parts[j]).Ok?)
  {
    var parts := TopLevelParts(value[i + 1..|value| - 1]);
    ParseTrimmedGenerics(value, i);
    ParseAllParts(parts, |value|);
  }

  /** The read of a text with a first `<` and a closing `>` is the read of
      its parts, with the path before the `<` put in front. */
  lemma {:induction false} ParseTrimmedGenerics(value: string, i: nat)
    requires IndexOf(value, '<') == Some(i)
    requires |value| > i + 1 && value[|value| - 1] == '>'
    ensures var parts := TopLevelParts(value[i + 1..|value| - 1]);
            && (forall k :: 0 <= k < |parts| ==> |parts[k]| < |value|)
            && ParseTrimmed(value) == match ParseAll(parts, |value|)
                                      case Panic(why) => Panic(why)
                                      case Ok(args) => Ok(CppType(FromStr(value[..i]), args))
  {
  }
}
