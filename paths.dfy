/**
  `CppPath`: a C++ qualified name held as its `::`-separated segments, together
  with the renaming of C++ keywords and of numeric (tuple) field names.
 */
module Paths {
  import opened Base
  import opened Strings

  datatype CppPath = CppPath(segments: seq<string>)

  /** The text starts with the separator `::`. */
  predicate StartsWithSep(s: string) {
    |s| >= 2 && s[0] == ':' && s[1] == ':'
  }

  /** `x` holds no `::`. */
  predicate NoSepInside(x: string) {
    forall i :: 0 <= i < |x| ==> !StartsWithSep(x[i..])
  }

  predicate NoColon(x: string) {
    forall i :: 0 <= i < |x| ==> x[i] != ':'
  }

  /** `str::split("::")`: the pieces between the separators found scanning from
      the left, a separator never overlapping the previous one. */
  function SplitPath(s: string): (r: seq<string>)
    ensures |r| >= 1
    ensures Join(r, "::") == s
    ensures forall k :: 0 <= k < |r| ==> NoSepInside(r[k])
    ensures StartsWithSep(s) || s == [] ==> r[0] == []
    ensures !StartsWithSep(s) && s != [] ==> r[0] != [] && r[0][0] == s[0]
    decreases |s|
  {
    if StartsWithSep(s) then
      var rest := SplitPath(s[2..]);
      assert s == "::" + s[2..];
      [""] + rest
    else if s == [] then
      [""]
    else
      var rest := SplitPath(s[1..]);
      var r := Prepend([s[0]], rest);
      JoinPrepend([s[0]], rest, "::");
      assert s == [s[0]] + s[1..];
      assert NoSepInside(r[0]) by {
        assert r[0] == [s[0]] + rest[0];
        forall i | 0 <= i < |r[0]| ensures !StartsWithSep(r[0][i..]) {
          if i > 0 { assert r[0][i..] == rest[0][i - 1..]; }
        }
      }
      assert forall k :: 1 <= k < |r| ==> r[k] == rest[k];
      r
  }

  /** Splitting text that starts with a colon-free piece keeps that piece at the
      front of the first segment. */
  lemma {:induction false} SplitPathPrefix(x: string, z: string)
    requires NoColon(x)
    requires z == [] || StartsWithSep(z)
    ensures SplitPath(x + z) == Prepend(x, SplitPath(z))
    decreases |x|
  {
    if x == [] {
      assert x + z == z;
      var r := SplitPath(z);
      assert Prepend(x, r) == r by { assert [x + r[0]] + r[1..] == r; }
    } else {
      var s := x + z;
      assert s[0] == x[0] && s[0] != ':';
      assert !StartsWithSep(s);
      assert s[1..] == x[1..] + z;
      SplitPathPrefix(x[1..], z);
      var rz := SplitPath(z);
      var inner := SplitPath(s[1..]);
      assert inner == Prepend(x[1..], rz);
      assert SplitPath(s) == Prepend([s[0]], inner);
      assert [s[0]] + (x[1..] + rz[0]) == x + rz[0] by {
        assert [s[0]] + x[1..] == x;
      }
    }
  }

  /** Splitting the join of colon-free segments gives the segments back. */
  lemma {:induction false} SplitJoin(segs: seq<string>)
    requires |segs| >= 1
    requires forall k :: 0 <= k < |segs| ==> NoColon(segs[k])
    ensures SplitPath(Join(segs, "::")) == segs
    decreases |segs|
  {
    if |segs| == 1 {
      SplitPathPrefix(segs[0], "");
      assert segs[0] + "" == segs[0];
      assert Prepend(segs[0], [""]) == segs;
    } else {
      var tail := Join(segs[1..], "::");
      SplitJoin(segs[1..]);
      assert Join(segs, "::") == segs[0] + ("::" + tail);
      var z := "::" + tail;
      assert StartsWithSep(z);
      assert z[2..] == tail;
      SplitPathPrefix(segs[0], z);
      assert SplitPath(z) == [""] + segs[1..];
      assert segs[0] + "" == segs[0];
      assert Prepend(segs[0], [""] + segs[1..]) == segs;
    }
  }

  /** `CppPath::from(&str)`: trim, then split on `::`. */
  function FromStr(s: string): (r: CppPath)
    ensures |r.segments| >= 1
    ensures Join(r.segments, "::") == Trim(s)
    ensures Display(r) == "::" + Trim(s)
  {
    CppPath(SplitPath(Trim(s)))
  }

  /** `Display for CppPath`: `::` followed by the segments joined with `::`. */
  function Display(p: CppPath): string {
    "::" + Join(p.segments, "::")
  }

  /** The segments of `p` with the empty global-namespace segment in front, which
      is what reading back a displayed path yields. */
  function RootedSegments(p: CppPath): seq<string> {
    [""] + p.segments
  }

  /** A segment that reads back as itself: no colon and no whitespace. */
  predicate PlainSegment(x: string) {
    NoColon(x) && NoWhitespace(x)
  }

  lemma {:induction false} DisplayTrimmed(p: CppPath)
    requires forall k :: 0 <= k < |p.segments| ==> NoWhitespace(p.segments[k])
    ensures Trim(Display(p)) == Display(p)
  {
    var sep := "::";
    assert NoWhitespace(sep) by {
      forall i | 0 <= i < |sep| ensures !IsWhitespace(sep[i]) {
        assert sep[i] == ':';
      }
    }
    JoinNoWhitespace(p.segments, sep);
    NoWhitespaceAppend(sep, Join(p.segments, sep));
    TrimClean(Display(p));
  }

  /** Reading back a displayed path gives its segments behind the empty root
      segment, as long as every segment is plain. */
  lemma {:induction false} DisplayFromStr(p: CppPath)
    requires |p.segments| >= 1
    requires forall k :: 0 <= k < |p.segments| ==> PlainSegment(p.segments[k])
    ensures FromStr(Display(p)).segments == RootedSegments(p)
  {
    RootedJoin(p);
    SplitJoin(RootedSegments(p));
    DisplayTrimmed(p);
    FromStrTrimmed(Display(p));
  }

  lemma {:induction false} FromStrTrimmed(d: string)
    requires Trim(d) == d
    ensures FromStr(d).segments == SplitPath(d)
  {
  }

  lemma {:induction false} RootedJoin(p: CppPath)
    requires |p.segments| >= 1
    requires forall k :: 0 <= k < |p.segments| ==> NoColon(p.segments[k])
    ensures Join(RootedSegments(p), "::") == Display(p)
    ensures forall k :: 0 <= k < |RootedSegments(p)| ==> NoColon(RootedSegments(p)[k])
  {
    var rooted := RootedSegments(p);
    assert rooted[1..] == p.segments;
    assert "" + "::" + Join(p.segments, "::") == Display(p);
    forall k | 0 <= k < |rooted| ensures NoColon(rooted[k]) {
      if k > 0 { assert rooted[k] == p.segments[k - 1]; }
    }
  }

  /** `CppPath::name`: the last segment. */
  function Name(p: CppPath): (r: string)
    requires |p.segments| >= 1
    ensures Namespace(p) + [r] == p.segments
  {
    p.segments[|p.segments| - 1]
  }

  /** `CppPath::namespace`: every segment but the last. */
  function Namespace(p: CppPath): (r: seq<string>)
    requires |p.segments| >= 1
    ensures |r| == |p.segments| - 1
    ensures r == p.segments[..|r|]
  {
    p.segments[..|p.segments| - 1]
  }

  /** `CppPath::need_header`: a path under `rust` other than the three built-in
      templates `rust::Unit`, `rust::Ref` and `rust::RefMut`. */
  predicate NeedHeader(p: CppPath) {
    |p.segments| >= 1 && p.segments[0] == "rust"
    && p.segments != ["rust", "Unit"]
    && p.segments != ["rust", "Ref"]
    && p.segments != ["rust", "RefMut"]
  }

  /** `cpp_handle_keyword`: the names C++ reserves get an underscore appended. */
  function HandleKeyword(name: string): (r: string)
    ensures r != "new" && r != "default"
    ensures r == name || r == name + "_"
    ensures r == name <==> name != "new" && name != "default"
  {
    if name == "new" then "new_"
    else if name == "default" then "default_"
    else name
  }

  /** Renaming is idempotent: a renamed name is renamed no further. */
  lemma {:induction false} HandleKeywordIdempotent(name: string)
    ensures HandleKeyword(HandleKeyword(name)) == HandleKeyword(name)
  {
  }

  /** Renaming is not injective: `new` and `new_` end up with the same C++ name. */
  lemma {:induction false} HandleKeywordCollision()
    ensures HandleKeyword("new") == HandleKeyword("new_")
  {
  }

  /** `CppPath::from_rust_path`: the Rust path under a leading `rust`
      namespace, every segment keyword-renamed. */
  function FromRustPath(path: seq<string>): (r: CppPath)
    ensures |r.segments| == |path| + 1
    ensures r.segments[0] == "rust"
    ensures forall k :: 0 <= k < |path| ==> r.segments[k + 1] == HandleKeyword(path[k])
  {
    CppPath(seq(|path| + 1, k requires 0 <= k <= |path| =>
      if k == 0 then HandleKeyword("rust") else HandleKeyword(path[k - 1])))
  }

  /** A path that comes from Rust needs a forward declaration exactly when it
      is not `Unit`, `Ref` or `RefMut`. */
  lemma {:induction false} FromRustPathNeedHeader(path: seq<string>)
    ensures NeedHeader(FromRustPath(path))
            <==> path != ["Unit"] && path != ["Ref"] && path != ["RefMut"]
  {
    var r := FromRustPath(path);
    if |path| == 1 {
      assert r.segments == ["rust", HandleKeyword(path[0])];
    }
  }

  function DigitValue(c: char): nat {
    if '0' <= c <= '9' then (c as int - '0' as int) as nat else 0
  }

  predicate AllDigits(d: string) {
    forall k :: 0 <= k < |d| ==> '0' <= d[k] <= '9'
  }

  /** The value of a decimal digit string, most significant digit first. */
  function DecimalValue(d: string): nat
    decreases |d|
  {
    if d == [] then 0 else DecimalValue(d[..|d| - 1]) * 10 + DigitValue(d[|d| - 1])
  }

  /** `str::parse::<u32>` succeeds: an optional `+`, then at least one decimal
      digit, with a value below 2^32. */
  predicate ParsesAsU32(s: string) {
    var d := if |s| > 0 && s[0] == '+' then s[1..] else s;
    |d| > 0 && AllDigits(d) && DecimalValue(d) < 0x1_0000_0000
  }

  /** `cpp_handle_field_name`: a numeric (tuple) field gets an `f` in front,
      every other name the keyword renaming. */
  function HandleFieldName(name: string): (r: string)
    ensures r != "new" && r != "default"
    ensures ParsesAsU32(name) ==> r == "f" + name
    ensures !ParsesAsU32(name) ==> r == HandleKeyword(name)
  {
    if ParsesAsU32(name) then
      assert ("f" + name)[0] == 'f';
      "f" + name
    else
      HandleKeyword(name)
  }

  /** Reading back the decimal text of `n` gives `n`. */
  lemma {:induction false} DecimalOfNatToString(n: nat)
    ensures AllDigits(NatToString(n))
    ensures DecimalValue(NatToString(n)) == n
    decreases n
  {
    var s := NatToString(n);
    if n >= 10 {
      DecimalOfNatToString(n / 10);
      assert s[..|s| - 1] == NatToString(n / 10);
    }
  }

  /** Tuple field `n` is named `f` followed by its index, so distinct indices
      yield distinct C++ member names. */
  lemma {:induction false} TupleFieldName(n: nat, m: nat)
    requires n < 0x1_0000_0000 && m < 0x1_0000_0000
    ensures HandleFieldName(NatToString(n)) == "f" + NatToString(n)
    ensures n != m ==> HandleFieldName(NatToString(n)) != HandleFieldName(NatToString(m))
  {
    DecimalOfNatToString(n);
    DecimalOfNatToString(m);
    assert NatToString(n)[0] != '+';
    assert NatToString(m)[0] != '+';
    assert ("f" + NatToString(n))[1..] == NatToString(n);
    assert ("f" + NatToString(m))[1..] == NatToString(m);
  }

  /** The opening lines `emit_in_namespace` writes, one `namespace p {` per
      segment. */
  function OpenNamespaces(ns: seq<string>): string
    decreases |ns|
  {
    if ns == [] then "" else "namespace " + ns[0] + " {\n" + OpenNamespaces(ns[1..])
  }

  /** The closing lines `emit_in_namespace` writes, one `}` per segment. */
  function CloseNamespaces(n: nat): string
    decreases n
  {
    if n == 0 then "" else "}\n" + CloseNamespaces(n - 1)
  }

  predicate NoBrace(x: string) {
    forall i :: 0 <= i < |x| ==> x[i] != '{' && x[i] != '}'
  }

  lemma {:induction false} CountNoBrace(x: string)
    requires NoBrace(x)
    ensures Count('{', x) == 0 && Count('}', x) == 0
    decreases |x|
  {
    if x != [] {
      CountNoBrace(x[1..]);
    }
  }

  /** One opening line holds one `{` and no `}`. */
  lemma {:induction false} OpenLineBraces(x: string)
    requires NoBrace(x)
    ensures Count('{', "namespace " + x + " {\n") == 1
    ensures Count('}', "namespace " + x + " {\n") == 0
  {
    var kw := "namespace ";
    var tail := " {\n";
    KeywordBraces();
    TailBraces();
    CountNoBrace(x);
    CountAppend('{', kw, x);
    CountAppend('}', kw, x);
    CountAppend('{', kw + x, tail);
    CountAppend('}', kw + x, tail);
  }

  lemma {:induction false} KeywordBraces()
    ensures Count('{', "namespace ") == 0 && Count('}', "namespace ") == 0
  {
    var kw := "namespace ";
    assert NoBrace(kw) by {
      forall i | 0 <= i < |kw| ensures kw[i] != '{' && kw[i] != '}' {
        assert kw[i] in "namespace ";
      }
    }
    CountNoBrace(kw);
  }

  lemma {:induction false} TailBraces()
    ensures Count('{', " {\n") == 1 && Count('}', " {\n") == 0
  {
    var tail := " {\n";
    assert tail[1..][1..][1..] == [];
  }

  /** One closing line holds one `}` and no `{`. */
  lemma {:induction false} CloseLineBraces()
    ensures Count('}', "}\n") == 1 && Count('{', "}\n") == 0
  {
    assert "}\n"[1..][1..] == [];
  }

  /** The namespace wrapper opens one brace per namespace segment and closes
      exactly as many, whatever the body between them, as long as no segment
      contains a brace. */
  lemma {:induction false} NamespacesBalance(ns: seq<string>)
    requires forall k :: 0 <= k < |ns| ==> NoBrace(ns[k])
    ensures Count('{', OpenNamespaces(ns)) == |ns| && Count('}', OpenNamespaces(ns)) == 0
    ensures Count('}', CloseNamespaces(|ns|)) == |ns| && Count('{', CloseNamespaces(|ns|)) == 0
    decreases |ns|
  {
    if ns != [] {
      NamespacesBalance(ns[1..]);
      var head := "namespace " + ns[0] + " {\n";
      OpenLineBraces(ns[0]);
      CloseLineBraces();
      CountAppend('{', head, OpenNamespaces(ns[1..]));
      CountAppend('}', head, OpenNamespaces(ns[1..]));
      CountAppend('{', "}\n", CloseNamespaces(|ns| - 1));
      CountAppend('}', "}\n", CloseNamespaces(|ns| - 1));
    }
  }
}
