/**
  `split_string`: the generic-argument list of a C++ type is cut at the commas
  that sit outside every angle bracket. A counter goes up at `<` and down at
  `>`; a comma counts as a separator only while the counter is zero.
 */
module Splitting {
  import opened Strings

  /** How a character moves the bracket counter. */
  function Delta(c: char): int {
    if c == '<' then 1 else if c == '>' then -1 else 0
  }

  /** A comma seen while the counter is zero. */
  predicate IsSeparator(c: char, depth: int) {
    c == ',' && depth == 0
  }

  /** The counter after reading `x`, starting from `depth`. */
  function DepthAfter(x: string, depth: int): int
    decreases |x|
  {
    if x == [] then depth else DepthAfter(x[1..], depth + Delta(x[0]))
  }

  /** Reading `x` from `depth` meets no separator. */
  predicate NoSeparator(x: string, depth: int)
    decreases |x|
  {
    x == [] || (!IsSeparator(x[0], depth) && NoSeparator(x[1..], depth + Delta(x[0])))
  }

  /** The text with its separators taken out. */
  function WithoutSeparators(s: string, depth: int): string
    decreases |s|
  {
    if s == [] then []
    else if IsSeparator(s[0], depth) then WithoutSeparators(s[1..], depth)
    else [s[0]] + WithoutSeparators(s[1..], depth + Delta(s[0]))
  }

  /** Number of separators in the text. */
  function SeparatorCount(s: string, depth: int): nat
    decreases |s|
  {
    if s == [] then 0
    else if IsSeparator(s[0], depth) then 1 + SeparatorCount(s[1..], depth)
    else SeparatorCount(s[1..], depth + Delta(s[0]))
  }

  /** Every piece between separators, the last one included even when it is
      empty. This is the specification the splitting loop is proved against. */
  function Fields(s: string, depth: int): (r: seq<string>)
    ensures |r| >= 1
    decreases |s|
  {
    if s == [] then [""]
    else if IsSeparator(s[0], depth) then [""] + Fields(s[1..], depth)
    else Prepend([s[0]], Fields(s[1..], depth + Delta(s[0])))
  }

  /** Putting the commas back between the pieces gives the text again. */
  lemma {:induction false} FieldsJoin(s: string, depth: int)
    ensures Join(Fields(s, depth), ",") == s
    decreases |s|
  {
    if s != [] {
      if IsSeparator(s[0], depth) {
        FieldsJoin(s[1..], depth);
        assert s == "," + s[1..];
        assert ([""] + Fields(s[1..], depth))[1..] == Fields(s[1..], depth);
      } else {
        var rest := Fields(s[1..], depth + Delta(s[0]));
        FieldsJoin(s[1..], depth + Delta(s[0]));
        JoinPrepend([s[0]], rest, ",");
        assert s == [s[0]] + s[1..];
      }
    }
  }

  /** `split_string`'s result: the pieces between separators, without the last
      piece when that one is empty. */
  function TopLevelParts(s: string): (r: seq<string>)
    ensures var f := Fields(s, 0); f[|f| - 1] != "" ==> r == f
    ensures var f := Fields(s, 0); f[|f| - 1] == "" ==> r + [""] == f
    ensures forall k :: 0 <= k < |r| ==> |r[k]| <= |s|
  {
    var f := Fields(s, 0);
    FieldsJoin(s, 0);
    JoinBoundsParts(f, ",");
    if f[|f| - 1] == "" then
      assert f[..|f| - 1] + [""] == f;
      f[..|f| - 1]
    else
      f
  }

  /** The loop of `split_string`: it walks the characters once, collecting the
      finished parts and the part under construction. */
  method SplitString(input: string) returns (parts: seq<string>)
    ensures parts == TopLevelParts(input)
  {
    parts := [];
    var currentPart := "";
    var parenthesesCount := 0;
    var i := 0;
    assert input[0..] == input;
    PrependEmpty(Fields(input, 0));
    while i < |input|
      invariant 0 <= i <= |input|
      invariant parts + Prepend(currentPart, Fields(input[i..], parenthesesCount)) == Fields(input, 0)
    {
      var c := input[i];
      if c == ',' && parenthesesCount == 0 {
        SeparatorAdvance(input, i, parts, currentPart, parenthesesCount);
        parts := parts + [currentPart];
        currentPart := "";
      } else {
        CharAdvance(input, i, parts, currentPart, parenthesesCount);
        if c == '<' {
          parenthesesCount := parenthesesCount + 1;
        } else if c == '>' {
          parenthesesCount := parenthesesCount - 1;
        }
        currentPart := currentPart + [c];
      }
      i := i + 1;
    }
    assert input[i..] == [];
    assert currentPart + "" == currentPart;
    ghost var f := Fields(input, 0);
    assert f == parts + [currentPart];
    assert f[|f| - 1] == currentPart;
    if currentPart != "" {
      parts := parts + [currentPart];
    }
  }

  /** One character of the walk, as the specification sees it. */
  lemma {:induction false} FieldsStep(input: string, i: int, depth: int)
    requires 0 <= i < |input|
    ensures IsSeparator(input[i], depth) ==>
              Fields(input[i..], depth) == [""] + Fields(input[i + 1..], depth)
    ensures !IsSeparator(input[i], depth) ==>
              Fields(input[i..], depth) == Prepend([input[i]], Fields(input[i + 1..], depth + Delta(input[i])))
  {
    assert input[i..][0] == input[i] && input[i..][1..] == input[i + 1..];
  }

  /** The loop invariant survives a separator. */
  lemma {:induction false} SeparatorAdvance(input: string, i: int, parts: seq<string>, current: string, depth: int)
    requires 0 <= i < |input| && IsSeparator(input[i], depth)
    requires parts + Prepend(current, Fields(input[i..], depth)) == Fields(input, 0)
    ensures (parts + [current]) + Prepend("", Fields(input[i + 1..], depth)) == Fields(input, 0)
  {
    var rest := Fields(input[i + 1..], depth);
    FieldsStep(input, i, depth);
    PrependEmpty(rest);
    assert current + "" == current;
    assert Prepend(current, [""] + rest) == [current] + rest;
  }

  /** The loop invariant survives any other character. */
  lemma {:induction false} CharAdvance(input: string, i: int, parts: seq<string>, current: string, depth: int)
    requires 0 <= i < |input| && !IsSeparator(input[i], depth)
    requires parts + Prepend(current, Fields(input[i..], depth)) == Fields(input, 0)
    ensures parts + Prepend(current + [input[i]], Fields(input[i + 1..], depth + Delta(input[i])))
            == Fields(input, 0)
  {
    var rest := Fields(input[i + 1..], depth + Delta(input[i]));
    FieldsStep(input, i, depth);
    PrependTwice(current, [input[i]], rest);
  }

  lemma {:induction false} PrependEmpty(parts: seq<string>)
    requires |parts| > 0
    ensures Prepend("", parts) == parts
  {
    assert "" + parts[0] == parts[0];
  }

  lemma {:induction false} PrependTwice(x: string, y: string, parts: seq<string>)
    requires |parts| > 0
    ensures Prepend(x, Prepend(y, parts)) == Prepend(x + y, parts)
  {
    assert x + (y + parts[0]) == (x + y) + parts[0];
  }

  /** Gluing the pieces back together gives the text without its separators:
      only commas outside all brackets are dropped. */
  lemma {:induction false} FieldsConcat(s: string, depth: int)
    ensures Concat(Fields(s, depth)) == WithoutSeparators(s, depth)
    decreases |s|
  {
    if s != [] {
      if IsSeparator(s[0], depth) {
        FieldsConcat(s[1..], depth);
        assert ([""] + Fields(s[1..], depth))[1..] == Fields(s[1..], depth);
      } else {
        FieldsConcat(s[1..], depth + Delta(s[0]));
        ConcatPrepend([s[0]], Fields(s[1..], depth + Delta(s[0])));
      }
    }
  }

  /** `split_string` keeps exactly the characters that are not separators,
      in order. */
  lemma {:induction false} TopLevelConcat(s: string)
    ensures Concat(TopLevelParts(s)) == WithoutSeparators(s, 0)
  {
    var f := Fields(s, 0);
    FieldsConcat(s, 0);
    if f[|f| - 1] == "" {
      var r := TopLevelParts(s);
      ConcatAppend(r, "");
      assert Concat(r) + "" == Concat(r);
    }
  }

  /** `split_string` returns one part per separator, plus one unless the text
      after the last separator is empty. */
  lemma {:induction false} TopLevelCount(s: string)
    ensures var f := Fields(s, 0);
            |TopLevelParts(s)| == SeparatorCount(s, 0) + (if f[|f| - 1] == "" then 0 else 1)
  {
    FieldsCount(s, 0);
  }

  /** There is one piece more than there are separators. */
  lemma {:induction false} FieldsCount(s: string, depth: int)
    ensures |Fields(s, depth)| == SeparatorCount(s, depth) + 1
    decreases |s|
  {
    if s != [] {
      if IsSeparator(s[0], depth) {
        FieldsCount(s[1..], depth);
      } else {
        FieldsCount(s[1..], depth + Delta(s[0]));
      }
    }
  }

  /** Each piece is read without meeting a separator: the first from the
      starting counter, every later one from zero, and every piece but the
      last ends with the counter at zero. A comma inside brackets therefore
      never splits a piece. */
  lemma {:induction false} FieldsShape(s: string, depth: int)
    ensures NoSeparator(Fields(s, depth)[0], depth)
    ensures |Fields(s, depth)| > 1 ==> DepthAfter(Fields(s, depth)[0], depth) == 0
    ensures forall k :: 1 <= k < |Fields(s, depth)| ==> NoSeparator(Fields(s, depth)[k], 0)
    ensures forall k :: 1 <= k < |Fields(s, depth)| - 1 ==> DepthAfter(Fields(s, depth)[k], 0) == 0
    decreases |s|
  {
    if s != [] {
      var f := Fields(s, depth);
      if IsSeparator(s[0], depth) {
        var rest := Fields(s[1..], 0);
        FieldsShape(s[1..], 0);
        assert f == [""] + rest;
        forall k | 1 <= k < |f| ensures NoSeparator(f[k], 0) {
          assert f[k] == rest[k - 1];
        }
      } else {
        var d := depth + Delta(s[0]);
        var rest := Fields(s[1..], d);
        FieldsShape(s[1..], d);
        assert f[0] == [s[0]] + rest[0];
        assert f[0][1..] == rest[0];
        assert forall k :: 1 <= k < |f| ==> f[k] == rest[k];
      }
    }
  }

  /** Appending text that holds no separator grows the first piece. */
  lemma {:induction false} FieldsAppend(x: string, rest: string, depth: int)
    requires NoSeparator(x, depth)
    ensures Fields(x + rest, depth) == Prepend(x, Fields(rest, DepthAfter(x, depth)))
    decreases |x|
  {
    if x == [] {
      assert x + rest == rest;
      PrependEmpty(Fields(rest, depth));
    } else {
      var s := x + rest;
      var d := depth + Delta(x[0]);
      assert s[0] == x[0] && s[1..] == x[1..] + rest;
      FieldsAppend(x[1..], rest, d);
      assert Fields(s, depth) == Prepend([x[0]], Fields(x[1..] + rest, d));
      PrependTwice([x[0]], x[1..], Fields(rest, DepthAfter(x[1..], d)));
      assert [x[0]] + x[1..] == x;
    }
  }

  /** Text with no separator is a single piece. */
  lemma {:induction false} FieldsNoSeparator(x: string, depth: int)
    requires NoSeparator(x, depth)
    ensures Fields(x, depth) == [x]
  {
    FieldsAppend(x, "", depth);
    assert x + "" == x;
    assert Prepend(x, [""]) == [x + ""];
  }

  /** The pieces returned for a comma-joined list are the list again, as long
      as no element holds a separator and every element but the last closes
      all the brackets it opens. */
  lemma {:induction false} FieldsOfJoin(parts: seq<string>)
    requires |parts| >= 1
    requires forall k :: 0 <= k < |parts| ==> NoSeparator(parts[k], 0)
    requires forall k :: 0 <= k < |parts| - 1 ==> DepthAfter(parts[k], 0) == 0
    ensures Fields(Join(parts, ","), 0) == parts
    decreases |parts|
  {
    if |parts| == 1 {
      FieldsNoSeparator(parts[0], 0);
    } else {
      var tail := Join(parts[1..], ",");
      FieldsOfJoin(parts[1..]);
      assert Join(parts, ",") == parts[0] + ("," + tail);
      FieldsAppend(parts[0], "," + tail, 0);
      assert ("," + tail)[0] == ',' && ("," + tail)[1..] == tail;
      assert Fields("," + tail, 0) == [""] + parts[1..];
      assert parts[0] + "" == parts[0];
      assert Prepend(parts[0], [""] + parts[1..]) == parts;
    }
  }

  /** Empty pieces in the middle are kept; only a trailing empty piece goes. */
  lemma {:induction false} KeepsInnerEmptyParts()
    ensures TopLevelParts(",,a") == ["", "", "a"]
    ensures TopLevelParts("a,") == ["a"]
  {
    var s := ",,a";
    assert s[1..] == ",a" && s[1..][1..] == "a" && s[1..][1..][1..] == "";
    assert Fields("a", 0) == ["a"] by {
      assert "a"[1..] == "" && ['a'] + "" == "a";
      assert Fields("a", 0) == Prepend(['a'], [""]);
    }
    var t := "a,";
    assert t[1..] == "," && t[1..][1..] == "";
    assert Fields(",", 0) == ["", ""];
    assert Fields(t, 0) == ["a", ""];
  }

  /** A comma inside brackets does not split. */
  lemma {:induction false} NestedCommaKept()
    ensures TopLevelParts("a<b,c>,d") == ["a<b,c>", "d"]
  {
    var x := "a<b,c>";
    assert NoSeparator(x, 0) && DepthAfter(x, 0) == 0 by {
      assert x[1..] == "<b,c>" && x[2..] == "b,c>" && x[3..] == ",c>";
      assert x[4..] == "c>" && x[5..] == ">" && x[6..] == "";
      assert x[1..][1..] == x[2..] && x[2..][1..] == x[3..] && x[3..][1..] == x[4..];
      assert x[4..][1..] == x[5..] && x[5..][1..] == x[6..];
    }
    var d := "d";
    assert NoSeparator(d, 0) by { assert d[1..] == ""; }
    FieldsOfJoin([x, d]);
    assert Join([x, d], ",") == "a<b,c>,d";
  }
}
