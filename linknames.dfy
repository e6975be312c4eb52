/**
  `CppTypeDefinition::get_link_names`: every Rust symbol a type needs at the
  boundary, in a fixed order. `LinkNames` is the list as a value; the method
  `GetLinkNames` builds it by pushing, as the generator does.
 */
module Links {
  import opened Base
  import opened Model

  /** The symbols a well-known trait contributes: Debug gives its pretty
      printer then its debug printer, Drop its `drop_in_place`, Copy and
      Unsized nothing. */
  function TraitLinkNames(t: WellknownTrait): (r: seq<string>)
    ensures t.Debug? ==> r == [t.prettyPrint, t.debugPrint]
    ensures t.Drop? ==> r == [t.dropInPlace]
    ensures t.Copy? || t.Unsized? ==> r == []
  {
    match t
    case Debug(pretty, debug) => [pretty, debug]
    case Drop(drop) => [drop]
    case _ => []
  }

  function WellknownLinkNames(ts: seq<WellknownTrait>): seq<string>
    decreases |ts|
  {
    if ts == [] then [] else TraitLinkNames(ts[0]) + WellknownLinkNames(ts[1..])
  }

  /** A heap-allocated layout brings its size, allocation and free
      functions. */
  function LayoutLinkNames(l: Layout): (r: seq<string>)
    ensures l.HeapAllocated? ==> r == [l.sizeFn, l.allocFn, l.freeFn]
    ensures !l.HeapAllocated? ==> r == []
  {
    match l
    case HeapAllocated(size, alloc, free) => [size, alloc, free]
    case _ => []
  }

  function MethodLinkNames(ms: seq<Method>): (r: seq<string>)
    ensures |r| == |ms| && forall k :: 0 <= k < |ms| ==> r[k] == ms[k].sig.rustLinkName
  {
    seq(|ms|, k requires 0 <= k < |ms| => ms[k].sig.rustLinkName)
  }

  function ConstructorLinkNames(cs: seq<FnSig>): (r: seq<string>)
    ensures |r| == |cs| && forall k :: 0 <= k < |cs| ==> r[k] == cs[k].rustLinkName
  {
    seq(|cs|, k requires 0 <= k < |cs| => cs[k].rustLinkName)
  }

  /** The names `get_link_names` returns, in order: methods, constructors,
      the heap functions, then the well-known traits in their order. */
  function LinkNames(td: TypeDef): seq<string> {
    MethodLinkNames(td.methods) + ConstructorLinkNames(td.constructors)
    + LayoutLinkNames(td.layout) + WellknownLinkNames(td.wellknownTraits)
  }

  /** `get_link_names`: the names pushed one by one; a type with a C++
      value cannot go through the dynamic API and stops the generator. */
  method GetLinkNames(td: TypeDef) returns (r: Result<seq<string>>)
    ensures td.cppValue.Some? ==> r == Panic(CppValueWithDynApi)
    ensures td.cppValue.None? ==> r == Ok(LinkNames(td))
  {
    var names: seq<string> := [];
    var i := 0;
    while i < |td.methods|
      invariant 0 <= i <= |td.methods|
      invariant names == MethodLinkNames(td.methods[..i])
    {
      MethodNamesSnoc(td.methods, i);
      names := names + [td.methods[i].sig.rustLinkName];
      i := i + 1;
    }
    assert td.methods[..i] == td.methods;
    var j := 0;
    while j < |td.constructors|
      invariant 0 <= j <= |td.constructors|
      invariant names == MethodLinkNames(td.methods) + ConstructorLinkNames(td.constructors[..j])
    {
      ConstructorNamesSnoc(td.constructors, j);
      names := names + [td.constructors[j].rustLinkName];
      j := j + 1;
    }
    assert td.constructors[..j] == td.constructors;
    if td.cppValue.Some? {
      return Panic(CppValueWithDynApi);
    }
    if td.layout.HeapAllocated? {
      names := names + [td.layout.sizeFn];
      names := names + [td.layout.allocFn];
      names := names + [td.layout.freeFn];
    }
    assert names == MethodLinkNames(td.methods) + ConstructorLinkNames(td.constructors)
                    + LayoutLinkNames(td.layout);
    names := PushTraitNames(names, td.wellknownTraits);
    return Ok(names);
  }

  /** The loop of `get_link_names` over the well-known traits. */
  method PushTraitNames(start: seq<string>, ts: seq<WellknownTrait>) returns (names: seq<string>)
    ensures names == start + WellknownLinkNames(ts)
  {
    names := start;
    var k := 0;
    while k < |ts|
      invariant 0 <= k <= |ts|
      invariant names == start + WellknownLinkNames(ts[..k])
    {
      var tr := ts[k];
      WellknownSnoc(ts[..k], tr);
      assert ts[..k + 1] == ts[..k] + [tr];
      match tr {
        case Debug(pretty, debug) =>
          names := names + [pretty];
          names := names + [debug];
        case Unsized =>
        case Copy =>
        case Drop(drop) =>
          names := names + [drop];
      }
      k := k + 1;
    }
    assert ts[..k] == ts;
  }

  lemma {:induction false} MethodNamesSnoc(ms: seq<Method>, i: nat)
    requires i < |ms|
    ensures MethodLinkNames(ms[..i + 1]) == MethodLinkNames(ms[..i]) + [ms[i].sig.rustLinkName]
  {
  }

  lemma {:induction false} ConstructorNamesSnoc(cs: seq<FnSig>, i: nat)
    requires i < |cs|
    ensures ConstructorLinkNames(cs[..i + 1]) == ConstructorLinkNames(cs[..i]) + [cs[i].rustLinkName]
  {
  }

  lemma {:induction false} WellknownSnoc(ts: seq<WellknownTrait>, t: WellknownTrait)
    ensures WellknownLinkNames(ts + [t]) == WellknownLinkNames(ts) + TraitLinkNames(t)
    decreases |ts|
  {
    if ts == [] {
      assert [] + [t] == [t];
      assert [t][1..] == [];
    } else {
      assert (ts + [t])[0] == ts[0];
      assert (ts + [t])[1..] == ts[1..] + [t];
      WellknownSnoc(ts[1..], t);
    }
  }

  /** A symbol comes from the well-known traits exactly when one of them
      contributes it. */
  lemma {:induction false} WellknownMember(ts: seq<WellknownTrait>, x: string)
    ensures x in WellknownLinkNames(ts) <==> exists k :: 0 <= k < |ts| && x in TraitLinkNames(ts[k])
    decreases |ts|
  {
    if ts != [] {
      WellknownMember(ts[1..], x);
      if x in WellknownLinkNames(ts[1..]) {
        var k :| 0 <= k < |ts[1..]| && x in TraitLinkNames(ts[1..][k]);
        assert ts[1..][k] == ts[k + 1];
      }
      if exists k :: 0 <= k < |ts| && x in TraitLinkNames(ts[k]) {
        var k :| 0 <= k < |ts| && x in TraitLinkNames(ts[k]);
        if k > 0 {
          assert ts[1..][k - 1] == ts[k];
        }
      }
    }
  }

  /** What the list holds: every method's and constructor's symbol, the
      heap functions of a heap layout, and every symbol of a well-known
      trait, and nothing else. */
  lemma {:induction false} LinkNamesMembers(td: TypeDef, x: string)
    ensures x in LinkNames(td) <==>
              (exists k :: 0 <= k < |td.methods| && td.methods[k].sig.rustLinkName == x)
              || (exists k :: 0 <= k < |td.constructors| && td.constructors[k].rustLinkName == x)
              || (td.layout.HeapAllocated? && x in [td.layout.sizeFn, td.layout.allocFn, td.layout.freeFn])
              || (exists k :: 0 <= k < |td.wellknownTraits| && x in TraitLinkNames(td.wellknownTraits[k]))
  {
    var ms := MethodLinkNames(td.methods);
    var cs := ConstructorLinkNames(td.constructors);
    WellknownMember(td.wellknownTraits, x);
    assert x in ms <==> exists k :: 0 <= k < |td.methods| && td.methods[k].sig.rustLinkName == x by {
      if x in ms {
        var k :| 0 <= k < |ms| && ms[k] == x;
      }
    }
    assert x in cs <==> exists k :: 0 <= k < |td.constructors| && td.constructors[k].rustLinkName == x by {
      if x in cs {
        var k :| 0 <= k < |cs| && cs[k] == x;
      }
    }
  }

  /** The order: first the methods' symbols, then the constructors', each
      in declaration order. */
  lemma {:induction false} LinkNamesOrder(td: TypeDef)
    ensures var names := LinkNames(td);
            && |names| >= |td.methods| + |td.constructors|
            && (forall k :: 0 <= k < |td.methods| ==> names[k] == td.methods[k].sig.rustLinkName)
            && (forall k :: 0 <= k < |td.constructors| ==>
                  names[|td.methods| + k] == td.constructors[k].rustLinkName)
  {
  }
}
