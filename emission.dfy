/**
  The decisions `CppTypeDefinition::emit` and `emit_cpp_fn_defs` take for
  one type, as values rather than text: on which wrappers a method is
  reachable, whether the class carries a drop flag, what its size function
  returns, and which generation-time panics stop the generator.
 */
module Emission {
  import opened Base
  import opened Paths
  import opened Types
  import opened Model
  import opened Links

  /** The C++ wrappers besides the owning class through which a method can
      be called: references and fields of the three ownership kinds. */
  datatype View = RefView | RefMutView | FieldOwnedView | FieldRefView | FieldRefMutView

  /** The wrappers that only give shared access. */
  predicate ReadOnly(v: View) {
    v == RefView || v == FieldRefView
  }

  /** The rule the generator follows: a method taking `&self` is reachable
      through every wrapper, one taking `&mut self` only through those that
      give mutable access, and other methods through none. */
  predicate Exposed(m: Method, v: View) {
    m.kind.RefReceiver? && (m.kind.mutability == Not || !ReadOnly(v))
  }

  /** The loops of `emit_ref_specialization` and `emit_field_specialization`
      over their wrapper kinds: a `&self`/`&mut self` method is declared on
      each, except a mutable one on a read-only wrapper. */
  function DeclaredOn(m: Method, kinds: seq<View>): (r: seq<View>)
    ensures forall v :: v in r <==> v in kinds && Exposed(m, v)
    decreases |kinds|
  {
    if kinds == [] then []
    else
      (if m.kind.RefReceiver? && !(m.kind.mutability == Mut && ReadOnly(kinds[0])) then [kinds[0]] else [])
      + DeclaredOn(m, kinds[1..])
  }

  /** The two loops together cover every wrapper kind. */
  lemma {:induction false} EveryView()
    ensures forall v: View :: v in [RefMutView, RefView] || v in [FieldOwnedView, FieldRefView, FieldRefMutView]
  {
    forall v: View
      ensures v in [RefMutView, RefView] || v in [FieldOwnedView, FieldRefView, FieldRefMutView]
    {
      match v
      case RefMutView => assert v == [RefMutView, RefView][0];
      case RefView => assert v == [RefMutView, RefView][1];
      case FieldOwnedView => assert v == [FieldOwnedView, FieldRefView, FieldRefMutView][0];
      case FieldRefView => assert v == [FieldOwnedView, FieldRefView, FieldRefMutView][1];
      case FieldRefMutView => assert v == [FieldOwnedView, FieldRefView, FieldRefMutView][2];
    }
  }

  /** The declarations inside the `RefMut`, `Ref`, `FieldOwned`, `FieldRef`
      and `FieldRefMut` specialisations. */
  function DeclaredViews(m: Method): (r: seq<View>)
    ensures forall v :: v in r <==> Exposed(m, v)
  {
    var refs := DeclaredOn(m, [RefMutView, RefView]);
    var fields := DeclaredOn(m, [FieldOwnedView, FieldRefView, FieldRefMutView]);
    assert forall v :: v in refs + fields <==> v in refs || v in fields;
    EveryView();
    refs + fields
  }

  /** The definitions `emit_cpp_fn_defs` writes for a method: the field
      kinds, then the reference kinds, chosen by the receiver's mutability.
      They cover exactly the declared wrappers. */
  function DefinedViews(m: Method): (r: seq<View>)
    ensures forall v :: v in r <==> v in DeclaredViews(m)
  {
    EveryView();
    match m.kind
    case RefReceiver(Mut) => [FieldOwnedView, FieldRefMutView] + [RefMutView]
    case RefReceiver(Not) => [FieldOwnedView, FieldRefMutView, FieldRefView] + [RefView, RefMutView]
    case _ => []
  }

  predicate IsUnit(td: TypeDef) {
    td.ty.path.segments == ["rust", "Unit"]
  }

  predicate IsBool(td: TypeDef) {
    Display(td.ty.path) == "::rust::Bool"
  }

  /** Whether the owning class declares the member form of a method (the
      static form is always declared): `emit` writes the class body for
      every type but `Unit`, and the member form for every receiver but a
      static one. */
  predicate DeclaresMember(td: TypeDef, m: Method) {
    !IsUnit(td) && m.kind != Static
  }

  /** Whether `emit_cpp_fn_defs` defines the member form: only on sized
      types the C++ side can hold by value. */
  predicate DefinesMember(td: TypeDef, m: Method) {
    !IsUnsized(td) && !td.layout.OnlyByRef? && m.kind != Static
  }

  /** What the generator writes for one method of one type. */
  datatype MethodPlan = MethodPlan(
    declaredViews: seq<View>, definedViews: seq<View>,
    memberDeclared: bool, memberDefined: bool)

  /** Every definition has its declaration: the wrappers agree, and a
      defined member form is declared unless the type is `Unit`. */
  function PlanMethod(td: TypeDef, m: Method): (p: MethodPlan)
    ensures forall v :: v in p.definedViews <==> v in p.declaredViews
    ensures forall v :: v in p.declaredViews <==> Exposed(m, v)
    ensures !IsUnit(td) && p.memberDefined ==> p.memberDeclared
    ensures p.memberDefined ==> m.kind != Static && !IsUnsized(td)
  {
    MethodPlan(DeclaredViews(m), DefinedViews(m), DeclaresMember(td, m), DefinesMember(td, m))
  }

  /** A `&mut self` method is defined on `RefMut`, `FieldOwned` and
      `FieldRefMut` and never on `Ref` or `FieldRef`; a `&self` method is
      declared and defined on all five wrappers; other receivers on none. */
  lemma {:induction false} ViewsOfReceivers(m: Method)
    ensures m.kind == RefReceiver(Mut) ==> RefView !in DefinedViews(m) && FieldRefView !in DefinedViews(m)
    ensures m.kind == RefReceiver(Mut) ==> RefMutView in DefinedViews(m) && FieldOwnedView in DefinedViews(m)
                                           && FieldRefMutView in DefinedViews(m)
    ensures m.kind == RefReceiver(Not) ==> forall v: View :: v in DeclaredViews(m) && v in DefinedViews(m)
    ensures !m.kind.RefReceiver? ==> DeclaredViews(m) == [] && DefinedViews(m) == []
  {
    if m.kind == RefReceiver(Mut) {
      assert !Exposed(m, RefView) && !Exposed(m, FieldRefView);
    }
    if !m.kind.RefReceiver? {
      assert DeclaredOn(m, [RefMutView, RefView]) == [];
      assert DeclaredOn(m, [FieldOwnedView, FieldRefView, FieldRefMutView]) == [];
    }
  }

  /** `emit` gives the class a `drop_flag` when it writes a class body for
      a type held by value that is not Copy. */
  function HasDropFlag(td: TypeDef): (r: bool)
    ensures r ==> !IsCopy(td) && !td.layout.OnlyByRef? && !IsUnit(td)
  {
    !IsUnit(td) && !td.layout.OnlyByRef? && !IsCopy(td)
  }

  /** The `drop_in_place` symbol `emit` picks: that of the first Drop trait. */
  function FirstDrop(ts: seq<WellknownTrait>): (r: Option<string>)
    ensures r.Some? ==> exists j :: 0 <= j < |ts| && ts[j] == Drop(r.value)
                                    && forall k :: 0 <= k < j ==> !ts[k].Drop?
    ensures r.None? ==> forall k :: 0 <= k < |ts| ==> !ts[k].Drop?
    decreases |ts|
  {
    if ts == [] then None
    else if ts[0].Drop? then Some(ts[0].dropInPlace)
    else
      var r := FirstDrop(ts[1..]);
      if r.Some? then
        var j :| 0 <= j < |ts[1..]| && ts[1..][j] == Drop(r.value)
                 && forall k :: 0 <= k < j ==> !ts[1..][k].Drop?;
        assert ts[j + 1] == Drop(r.value);
        assert forall k :: 0 <= k < j + 1 ==> !ts[k].Drop? by {
          forall k | 0 <= k < j + 1 ensures !ts[k].Drop? {
            if k > 0 { assert ts[k] == ts[1..][k - 1]; }
          }
        }
        r
      else r
  }

  /** What `__zngur_internal_size_of` returns for the owning type. */
  datatype SizeOf = Literal(bytes: nat) | SizeFnCall(sizeFn: string)

  /** The size of a by-value type: its stack size, or a call of the size
      function of a heap layout, which is one of the type's link names so
      the dispatch table loads it; a type only held by reference has none. */
  function OwnerSize(td: TypeDef): (r: Option<SizeOf>)
    ensures r.None? <==> td.layout.OnlyByRef?
    ensures td.layout.StackAllocated? ==> r == Some(Literal(td.layout.size))
    ensures td.layout.HeapAllocated? ==> r == Some(SizeFnCall(td.layout.sizeFn))
    ensures r.Some? && r.value.SizeFnCall? ==> r.value.sizeFn in LinkNames(td)
  {
    match td.layout
    case StackAllocated(size, _) => Some(Literal(size))
    case HeapAllocated(sizeFn, _, _) =>
      assert LayoutLinkNames(td.layout) == [sizeFn, td.layout.allocFn, td.layout.freeFn];
      Some(SizeFnCall(sizeFn))
    case OnlyByRef => None
  }

  /** The size of `Ref`/`RefMut` of the type: a pointer, or a pointer and a
      length for an unsized type. */
  function RefSize(td: TypeDef): (r: nat)
    ensures r == 16 <==> IsUnsized(td)
    ensures r == 8 <==> !IsUnsized(td)
  {
    if IsUnsized(td) then 16 else 8
  }

  /** The panics of `emit`, in the order it meets them: the namespace of a
      path with no segment, the two assertions on `::rust::Bool`, and the
      `unwrap` of the Drop data of a type that is not Copy. `Unit` gets no
      class body, and a type only held by reference one without storage, so
      neither meets the later checks. */
  function TypePanic(td: TypeDef): (r: Option<Reason>)
    ensures r.None? && !IsUnit(td) && !td.layout.OnlyByRef? ==>
              IsCopy(td) || FirstDrop(td.wellknownTraits).Some?
    ensures r.None? && IsBool(td) && !td.layout.OnlyByRef? ==>
              td.layout == StackAllocated(1, 1) && IsCopy(td)
    ensures r.Some? ==> r.value in {EmptyPath, BoolLayoutMismatch, BoolNotCopy, MissingDropInPlace}
    ensures |td.ty.path.segments| == 0 <==> r == Some(EmptyPath)
    ensures r == Some(BoolLayoutMismatch) <==>
              |td.ty.path.segments| > 0 && !IsUnit(td) && !td.layout.OnlyByRef?
              && IsBool(td) && td.layout != StackAllocated(1, 1)
    ensures r == Some(BoolNotCopy) <==>
              |td.ty.path.segments| > 0 && !IsUnit(td) && !td.layout.OnlyByRef?
              && IsBool(td) && td.layout == StackAllocated(1, 1) && !IsCopy(td)
    ensures r == Some(MissingDropInPlace) <==>
              |td.ty.path.segments| > 0 && !IsUnit(td) && !td.layout.OnlyByRef?
              && !IsBool(td) && !IsCopy(td) && FirstDrop(td.wellknownTraits).None?
  {
    if |td.ty.path.segments| == 0 then Some(EmptyPath)
    else if IsUnit(td) then (UnitIsNotBool(td); None)
    else if td.layout.OnlyByRef? then None
    else if IsBool(td) && td.layout != StackAllocated(1, 1) then Some(BoolLayoutMismatch)
    else if IsBool(td) && !IsCopy(td) then Some(BoolNotCopy)
    else if !IsCopy(td) && FirstDrop(td.wellknownTraits).None? then Some(MissingDropInPlace)
    else None
  }

  lemma {:induction false} UnitIsNotBool(td: TypeDef)
    requires IsUnit(td)
    ensures !IsBool(td)
  {
    assert Display(td.ty.path) == "::rust::Unit" by {
      assert Strings.Join(td.ty.path.segments, "::") == "rust::Unit";
    }
    assert "::rust::Unit"[8] != "::rust::Bool"[8];
  }

  /** A method whose generated forwarding code drops its first input: the
      `inputs.len() - 1` of the wrappers cannot be computed when a method
      with a receiver has no input at all. */
  predicate MissingSelf(td: TypeDef, m: Method) {
    |m.sig.inputs| == 0 && (m.kind.RefReceiver? || DefinesMember(td, m))
  }

  /** The panics of `emit_cpp_fn_defs`: the `todo!()` for a type built
      from a reference to a `Fn` trait, then the subtraction of a method
      with a receiver and no inputs. */
  function FnDefsPanic(td: TypeDef, traits: map<RustTrait, TraitDef>): (r: Option<Reason>)
    ensures r == Some(FnTraitRefUnimplemented) <==>
              td.fromTraitRef.Some? && td.fromTraitRef.value in traits && traits[td.fromTraitRef.value].FnTraitDef?
    ensures r.None? ==> forall k :: 0 <= k < |td.methods| && td.methods[k].kind.RefReceiver? ==>
                          |td.methods[k].sig.inputs| >= 1
    ensures r.None? ==> forall k :: 0 <= k < |td.methods| && DefinesMember(td, td.methods[k]) ==>
                          |td.methods[k].sig.inputs| >= 1
    ensures r == Some(ReceiverWithoutInputs) <==>
              !(td.fromTraitRef.Some? && td.fromTraitRef.value in traits && traits[td.fromTraitRef.value].FnTraitDef?)
              && exists k :: 0 <= k < |td.methods| && MissingSelf(td, td.methods[k])
    ensures r.Some? ==> r.value in {FnTraitRefUnimplemented, ReceiverWithoutInputs}
  {
    if td.fromTraitRef.Some? && td.fromTraitRef.value in traits && traits[td.fromTraitRef.value].FnTraitDef? then
      Some(FnTraitRefUnimplemented)
    else if exists k :: 0 <= k < |td.methods| && MissingSelf(td, td.methods[k]) then
      Some(ReceiverWithoutInputs)
    else
      None
  }

  /** Without trait definitions the `todo!()` is never reached. */
  lemma {:induction false} NoTraitsNoTodo(td: TypeDef, traits: map<RustTrait, TraitDef>)
    requires |traits| == 0
    ensures FnDefsPanic(td, traits) != Some(FnTraitRefUnimplemented)
  {
    if td.fromTraitRef.Some? {
      assert td.fromTraitRef.value !in traits;
    }
  }

  /** A class with a drop flag whose emission did not panic has the
      `drop_in_place` its destructor calls, and that symbol is one of the
      type's link names, so the dispatch table loads it. */
  lemma {:induction false} DropFlagDropLinked(td: TypeDef)
    requires TypePanic(td).None? && HasDropFlag(td)
    ensures FirstDrop(td.wellknownTraits).Some?
    ensures FirstDrop(td.wellknownTraits).value in LinkNames(td)
  {
    var d := FirstDrop(td.wellknownTraits).value;
    var k :| 0 <= k < |td.wellknownTraits| && td.wellknownTraits[k] == Drop(d);
    assert d in TraitLinkNames(td.wellknownTraits[k]);
    LinkNamesMembers(td, d);
  }

  /** A Copy type never reaches the `unwrap` of its Drop data. */
  lemma {:induction false} CopyNeedsNoDrop(td: TypeDef)
    requires IsCopy(td)
    ensures TypePanic(td) != Some(MissingDropInPlace)
    ensures !HasDropFlag(td)
  {
  }
}
