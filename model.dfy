/**
  What the generator is given: the type definitions, trait definitions and
  functions of one `CppFile`, as the parser of the interface description
  hands them over. Rust traits and field types stay abstract: only their
  identity matters to the decisions modelled here.
 */
module Model {
  import opened Base
  import opened Paths
  import opened Types

  /** `zngur_def::Mutability`. */
  datatype Mutability = Mut | Not

  /** `zngur_def::ZngurMethodReceiver`: how a method takes `self`. */
  datatype Receiver = Static | RefReceiver(mutability: Mutability) | Move

  /** `CppFnSig`: the Rust symbol behind a function and its C++ signature. */
  datatype FnSig = FnSig(rustLinkName: string, inputs: seq<CppType>, output: CppType)

  /** `CppMethod`. */
  datatype Method = Method(name: string, kind: Receiver, sig: FnSig)

  /** `CppLayoutPolicy`: how a Rust value is stored on the C++ side. */
  datatype Layout =
    | StackAllocated(size: nat, align: nat)
    | HeapAllocated(sizeFn: string, allocFn: string, freeFn: string)
    | OnlyByRef

  /** `ZngurWellknownTraitData`. */
  datatype WellknownTrait =
    | Debug(prettyPrint: string, debugPrint: string)
    | Unsized
    | Copy
    | Drop(dropInPlace: string)

  /** A Rust trait, known only by its identity. */
  datatype RustTrait = RustTrait(id: nat)

  /** A field of a type: its name and byte offset. */
  datatype Field = Field(name: string, offset: nat)

  /** `CppTraitMethod`. */
  datatype TraitMethod = TraitMethod(name: string, rustLinkName: string, inputs: seq<CppType>, output: CppType)

  /** `CppTraitDefinition`. */
  datatype TraitDef =
    | FnTraitDef(sig: FnSig)
    | NormalTraitDef(asTy: CppType, methods: seq<TraitMethod>, linkName: string, linkNameRef: string)

  /** `CppTypeDefinition`; `cppValue` is the pair of a Rust symbol and a C++
      type name. */
  datatype TypeDef = TypeDef(
    ty: CppType,
    layout: Layout,
    methods: seq<Method>,
    constructors: seq<FnSig>,
    fields: seq<Field>,
    fromTrait: Option<RustTrait>,
    fromTraitRef: Option<RustTrait>,
    wellknownTraits: seq<WellknownTrait>,
    cppValue: Option<(string, string)>,
    cppRef: Option<string>)

  /** `CppFnDefinition`. */
  datatype FnDef = FnDef(name: CppPath, sig: FnSig)

  /** `CppExportedFnDefinition`. */
  datatype ExportedFn = ExportedFn(name: string, sig: FnSig)

  /** `CppExportedImplDefinition`. */
  datatype ExportedImpl = ExportedImpl(tr: Option<CppType>, ty: CppType, methods: seq<(string, FnSig)>)

  /** `CppFile`. */
  datatype CppFile = CppFile(
    typeDefs: seq<TypeDef>,
    traitDefs: map<RustTrait, TraitDef>,
    fnDefs: seq<FnDef>,
    exportedFnDefs: seq<ExportedFn>,
    exportedImpls: seq<ExportedImpl>,
    additionalIncludes: string,
    panicToException: bool)

  predicate IsCopy(td: TypeDef) {
    Copy in td.wellknownTraits
  }

  predicate IsUnsized(td: TypeDef) {
    Unsized in td.wellknownTraits
  }
}
