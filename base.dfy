/**
  Shared wrappers: an optional value, and the result of a generation step that
  either produces a value or stops the generator with a panic.
 */
module Base {

  datatype Option<+T> = None | Some(value: T)

  /** Why the generator panics. Each constructor names one `panic!`, `assert!`,
      `unwrap` or `todo!` of the generator. */
  datatype Reason =
    | MissingClosingAngle      // `strip_suffix('>').unwrap()` in `CppType::from`
    | CppValueWithDynApi       // the `assert!` on `cpp_value` in `get_link_names`
    | TraitDefsWithDynApi      // the `panic!` for a non-empty `trait_defs`
    | EmptyPath                // `split_last().unwrap()` on a path with no segment
    | BoolLayoutMismatch       // `assert_eq!` on the layout of `::rust::Bool`
    | BoolNotCopy              // `assert!(is_copy)` for `::rust::Bool`
    | MissingDropInPlace       // `unwrap` of the `Drop` data of a type that is not Copy
    | FnTraitRefUnimplemented  // `todo!()` for a `Fn` trait in `from_trait_ref`
    | ReceiverWithoutInputs    // `inputs.len() - 1` on a method with no inputs

  datatype Result<+T> = Ok(value: T) | Panic(reason: Reason)
}
