/** `helpers.rs` of the older generator. */
module LegacyHelpers {
  import opened RustSyntax
  import LegacyRequestGen
  import SpecGen

  /** `extract_return_type`: total; the declared type, or `()` without one. */
  function ExtractReturnType(input: ItemFn): (t: Ty)
    ensures input.sig.output.Default? ==> t == UnitTy
    ensures input.sig.output.Returns? ==> t == input.sig.output.ty
  {
    match input.sig.output
    case Returns(ty) => ty
    case Default => UnitTy
  }

  /** The three places that read a function's response type agree on every
      signature: this helper, the request generator's `extract_response_ty`
      and the current generator's result type. */
  lemma ResponseTypesAgree(input: ItemFn)
    ensures ExtractReturnType(input) == LegacyRequestGen.ExtractResponseTy(input)
    ensures ExtractReturnType(input) == SpecGen.ReturnTy(input.sig.output)
  {
  }
}
