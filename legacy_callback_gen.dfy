/** The `fn callback(&self)` of the older `#[rpc]` generator
    (`rpc/callback.rs`): the same parse statement as the older handler,
    followed by a call of the wrapped function through its module path. */
module LegacyCallbackGen {
  import opened Wrappers
  import opened RustSyntax
  import opened LegacyHandlerGen
  import LegacyWrapperGen

  /** `gen_callback_impl` with its own `gen_arguments_supply`, which puts the
      identifiers between parentheses: `wrapped_fn((a, b))`. */
  function GenCallbackImpl(input: ItemFn, wrapperFn: seq<Ident>, context: Ty, response: Ty): (plan: LegacyPlan)
    ensures plan.context == context && plan.response == response && plan.contextIdent == UnusedContextIdent
    ensures plan.parse == GenArgumentsParseImpl(input.sig.inputs)
    ensures plan.supply == GenArgumentsSupply(input.sig.inputs)
    ensures plan.callee == wrapperFn && plan.parenthesised
  {
    LegacyPlan(context, response, UnusedContextIdent, GenArgumentsParseImpl(input.sig.inputs),
               wrapperFn, GenArgumentsSupply(input.sig.inputs), true)
  }

  /** The call type-checks against the function it names: no `_` among the
      arguments and as many arguments as the function declares. */
  predicate CallTypeChecks(plan: LegacyPlan, callee: ItemFn)
  {
    SupplyCompiles(plan) && CalleeArity(plan) == |callee.sig.inputs|
  }

  /** The callback for a function whose arguments are all plain identifiers,
      called through the path `gen_fn_wrapper` returns: the call
      type-checks exactly when the function has fewer than two arguments,
      since two or more are passed as one tuple. */
  lemma CallbackTuplesArguments(input: ItemFn, context: Ty, response: Ty)
    requires !HasReceiver(input.sig.inputs)
    requires forall k :: 0 <= k < |input.sig.inputs| ==> input.sig.inputs[k].arg.pat.PatIdent?
    ensures var (m, path) := LegacyWrapperGen.GenFnWrapper(input);
      var plan := GenCallbackImpl(input, path, context, response);
      && LegacyWrapperGen.ResolvePath(m, path) == Some(m.item)
      && (CallTypeChecks(plan, m.item) <==> |input.sig.inputs| < 2)
  {
    var (m, path) := LegacyWrapperGen.GenFnWrapper(input);
    var plan := GenCallbackImpl(input, path, context, response);
    SupplyCompilesIff(input, input.sig.ident, context, response);
    assert SupplyCompiles(plan) == SupplyCompiles(LegacyHandlerGen.Generate(input, input.sig.ident, context, response));
  }

  /** The supply the callback evidently means: the identifiers without the
      surrounding parentheses, as the older handler writes them. */
  function GenCallbackImplFixed(input: ItemFn, wrapperFn: seq<Ident>, context: Ty, response: Ty): (plan: LegacyPlan)
    ensures plan == LegacyHandlerGen.Generate(input, input.sig.ident, context, response).(callee := wrapperFn)
    ensures !plan.parenthesised && CalleeArity(plan) == |TypedArgs(input.sig.inputs)|
  {
    LegacyPlan(context, response, UnusedContextIdent, GenArgumentsParseImpl(input.sig.inputs),
               wrapperFn, GenArgumentsSupply(input.sig.inputs), false)
  }

  /** With the correction, the callback's call type-checks against the
      wrapped function for every arity, and at run time it passes the
      decoded values position by position. */
  lemma FixedCallbackTypeChecks<V>(input: ItemFn, context: Ty, response: Ty, vals: seq<V>)
    requires !HasReceiver(input.sig.inputs)
    requires forall k :: 0 <= k < |input.sig.inputs| ==> input.sig.inputs[k].arg.pat.PatIdent?
    requires DistinctIdents(TypedArgs(input.sig.inputs)) && |vals| == |input.sig.inputs|
    ensures var (m, path) := LegacyWrapperGen.GenFnWrapper(input);
      var plan := GenCallbackImplFixed(input, path, context, response);
      && CallTypeChecks(plan, m.item)
      && var b := Bind(plan, vals); |b| == |vals| && forall k :: 0 <= k < |b| ==> b[k] == Some(vals[k])
  {
    var (m, path) := LegacyWrapperGen.GenFnWrapper(input);
    var handler := LegacyHandlerGen.Generate(input, input.sig.ident, context, response);
    SupplyCompilesIff(input, input.sig.ident, context, response);
    BindsPositionally(input, input.sig.ident, context, response, vals);
    assert Bind(GenCallbackImplFixed(input, path, context, response), vals) == Bind(handler, vals);
  }
}
