/** The server handler of the older `easy-rpc-macros` generator
    (`rpc_method/handler.rs`): a sync callback that decodes every typed
    argument, `#[context]` ones included, from the call's parameters, calls
    the function with them and wraps its return value in `Ok`. */
module LegacyHandlerGen {
  import opened Wrappers
  import opened Seqs
  import opened RustSyntax
  import opened Codegen
  import HandlerGen
  import Registry
  import MacroModel

  /** The context parameter of the generated wrapper, which it never reads. */
  const UnusedContextIdent: Ident := "_context"

  /** One argument of the generated call: an identifier, or the `_` written
      for an argument whose pattern is not an identifier. */
  datatype SupplyArg = SupplyIdent(ident: Ident) | SupplyWild

  /** The generated `fn handler(&self) -> SyncCallback<Context, RpcResult<Response>>`
      (or `fn callback(&self)` for the callback generator): the parse statement,
      the callee and its arguments, which the callback generator wraps in
      parentheses. */
  datatype LegacyPlan = LegacyPlan(
    context: Ty,
    response: Ty,
    contextIdent: Ident,
    parse: HandlerGen.ParseStmt,
    callee: seq<Ident>,
    supply: seq<SupplyArg>,
    parenthesised: bool)

  /** The pattern a typed argument contributes: its bare identifier, or `_`. */
  function LegacyPat(p: PatType): (r: Pat)
    ensures p.pat.PatIdent? ==> r == PatIdent(false, false, p.pat.ident)
    ensures !p.pat.PatIdent? ==> r == PatWild
  {
    if p.pat.PatIdent? then PatIdent(false, false, p.pat.ident) else PatWild
  }

  function LegacyTy(p: PatType): Ty { p.ty }

  /** `gen_arguments_parse_impl`: every typed argument, receivers skipped and
      nothing else filtered, read with `one()` exactly when there is one;
      with none the pattern and type are `()`. */
  function GenArgumentsParseImpl(inputs: seq<FnArg>): (s: HandlerGen.ParseStmt)
    ensures |s.pats| == |s.tys| == |TypedArgs(inputs)|
    ensures forall k :: 0 <= k < |s.pats| ==> s.pats[k] == LegacyPat(TypedArgs(inputs)[k]) && s.tys[k] == TypedArgs(inputs)[k].ty
    ensures s.accessor == ParamsOne <==> |TypedArgs(inputs)| == 1
  {
    var typed := TypedArgs(inputs);
    HandlerGen.ParseStmt(Map(LegacyPat, typed), Map(LegacyTy, typed), ParseMethodFor(|typed|))
  }

  function SupplyOf(p: PatType): (a: SupplyArg)
    ensures p.pat.PatIdent? ==> a == SupplyIdent(p.pat.ident)
    ensures !p.pat.PatIdent? ==> a == SupplyWild
  {
    if p.pat.PatIdent? then SupplyIdent(p.pat.ident) else SupplyWild
  }

  /** `gen_arguments_supply`: the same identifiers, comma-separated, in the same order. */
  function GenArgumentsSupply(inputs: seq<FnArg>): (r: seq<SupplyArg>)
    ensures |r| == |TypedArgs(inputs)|
    ensures forall k :: 0 <= k < |r| ==> r[k] == SupplyOf(TypedArgs(inputs)[k])
  {
    Map(SupplyOf, TypedArgs(inputs))
  }

  /** `handler::generate` */
  function Generate(input: ItemFn, originalIdent: Ident, context: Ty, response: Ty): (plan: LegacyPlan)
    ensures plan.context == context && plan.response == response && plan.contextIdent == UnusedContextIdent
    ensures plan.parse == GenArgumentsParseImpl(input.sig.inputs)
    ensures plan.supply == GenArgumentsSupply(input.sig.inputs)
    ensures plan.callee == [originalIdent] && !plan.parenthesised
  {
    LegacyPlan(context, response, UnusedContextIdent, GenArgumentsParseImpl(input.sig.inputs),
               [originalIdent], GenArgumentsSupply(input.sig.inputs), false)
  }

  /** `_` is not an expression: a call that supplies it does not compile. */
  predicate SupplyCompiles(plan: LegacyPlan)
  {
    forall k :: 0 <= k < |plan.supply| ==> plan.supply[k].SupplyIdent?
  }

  /** The generated call compiles exactly when every typed argument is bound to a plain identifier. */
  lemma SupplyCompilesIff(input: ItemFn, originalIdent: Ident, context: Ty, response: Ty)
    ensures SupplyCompiles(Generate(input, originalIdent, context, response))
            ==> forall k :: 0 <= k < |TypedArgs(input.sig.inputs)| ==> TypedArgs(input.sig.inputs)[k].pat.PatIdent?
    ensures (forall k :: 0 <= k < |TypedArgs(input.sig.inputs)| ==> TypedArgs(input.sig.inputs)[k].pat.PatIdent?)
            ==> SupplyCompiles(Generate(input, originalIdent, context, response))
  {
    var plan := Generate(input, originalIdent, context, response);
    var typed := TypedArgs(input.sig.inputs);
    if SupplyCompiles(plan) {
      forall k | 0 <= k < |typed| ensures typed[k].pat.PatIdent? {
        assert plan.supply[k] == SupplyOf(typed[k]) && plan.supply[k].SupplyIdent?;
      }
    } else {
      var i :| 0 <= i < |plan.supply| && !plan.supply[i].SupplyIdent?;
      assert plan.supply[i] == SupplyOf(typed[i]);
    }
  }

  /** The number of arguments the callee receives: a parenthesised list of two
      or more is one tuple. */
  function CalleeArity(plan: LegacyPlan): (n: nat)
    ensures n <= |plan.supply|
    ensures !plan.parenthesised || |plan.supply| < 2 ==> n == |plan.supply|
  {
    if plan.parenthesised && |plan.supply| >= 2 then 1 else |plan.supply|
  }

  /** The value each call argument names, looked up in the parse pattern. */
  function Bind<V>(plan: LegacyPlan, vals: seq<V>): (r: seq<Option<V>>)
    ensures |r| == |plan.supply|
    ensures forall k :: 0 <= k < |r| ==>
      r[k] == (if plan.supply[k].SupplyIdent? then HandlerGen.Lookup(plan.parse.pats, vals, plan.supply[k].ident) else None)
  {
    Map((a: SupplyArg) => if a.SupplyIdent? then HandlerGen.Lookup(plan.parse.pats, vals, a.ident) else None, plan.supply)
  }

  /** One call of the generated wrapper: a decoding error is returned by `?`,
      anything else is the user function's value wrapped in `Ok`. */
  function Run<V, R>(plan: LegacyPlan, params: Registry.Params, decode: HandlerGen.Decoder<V>,
                     user: seq<Option<V>> -> R): (r: Registry.RpcResult<R>)
    ensures r.Err? <==> decode(params, plan.parse.accessor, plan.parse.tys).Err?
    ensures r.Err? ==> r.error == decode(params, plan.parse.accessor, plan.parse.tys).error
    ensures r.Ok? ==> r.value == user(Bind(plan, decode(params, plan.parse.accessor, plan.parse.tys).value))
  {
    match decode(params, plan.parse.accessor, plan.parse.tys)
    case Err(e) => Err(e)
    case Ok(vals) => Ok(user(Bind(plan, vals)))
  }

  /** When a pattern binds `x` at exactly one position `k`, `x` resolves to `vals[k]`. */
  lemma LookupUnique<V>(pats: seq<Pat>, vals: seq<V>, k: nat)
    requires k < |pats| && k < |vals| && pats[k].PatIdent?
    requires forall j :: 0 <= j < |pats| && j != k ==> !(pats[j].PatIdent? && pats[j].ident == pats[k].ident)
    ensures HandlerGen.Lookup(pats, vals, pats[k].ident) == Some(vals[k])
  {
    var r := HandlerGen.Lookup(pats, vals, pats[k].ident);
    if r.None? {
      assert false;
    }
  }

  /** With identifier patterns throughout and distinct names, the callee
      receives, position by position, the value decoded at that position:
      `#[context]` arguments too, since the wrapper's context is unused. */
  lemma BindsPositionally<V>(input: ItemFn, originalIdent: Ident, context: Ty, response: Ty, vals: seq<V>)
    requires forall k :: 0 <= k < |TypedArgs(input.sig.inputs)| ==> TypedArgs(input.sig.inputs)[k].pat.PatIdent?
    requires DistinctIdents(TypedArgs(input.sig.inputs))
    requires |vals| == |TypedArgs(input.sig.inputs)|
    ensures var b := Bind(Generate(input, originalIdent, context, response), vals);
      |b| == |vals| && forall k :: 0 <= k < |b| ==> b[k] == Some(vals[k])
  {
    var plan := Generate(input, originalIdent, context, response);
    var typed := TypedArgs(input.sig.inputs);
    forall k | 0 <= k < |vals| ensures Bind(plan, vals)[k] == Some(vals[k]) {
      assert plan.supply[k] == SupplyIdent(typed[k].pat.ident);
      forall j | 0 <= j < |plan.parse.pats| && j != k
        ensures !(plan.parse.pats[j].PatIdent? && plan.parse.pats[j].ident == plan.parse.pats[k].ident)
      {
        assert plan.parse.pats[j] == LegacyPat(typed[j]);
      }
      LookupUnique(plan.parse.pats, vals, k);
    }
  }

  /** Unlike the current generator, which leaves `#[context]` arguments out
      of the parse pattern, the older one decodes every argument: a client
      of the older handler must send the context values as parameters. */
  lemma ContextIsDecoded(input: ItemFn, originalIdent: Ident, context: Ty, response: Ty, foreign: MacroModel.Foreign)
    requires MacroModel.Parse(input, foreign).Ok?
    ensures |Generate(input, originalIdent, context, response).parse.pats| == |input.sig.inputs|
    ensures |HandlerGen.Generate(MacroModel.Parse(input, foreign).value).parse.pats| + ContextCount(input.sig.inputs)
            == |input.sig.inputs|
  {
    MacroModel.ParseWellParsed(input, foreign);
    MacroModel.ParseContextless(input, foreign);
  }
}
