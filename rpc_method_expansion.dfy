/** What `#[rpc]` on a function expands to (`rpc_method/mod.rs`): the
    sanitised function, a unit struct named after it, the request functions
    and the client method on the client side, and the `RpcMethod` impl
    (`name`, `spec`, `handler`) on the server side. */
module RpcMethodExpansion {
  import opened Wrappers
  import opened RustSyntax
  import opened Codegen
  import opened MacroModel
  import SpecGen
  import HandlerGen
  import ClientGen
  import SanitizeInput
  import Registry

  /** The crate features `client` and `server`. */
  datatype Features = Features(client: bool, server: bool)

  /** The two request functions `gen_impl_requests` asks the request module for. */
  datatype RequestKind = Checked | Unchecked

  /** `impl OutputIdent { request..; request_unchecked.. }` */
  datatype RequestsImpl = RequestsImpl(selfTy: Ident, kinds: seq<RequestKind>)

  /** `impl ::openspec_jsonrpsee::RpcMethod<ContextOwned, Response> for OutputIdent`
      with the three generated members. */
  datatype RpcMethodImpl = RpcMethodImpl(
    contextOwned: Ty,
    response: Ty,
    forIdent: Ident,
    name: Ident,
    spec: MethodExpr,
    handler: HandlerGen.HandlerPlan)

  datatype Expansion = Expansion(
    emittedFn: ItemFn,
    structIdent: Ident,
    requests: Option<RequestsImpl>,
    client: Option<ClientGen.ClientPlan>,
    rpcMethodImpl: Option<RpcMethodImpl>)

  /** `gen_fn_name`: `fn name(&self) -> &'static str { stringify!(ident) }` */
  function GenFnName(fnName: Ident): Ident
  {
    fnName
  }

  /** `gen_impl_requests`: both request functions with the `client` feature, nothing without it. */
  function GenImplRequests(m: RpcMethod, features: Features): (r: Option<RequestsImpl>)
    ensures r.Some? <==> features.client
    ensures r.Some? ==> r.value.selfTy == m.outputIdent && r.value.kinds == [Checked, Unchecked]
  {
    if features.client then Some(RequestsImpl(m.outputIdent, [Checked, Unchecked])) else None
  }

  /** `gen_impl_rpc_method`: nothing without the `server` feature. */
  function GenImplRpcMethod(input: ItemFn, m: RpcMethod, features: Features): (r: Option<RpcMethodImpl>)
    ensures r.Some? <==> features.server
    ensures r.Some? ==>
      && r.value.contextOwned == m.contextTyOwned && r.value.response == m.responseTy
      && r.value.forIdent == m.outputIdent && r.value.name == input.sig.ident
      && r.value.spec == SpecGen.Generate(input, m.outputIdent)
      && r.value.handler == HandlerGen.Generate(m)
  {
    if features.server then
      Some(RpcMethodImpl(m.contextTyOwned, m.responseTy, m.outputIdent, GenFnName(input.sig.ident),
                         SpecGen.Generate(input, m.outputIdent), HandlerGen.Generate(m)))
    else None
  }

  /** `generate_rpc_method`: the parse comes first, so a receiver or a
      non-identifier pattern stops the expansion with its panic. */
  function GenerateRpcMethod(input: ItemFn, args: RpcMethodArgs, features: Features, foreign: Foreign): (r: Result<Expansion, Failure>)
    ensures r.Err? <==> Parse(input, foreign).Err?
    ensures r.Err? ==> r.error == Parse(input, foreign).error
    ensures r.Ok? ==>
      var m := Parse(input, foreign).value;
      && r.value.emittedFn == SanitizeInput.Sanitized(input)
      && r.value.structIdent == m.outputIdent
      && r.value.requests == GenImplRequests(m, features)
      && r.value.client == ClientGen.Generate(m, args)
      && r.value.rpcMethodImpl == GenImplRpcMethod(input, m, features)
  {
    match Parse(input, foreign)
    case Err(e) => Err(e)
    case Ok(m) =>
      Ok(Expansion(SanitizeInput.Sanitized(input), m.outputIdent, GenImplRequests(m, features),
                   ClientGen.Generate(m, args), GenImplRpcMethod(input, m, features)))
  }

  /** The features decide what is emitted: request functions exactly with
      `client`, the `RpcMethod` impl exactly with `server`; the client method
      depends only on the `client` argument of the attribute. */
  lemma FeatureGating(input: ItemFn, args: RpcMethodArgs, features: Features, foreign: Foreign)
    requires Parse(input, foreign).Ok?
    ensures var x := GenerateRpcMethod(input, args, features, foreign).value;
      && (x.requests.Some? <==> features.client)
      && (x.rpcMethodImpl.Some? <==> features.server)
      && (x.client.Some? <==> args.client.Some?)
      && x.structIdent == foreign.upperCamelCase(input.sig.ident)
  {
    ParseNames(input, foreign);
  }

  /** The pieces of one expansion agree: `name()`, the spec's name, the
      client's RPC method string and the handler's callee are the function's
      identifier; the spec's parameters, the handler's parse pattern and the
      client's sent values name the same arguments in the same order; the
      result descriptor is named after the emitted struct. */
  lemma ExpansionAgrees(input: ItemFn, args: RpcMethodArgs, features: Features, foreign: Foreign)
    requires Parse(input, foreign).Ok? && features.server && args.client.Some?
    ensures var x := GenerateRpcMethod(input, args, features, foreign).value;
      var impl := x.rpcMethodImpl.value; var client := x.client.value;
      var spec := SpecGen.MethodSpec(input, impl.forIdent);
      && impl.name == input.sig.ident && client.rpcName == input.sig.ident && impl.handler.callee == input.sig.ident
      && spec.Ok? && spec.value.name == impl.name
      && spec.value.result.Some? && spec.value.result.value.name == x.structIdent + SpecGen.ResultSuffix
      && |spec.value.params| == |impl.handler.parse.pats| == |client.sent|
      && forall k :: 0 <= k < |client.sent| ==>
           && spec.value.params[k].name == client.sent[k]
           && impl.handler.parse.pats[k].PatIdent? && impl.handler.parse.pats[k].ident == client.sent[k]
  {
    var m := Parse(input, foreign).value;
    ParseNames(input, foreign);
    ParseWellParsed(input, foreign);
    SpecGen.SpecOfParsedFunction(input, m, m.outputIdent);
    ClientGen.ClientSendsWhatHandlerParses(input.sig.inputs, m, args);
  }

  /** The value the generated impl stands for at run time: `name()`, the
      Method Object `spec()` returns and the `ServerHandler` of `handler()`,
      given the parameter decoder and the user function. */
  function Instance<V, C, R>(input: ItemFn, foreign: Foreign, decode: HandlerGen.Decoder<V>,
                             user: seq<HandlerGen.ArgValue<V, C>> -> R): (r: Registry.RpcMethod<C, R>)
    requires Parse(input, foreign).Ok?
    ensures r.name == input.sig.ident && Registry.SpecNamedAfterMethod(r)
    ensures SpecGen.MethodSpec(input, Parse(input, foreign).value.outputIdent) == Ok(r.spec)
    ensures r.handler.Tag() == (if input.sig.isAsync then Registry.AsyncTag else Registry.SyncTag)
  {
    var m := Parse(input, foreign).value;
    ParseWellParsed(input, foreign);
    SpecGen.SpecOfParsedFunction(input, m, m.outputIdent);
    Registry.RpcMethod(GenFnName(input.sig.ident), SpecGen.MethodSpec(input, m.outputIdent).value,
                       HandlerGen.ToServerHandler(HandlerGen.Generate(m), decode, user))
  }

  /** Adding a generated method to a registry that does not know its name
      succeeds, appends its spec, and registers its handler under the
      function's name by the route its asyncness selects. */
  lemma RegisterGeneratedMethod<V, C, R>(s: Registry.ModuleState<C, R>, input: ItemFn, foreign: Foreign,
                                         decode: HandlerGen.Decoder<V>, user: seq<HandlerGen.ArgValue<V, C>> -> R)
    requires Parse(input, foreign).Ok?
    requires input.sig.ident !in s.table
    ensures var inst := Instance(input, foreign, decode, user);
      var out := Registry.AfterAddMethod(s, inst);
      && out.1.Ok?
      && out.0.methods == s.methods + [inst.spec]
      && out.0.table.Keys == s.table.Keys + {input.sig.ident}
      && out.0.table[input.sig.ident].Tag() == (if input.sig.isAsync then Registry.AsyncTag else Registry.SyncTag)
  {
    var inst := Instance(input, foreign, decode, user);
    assert inst.name == input.sig.ident;
    Registry.AddFreshMethod(s, inst);
  }
}
