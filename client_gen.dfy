/** The typed client method the current `#[rpc]` macro adds to the type named
    by `client = ...` (`rpc_method/client.rs`): an `async fn` with the
    arguments that are not `#[context]`, which sends them by position under
    the function's name and hands the outcome back unchanged. */
module ClientGen {
  import opened Wrappers
  import opened Seqs
  import opened RustSyntax
  import opened Codegen
  import opened MacroModel
  import HandlerGen

  /** The field of `self` that holds the jsonrpsee client when `client_field` is absent. */
  const DefaultClientField: Expr := ExprOther("client")
  const ResultPath: seq<Ident> := ["std", "result", "Result"]
  const ClientErrorTy: Ty := PathType(["jsonrpsee", "core", "ClientError"], [])

  /** `::std::result::Result<T, ::jsonrpsee::core::ClientError>` */
  function ClientResultTy(response: Ty): (t: Ty)
    ensures t.PathType? && t.segments == ResultPath && t.generics == [response, ClientErrorTy]
  {
    PathType(ResultPath, [response, ClientErrorTy])
  }

  /** `impl Client { vis async fn ident(&self, params) -> returnTy { .. } }`:
      the request goes through `self.field`, under the RPC method name
      `rpcName`, with the values of `sent` as positional parameters. */
  datatype ClientPlan = ClientPlan(
    implFor: seq<Ident>,
    vis: Visibility,
    ident: Ident,
    params: seq<PatType>,
    returnTy: Ty,
    field: Expr,
    rpcName: Ident,
    sent: seq<Ident>,
    policy: ReturnPolicy)

  /** `client::generate`: nothing without a `client` path; otherwise the plan above. */
  function Generate(m: RpcMethod, args: RpcMethodArgs): (r: Option<ClientPlan>)
    ensures r.None? <==> args.client.None?
    ensures r.Some? ==>
      && r.value.implFor == args.client.value
      && r.value.field == (if args.clientField.Some? then args.clientField.value else DefaultClientField)
      && r.value.ident == m.inputIdent && r.value.rpcName == m.inputIdent && r.value.vis == m.inputVis
      && r.value.params == m.fnArgsContextless && r.value.sent == m.fnArgsContextlessAsIdent
      && r.value.returnTy == ClientResultTy(m.responseTy)
      && r.value.policy == PassThrough
  {
    if args.client.None? then None
    else
      var field := if args.clientField.Some? then args.clientField.value else DefaultClientField;
      Some(ClientPlan(args.client.value, m.inputVis, m.inputIdent, m.fnArgsContextless,
                      ClientResultTy(m.responseTy), field, m.inputIdent, m.fnArgsContextlessAsIdent, PassThrough))
  }

  /** `ClientT::request`, kept abstract: the method name and the positional
      values go out, a decoded response or a client error comes back. */
  type Transport<!V, R> = (Ident, seq<V>) -> Result<R, ClientError>

  /** One call of the generated client method with one value per parameter:
      `rpc_params!` packs the values in parameter order, and the outcome of
      `request` is the outcome of the call. */
  function Call<V, R>(plan: ClientPlan, vals: seq<V>, request: Transport<V, R>): (e: CallEnd<R>)
    requires |vals| == |plan.params|
    ensures plan.policy.PassThrough? ==> e == ReturnedResult(request(plan.rpcName, vals))
    ensures e.Aborted? ==> request(plan.rpcName, vals).Err?
  {
    Complete(plan.policy, request(plan.rpcName, vals))
  }

  /** The generated client never aborts: it returns exactly what the request
      to the function's own name with the given values produced. */
  lemma CallForwardsOutcome<V, R>(m: RpcMethod, args: RpcMethodArgs, vals: seq<V>, request: Transport<V, R>)
    requires args.client.Some?
    requires |vals| == |m.fnArgsContextless|
    ensures Call(Generate(m, args).value, vals, request) == ReturnedResult(request(m.inputIdent, vals))
  {
  }

  /** The client sends, in order, the names the server handler's parse
      pattern binds: a request built by this client is read back by the
      handler generated from the same function. */
  lemma ClientSendsWhatHandlerParses(inputs: seq<FnArg>, m: RpcMethod, args: RpcMethodArgs)
    requires WellParsed(inputs, m) && args.client.Some?
    ensures var sent := Generate(m, args).value.sent; var pats := HandlerGen.Generate(m).parse.pats;
      && |sent| == |pats|
      && forall k :: 0 <= k < |sent| ==> pats[k].PatIdent? && pats[k].ident == sent[k]
  {
    var pats := HandlerGen.Generate(m).parse.pats;
    assert forall k :: 0 <= k < |pats| ==> pats[k] == m.fnArgsContextless[k].pat;
  }

  /** A `#[context]` argument is never sent. */
  lemma ClientNeverSendsContext(inputs: seq<FnArg>, m: RpcMethod, args: RpcMethodArgs, i: nat)
    requires WellParsed(inputs, m) && args.client.Some?
    requires DistinctIdents(TypedArgs(inputs))
    requires i < |inputs| && IsContextInput(inputs[i])
    ensures inputs[i].arg.pat.ident !in Generate(m, args).value.sent
  {
    HandlerGen.ContextNotParsed(inputs, m, i);
  }
}
