/** The typed request functions of the older generator
    (`rpc_method/request.rs`): `request`, which hands back the client's
    outcome, and `request_unchecked`, which `expect`s success. Both take the
    HTTP client first and then every argument of the function, and send the
    arguments by position under the function's name. */
module LegacyRequestGen {
  import opened Wrappers
  import opened Seqs
  import opened RustSyntax
  import opened Codegen
  import MacroModel
  import ClientGen
  import LegacyHandlerGen

  datatype RequestImpl = Checked | Unchecked

  const ExpectMessage: string := "RPC call failed but should need successful response"
  const CheckedDoc: string := "Makes a type safe RPC request with the given client"
  const UncheckedDoc: string :=
    "Makes a type safe RPC request with the given client. This function will panic if the RPC call fails to call the implementation."
  const ClientParamIdent: Ident := "client"
  const HttpClientTy: Ty := Reference(false, PathType(["jsonrpsee", "http_client", "HttpClient"], []))

  /** `RequestImpl::name` */
  function Name(k: RequestImpl): (n: Ident)
    ensures n == (if k.Checked? then "request" else "request_unchecked")
  {
    match k
    case Unchecked => "request_unchecked"
    case Checked => "request"
  }

  /** `RequestImpl::actual_response_type`: the checked function returns the
      client's `Result`, the unchecked one the bare response. */
  function ActualResponseType(k: RequestImpl, responseTy: Ty): (t: Ty)
    ensures k.Checked? ==> t == ClientGen.ClientResultTy(responseTy)
    ensures k.Unchecked? ==> t == responseTy
  {
    match k
    case Unchecked => responseTy
    case Checked => ClientGen.ClientResultTy(responseTy)
  }

  /** `RequestImpl::return_response` */
  function ReturnResponse(k: RequestImpl): (p: ReturnPolicy)
    ensures p.PassThrough? <==> k.Checked?
    ensures k.Unchecked? ==> p == ExpectOk(ExpectMessage)
  {
    match k
    case Unchecked => ExpectOk(ExpectMessage)
    case Checked => PassThrough
  }

  /** `RequestImpl::rust_doc` */
  function RustDoc(k: RequestImpl): (d: string)
    ensures d == (if k.Checked? then CheckedDoc else UncheckedDoc)
  {
    match k
    case Unchecked => UncheckedDoc
    case Checked => CheckedDoc
  }

  /** `#[doc] vis async fn name(client: &HttpClient, args) -> actual { .. }`:
      the request goes to `rpcName` with the patterns of `sent` as its
      positional parameters, and `policy` decides what is returned. */
  datatype RequestFn = RequestFn(
    doc: string,
    vis: Visibility,
    ident: Ident,
    clientParam: (Ident, Ty),
    params: seq<PatType>,
    returnTy: Ty,
    rpcName: Ident,
    sent: seq<Pat>,
    responseTy: Ty,
    policy: ReturnPolicy)

  /** `extract_fn_args`: every argument as it is written; a receiver panics. */
  function ExtractFnArgs(input: ItemFn): (r: Result<seq<PatType>, Failure>)
    ensures r.Err? <==> HasReceiver(input.sig.inputs)
    ensures r.Err? ==> r.error == MacroPanic(MacroModel.SelfPanic)
    ensures r.Ok? ==> |r.value| == |input.sig.inputs| && forall i :: 0 <= i < |r.value| ==> input.sig.inputs[i] == Typed(r.value[i])
  {
    if HasReceiver(input.sig.inputs) then Err(MacroPanic(MacroModel.SelfPanic)) else Ok(TypedArgs(input.sig.inputs))
  }

  function PatOfArg(p: PatType): Pat { p.pat }

  /** `extract_arg_idents`: the pattern of every argument, unchanged; a receiver panics. */
  function ExtractArgIdents(input: ItemFn): (r: Result<seq<Pat>, Failure>)
    ensures r.Err? <==> HasReceiver(input.sig.inputs)
    ensures r.Err? ==> r.error == MacroPanic(MacroModel.SelfPanic)
    ensures r.Ok? ==> |r.value| == |input.sig.inputs| && forall i :: 0 <= i < |r.value| ==> r.value[i] == input.sig.inputs[i].arg.pat
  {
    if HasReceiver(input.sig.inputs) then Err(MacroPanic(MacroModel.SelfPanic)) else Ok(Map(PatOfArg, TypedArgs(input.sig.inputs)))
  }

  /** `extract_response_ty`: the declared return type, `()` when there is none. */
  function ExtractResponseTy(input: ItemFn): (t: Ty)
    ensures input.sig.output.Default? ==> t == UnitTy
    ensures input.sig.output.Returns? ==> t == input.sig.output.ty
  {
    match input.sig.output
    case Returns(ty) => ty
    case Default => UnitTy
  }

  /** `request::generate`: a receiver aborts the expansion; otherwise the
      function described above. */
  function Generate(input: ItemFn, k: RequestImpl): (r: Result<RequestFn, Failure>)
    ensures r.Err? <==> HasReceiver(input.sig.inputs)
    ensures r.Err? ==> r.error == MacroPanic(MacroModel.SelfPanic)
    ensures r.Ok? ==>
      && r.value.doc == RustDoc(k) && r.value.vis == input.vis && r.value.ident == Name(k)
      && r.value.clientParam == (ClientParamIdent, HttpClientTy)
      && r.value.params == ExtractFnArgs(input).value && r.value.sent == ExtractArgIdents(input).value
      && r.value.rpcName == input.sig.ident
      && r.value.responseTy == ExtractResponseTy(input)
      && r.value.returnTy == ActualResponseType(k, ExtractResponseTy(input))
      && r.value.policy == ReturnResponse(k)
  {
    match ExtractFnArgs(input)
    case Err(e) => Err(e)
    case Ok(fnArgs) =>
      var argIdents := ExtractArgIdents(input).value;
      var responseTy := ExtractResponseTy(input);
      Ok(RequestFn(RustDoc(k), input.vis, Name(k), (ClientParamIdent, HttpClientTy), fnArgs,
                   ActualResponseType(k, responseTy), input.sig.ident, argIdents, responseTy, ReturnResponse(k)))
  }

  /** `rpc_params!` takes expressions: each sent pattern must read as one. */
  predicate SentCompiles(f: RequestFn)
  {
    forall k :: 0 <= k < |f.sent| ==> IsExprPat(f.sent[k])
  }

  /** A pattern that is also an expression: an identifier without `ref` or
      `mut`, or a tuple of such patterns. `_` is not an expression. */
  predicate IsExprPat(p: Pat)
  {
    match p
    case PatIdent(byRef, mutable, _) => !byRef && !mutable
    case PatWild => false
    case PatTuple(elems) => forall i :: 0 <= i < |elems| ==> IsExprPat(elems[i])
  }

  /** One call of a generated request function: the values go out in
      parameter order under the function's name, and the policy finishes the call. */
  function Call<V, R>(f: RequestFn, vals: seq<V>, request: ClientGen.Transport<V, R>): (e: CallEnd<R>)
    requires |vals| == |f.params|
    ensures f.policy.PassThrough? ==> e == ReturnedResult(request(f.rpcName, vals))
    ensures f.policy.ExpectOk? ==> (e.Aborted? <==> request(f.rpcName, vals).Err?)
    ensures e.Aborted? ==> e.message == f.policy.message
  {
    Complete(f.policy, request(f.rpcName, vals))
  }

  /** `request` and `request_unchecked` differ only in name, documentation,
      return type and policy. */
  lemma CheckedAndUncheckedDiffer(input: ItemFn)
    requires !HasReceiver(input.sig.inputs)
    ensures var c := Generate(input, Checked).value; var u := Generate(input, Unchecked).value;
      && c.ident != u.ident && c.doc != u.doc
      && c.returnTy == ClientGen.ClientResultTy(u.returnTy) && c.returnTy != u.returnTy
      && u == c.(doc := UncheckedDoc, ident := Name(Unchecked), returnTy := u.responseTy, policy := ExpectOk(ExpectMessage))
  {
    var c := Generate(input, Checked).value;
    var u := Generate(input, Unchecked).value;
    assert |c.ident| != |u.ident|;
    assert |c.doc| != |u.doc|;
    assert c.returnTy.generics[0] == u.returnTy;
    TyNotInOwnGenerics(u.returnTy, c.returnTy);
  }

  lemma TyNotInOwnGenerics(t: Ty, u: Ty)
    requires u.PathType? && |u.generics| > 0 && u.generics[0] == t
    ensures u != t
  {
  }

  /** The checked function never aborts: it returns what the client's
      request to the function's name produced. */
  lemma CheckedForwards<V, R>(input: ItemFn, vals: seq<V>, request: ClientGen.Transport<V, R>)
    requires !HasReceiver(input.sig.inputs) && |vals| == |input.sig.inputs|
    ensures Call(Generate(input, Checked).value, vals, request) == ReturnedResult(request(input.sig.ident, vals))
  {
  }

  /** The unchecked function aborts with the `expect` message exactly when
      the request fails, and otherwise returns the bare response. */
  lemma UncheckedAbortsIffError<V, R>(input: ItemFn, vals: seq<V>, request: ClientGen.Transport<V, R>)
    requires !HasReceiver(input.sig.inputs) && |vals| == |input.sig.inputs|
    ensures var e := Call(Generate(input, Unchecked).value, vals, request); var o := request(input.sig.ident, vals);
      && (e.Aborted? <==> o.Err?)
      && (e.Aborted? ==> e.message == ExpectMessage)
      && (o.Ok? ==> e == ReturnedValue(o.value))
  {
  }

  /** The sent patterns compile exactly when every argument's pattern is
      also an expression: `rpc_params!((a, b))` compiles, while
      `rpc_params!(mut x)` and `rpc_params!(_)` do not. */
  lemma SentCompilesIff(input: ItemFn, k: RequestImpl)
    requires !HasReceiver(input.sig.inputs)
    ensures SentCompiles(Generate(input, k).value) ==>
      forall i :: 0 <= i < |input.sig.inputs| ==> IsExprPat(input.sig.inputs[i].arg.pat)
    ensures (forall i :: 0 <= i < |input.sig.inputs| ==> IsExprPat(input.sig.inputs[i].arg.pat))
      ==> SentCompiles(Generate(input, k).value)
  {
    var f := Generate(input, k).value;
    if SentCompiles(f) {
      forall i | 0 <= i < |input.sig.inputs| ensures IsExprPat(input.sig.inputs[i].arg.pat) {
        assert f.sent[i] == input.sig.inputs[i].arg.pat;
      }
    }
  }

  /** A tuple argument such as `(a, b): (u32, u32)` is sent as the tuple
      expression `(a, b)`, which compiles. */
  lemma TupleArgumentCompiles(input: ItemFn, k: RequestImpl, a: Ident, b: Ident, ty: Ty)
    requires input.sig.inputs == [Typed(PatType([], PatTuple([PatIdent(false, false, a), PatIdent(false, false, b)]), ty))]
    ensures Generate(input, k).Ok? && SentCompiles(Generate(input, k).value)
  {
    SentCompilesIff(input, k);
  }

  /** The older request function sends every argument, `#[context]` ones
      included, in the order the older handler decodes them: each sent
      identifier is the one the handler's pattern binds at that position,
      and a sent tuple sits where the handler's pattern has `_`. */
  lemma RequestMatchesLegacyHandler(input: ItemFn, k: RequestImpl, context: Ty, response: Ty)
    requires !HasReceiver(input.sig.inputs)
    requires SentCompiles(Generate(input, k).value)
    ensures var sent := Generate(input, k).value.sent;
      var pats := LegacyHandlerGen.Generate(input, input.sig.ident, context, response).parse.pats;
      && |sent| == |pats| == |input.sig.inputs|
      && forall i :: 0 <= i < |sent| ==>
           if sent[i].PatIdent? then pats[i] == sent[i] else sent[i].PatTuple? && pats[i] == PatWild
  {
    var f := Generate(input, k).value;
    var sent := f.sent;
    var pats := LegacyHandlerGen.Generate(input, input.sig.ident, context, response).parse.pats;
    forall i | 0 <= i < |sent|
      ensures if sent[i].PatIdent? then pats[i] == sent[i] else sent[i].PatTuple? && pats[i] == PatWild
    {
      assert sent[i] == TypedArgs(input.sig.inputs)[i].pat;
      assert IsExprPat(f.sent[i]);
    }
  }

  /** Unlike the current client, which leaves `#[context]` arguments out, the
      older request function sends one value per argument. */
  lemma RequestSendsContext(input: ItemFn, k: RequestImpl, foreign: MacroModel.Foreign, args: MacroModel.RpcMethodArgs)
    requires MacroModel.Parse(input, foreign).Ok? && args.client.Some?
    ensures var m := MacroModel.Parse(input, foreign).value;
      && |Generate(input, k).value.sent| == |input.sig.inputs|
      && |ClientGen.Generate(m, args).value.sent| + ContextCount(input.sig.inputs) == |input.sig.inputs|
  {
    MacroModel.ParseWellParsed(input, foreign);
    MacroModel.ParseContextless(input, foreign);
  }
}
