/** The server handler the current macro generates for an `#[rpc]` function
    (`rpc_method/handler.rs`): a `callback_wrapper` that decodes the positional
    parameters, calls the user function and wraps its return value in `Ok`. */
module HandlerGen {
  import opened Wrappers
  import opened Seqs
  import opened RustSyntax
  import opened Codegen
  import opened MacroModel
  import Registry

  const DefaultContextIdent: Ident := "_context"
  const ArcPath: seq<Ident> := ["std", "sync", "Arc"]

  /** `let (pats): (tys) = params.accessor()?;` */
  datatype ParseStmt = ParseStmt(pats: seq<Pat>, tys: seq<Ty>, accessor: ParseMethod)

  /** One argument of the call to the user function: the identifier as is,
      `&ident`, or `(*ident).clone()`. */
  datatype CallArg = Pass(ident: Ident) | Borrow(ident: Ident) | CloneDeref(ident: Ident)

  /** The generated `fn handler(&self)`: which `ServerHandler` variant it
      returns, its `ServerHandler<ContextOwned, RpcResult<Response>>` type
      arguments, the wrapper's context parameter, the parse statement and the call. */
  datatype HandlerPlan = HandlerPlan(
    kind: Registry.HandlerTag,
    contextOwned: Ty,
    response: Ty,
    contextIdent: Ident,
    contextParamTy: Ty,
    parse: ParseStmt,
    callee: Ident,
    args: seq<CallArg>,
    awaitsCall: bool)

  function PatOf(p: PatType): Pat { p.pat }
  function TyOf(p: PatType): Ty { p.ty }

  /** `gen_arguments_parse_impl`: the patterns and types of the arguments
      without `#[context]`, in declaration order, read with `one()` exactly
      when there is one of them. */
  function GenArgumentsParseImpl(contextless: seq<PatType>): (s: ParseStmt)
    ensures |s.pats| == |s.tys| == |contextless|
    ensures forall k :: 0 <= k < |contextless| ==> s.pats[k] == contextless[k].pat && s.tys[k] == contextless[k].ty
    ensures s.accessor == ParamsOne <==> |contextless| == 1
  {
    ParseStmt(Map(PatOf, contextless), Map(TyOf, contextless), ParseMethodFor(|contextless|))
  }

  /** The async wrapper's argument for one identifier: the context argument
      is borrowed when its declared type is a reference, cloned out of the
      `Arc` otherwise; every other argument is passed as it is. */
  function AsyncCallArg(ctx: Option<Ident>, referenced: bool, arg: Ident): (a: CallArg)
    ensures a.ident == arg
    ensures ctx != Some(arg) ==> a == Pass(arg)
    ensures ctx == Some(arg) ==> (if referenced then a == Borrow(arg) else a == CloneDeref(arg))
  {
    if ctx == Some(arg) then (if referenced then Borrow(arg) else CloneDeref(arg)) else Pass(arg)
  }

  function AsyncArgs(m: RpcMethod): (r: seq<CallArg>)
    ensures |r| == |m.fnArgsAsIdent|
    ensures forall i :: 0 <= i < |r| ==> r[i] == AsyncCallArg(m.contextIdent, m.contextTyReferenced, m.fnArgsAsIdent[i])
  {
    Map((x: Ident) => AsyncCallArg(m.contextIdent, m.contextTyReferenced, x), m.fnArgsAsIdent)
  }

  function SyncArgs(m: RpcMethod): (r: seq<CallArg>)
    ensures |r| == |m.fnArgsAsIdent|
    ensures forall i :: 0 <= i < |r| ==> r[i] == Pass(m.fnArgsAsIdent[i])
  {
    Map((x: Ident) => Pass(x), m.fnArgsAsIdent)
  }

  /** `generate_async_handler`: the context arrives as `Arc<ContextOwned>`
      and the call is awaited. */
  function GenerateAsyncHandler(m: RpcMethod, contextIdent: Ident, parse: ParseStmt): (plan: HandlerPlan)
    ensures plan.kind == Registry.AsyncTag && plan.awaitsCall
    ensures plan.contextParamTy == PathType(ArcPath, [m.contextTyOwned])
    ensures plan.args == AsyncArgs(m)
  {
    HandlerPlan(Registry.AsyncTag, m.contextTyOwned, m.responseTy, contextIdent,
                PathType(ArcPath, [m.contextTyOwned]), parse, m.inputIdent, AsyncArgs(m), true)
  }

  /** `generate_sync_handler`: the context arrives as `&ContextOwned` and every
      identifier, the context's included, is passed as it is. */
  function GenerateSyncHandler(m: RpcMethod, contextIdent: Ident, parse: ParseStmt): (plan: HandlerPlan)
    ensures plan.kind == Registry.SyncTag && !plan.awaitsCall
    ensures plan.contextParamTy == Reference(false, m.contextTyOwned)
    ensures plan.args == SyncArgs(m)
  {
    HandlerPlan(Registry.SyncTag, m.contextTyOwned, m.responseTy, contextIdent,
                Reference(false, m.contextTyOwned), parse, m.inputIdent, SyncArgs(m), false)
  }

  /** `handler::generate` */
  function Generate(m: RpcMethod): (plan: HandlerPlan)
    ensures plan.kind == (if m.inputAsync then Registry.AsyncTag else Registry.SyncTag)
    ensures plan.contextIdent == (if m.contextIdent.Some? then m.contextIdent.value else DefaultContextIdent)
    ensures plan.parse == GenArgumentsParseImpl(m.fnArgsContextless)
    ensures plan.callee == m.inputIdent && plan.contextOwned == m.contextTyOwned && plan.response == m.responseTy
    ensures |plan.args| == |m.fnArgsAsIdent| && forall i :: 0 <= i < |plan.args| ==> plan.args[i].ident == m.fnArgsAsIdent[i]
  {
    var parse := GenArgumentsParseImpl(m.fnArgsContextless);
    var contextIdent := if m.contextIdent.Some? then m.contextIdent.value else DefaultContextIdent;
    if m.inputAsync then GenerateAsyncHandler(m, contextIdent, parse)
    else GenerateSyncHandler(m, contextIdent, parse)
  }

  // ---- What the generated wrapper does when called ----

  /** The value the user function receives in one argument position. */
  datatype ArgValue<V, C> = Value(v: V) | Context(c: C) | Unbound(ident: Ident)

  /** The value bound to `x` by the parse pattern, if any. */
  function Lookup<V>(pats: seq<Pat>, vals: seq<V>, x: Ident): (r: Option<V>)
    ensures r.Some? ==> exists k :: 0 <= k < |pats| && k < |vals| && pats[k].PatIdent? && pats[k].ident == x && r.value == vals[k]
    ensures r.None? ==> forall k :: 0 <= k < |pats| && k < |vals| ==> !(pats[k].PatIdent? && pats[k].ident == x)
  {
    if |pats| == 0 || |vals| == 0 then None
    else if pats[0].PatIdent? && pats[0].ident == x then Some(vals[0])
    else
      var rest := Lookup(pats[1..], vals[1..], x);
      assert rest.Some? ==> exists k :: 0 <= k < |pats| && k < |vals| && pats[k].PatIdent? && pats[k].ident == x && rest.value == vals[k] by {
        if rest.Some? {
          var k :| 0 <= k < |pats[1..]| && k < |vals[1..]| && pats[1..][k].PatIdent? && pats[1..][k].ident == x && rest.value == vals[1..][k];
          assert pats[k + 1] == pats[1..][k] && vals[k + 1] == vals[1..][k];
        }
      }
      assert rest.None? ==> forall k :: 0 <= k < |pats| && k < |vals| ==> !(pats[k].PatIdent? && pats[k].ident == x) by {
        if rest.None? {
          forall k | 0 <= k < |pats| && k < |vals| ensures !(pats[k].PatIdent? && pats[k].ident == x) {
            if k > 0 { assert pats[k] == pats[1..][k - 1]; }
          }
        }
      }
      rest
  }

  /** Name resolution inside the wrapper: the parse bindings shadow the
      context parameter. A borrow or clone of the context is, for the
      callee, the context. */
  function Resolve<V, C>(plan: HandlerPlan, vals: seq<V>, ctx: C, x: Ident): (r: ArgValue<V, C>)
    ensures r.Value? ==> exists k :: 0 <= k < |plan.parse.pats| && k < |vals| && plan.parse.pats[k].PatIdent?
                                     && plan.parse.pats[k].ident == x && r.v == vals[k]
    ensures r.Context? ==> x == plan.contextIdent && r.c == ctx
    ensures r.Unbound? ==> r.ident == x && x != plan.contextIdent
    ensures !r.Value? ==> forall k :: 0 <= k < |plan.parse.pats| && k < |vals| ==>
                                        !(plan.parse.pats[k].PatIdent? && plan.parse.pats[k].ident == x)
  {
    match Lookup(plan.parse.pats, vals, x)
    case Some(v) => Value(v)
    case None => if x == plan.contextIdent then Context(ctx) else Unbound(x)
  }

  function Bind<V, C>(plan: HandlerPlan, vals: seq<V>, ctx: C): (r: seq<ArgValue<V, C>>)
    ensures |r| == |plan.args| && forall i :: 0 <= i < |r| ==> r[i] == Resolve(plan, vals, ctx, plan.args[i].ident)
  {
    Map((a: CallArg) => Resolve(plan, vals, ctx, a.ident), plan.args)
  }

  /** `Params::one` / `Params::parse` into the given types, kept abstract. */
  type Decoder<!V> = (Registry.Params, ParseMethod, seq<Ty>) -> Result<seq<V>, Registry.ErrorObject>

  /** One call of the generated wrapper: the `?` on the parse statement is
      the only way to an `Err`; otherwise the user's return value is wrapped in `Ok`. */
  function Run<V, C, R>(plan: HandlerPlan, params: Registry.Params, ctx: C, decode: Decoder<V>,
                         user: seq<ArgValue<V, C>> -> R): (r: Registry.RpcResult<R>)
    ensures r.Err? <==> decode(params, plan.parse.accessor, plan.parse.tys).Err?
    ensures r.Err? ==> r.error == decode(params, plan.parse.accessor, plan.parse.tys).error
    ensures r.Ok? ==> r.value == user(Bind(plan, decode(params, plan.parse.accessor, plan.parse.tys).value, ctx))
  {
    match decode(params, plan.parse.accessor, plan.parse.tys)
    case Err(e) => Err(e)
    case Ok(vals) => Ok(user(Bind(plan, vals, ctx)))
  }

  /** The `ServerHandler` value the generated `handler()` returns. */
  function ToServerHandler<V, C, R>(plan: HandlerPlan, decode: Decoder<V>, user: seq<ArgValue<V, C>> -> R)
    : (h: Registry.ServerHandler<C, Registry.RpcResult<R>>)
    ensures h.Tag() == plan.kind
  {
    if plan.kind == Registry.SyncTag then
      Registry.Sync((p: Registry.Params, c: C, e: Registry.Extensions) => Run(plan, p, c, decode, user))
    else
      Registry.Async((p: Registry.Params, a: Registry.Arc<C>, e: Registry.Extensions) => Registry.Ready(Run(plan, p, a.shared, decode, user)))
  }

  /** Whichever variant it is, calling the returned handler runs the wrapper:
      directly for `Sync`, as a ready future over the `Arc`'s context for `Async`. */
  lemma ServerHandlerRunsWrapper<V, C, R>(plan: HandlerPlan, decode: Decoder<V>, user: seq<ArgValue<V, C>> -> R,
                                          p: Registry.Params, c: C, e: Registry.Extensions)
    ensures var h := ToServerHandler(plan, decode, user);
      && (h.Sync? <==> plan.kind == Registry.SyncTag)
      && (h.Sync? ==> h.syncFn(p, c, e) == Run(plan, p, c, decode, user))
      && (h.Async? ==> h.asyncFn(p, Registry.Arc(c), e) == Registry.Ready(Run(plan, p, c, decode, user)))
  {
  }

  // ---- Properties of the generated handler ----

  /** The context argument's identifier is not bound by the parse pattern
      when argument identifiers are distinct. */
  lemma ContextNotParsed(inputs: seq<FnArg>, m: RpcMethod, i: nat)
    requires WellParsed(inputs, m)
    requires DistinctIdents(TypedArgs(inputs))
    requires i < |inputs| && IsContextInput(inputs[i])
    ensures forall k :: 0 <= k < |m.fnArgsContextless| ==> m.fnArgsContextless[k].pat.ident != inputs[i].arg.pat.ident
  {
    var kept := Filter(NotContextArg, TypedArgs(inputs));
    forall k | 0 <= k < |m.fnArgsContextless| ensures m.fnArgsContextless[k].pat.ident != inputs[i].arg.pat.ident {
      KeptNamesDiffer(inputs, i, kept[k]);
      assert m.fnArgsContextless[k] == StripArg(kept[k]);
    }
  }

  /** A kept argument does not share its name with a `#[context]` one. */
  lemma KeptNamesDiffer(inputs: seq<FnArg>, i: nat, p: PatType)
    requires !HasReceiver(inputs) && !HasNonIdentArg(inputs)
    requires DistinctIdents(TypedArgs(inputs))
    requires i < |inputs| && IsContextInput(inputs[i])
    requires p in Filter(NotContextArg, TypedArgs(inputs))
    ensures p.pat.PatIdent? && p.pat.ident != inputs[i].arg.pat.ident
  {
    var typed := TypedArgs(inputs);
    FilterMembership(NotContextArg, typed, p);
    var j :| 0 <= j < |typed| && typed[j] == p;
    assert inputs[j] == Typed(typed[j]) && inputs[i] == Typed(typed[i]);
    assert j != i;
    assert typed[i].pat.PatIdent? && typed[j].pat.PatIdent?;
    if j < i { assert typed[j].pat.ident != typed[i].pat.ident; }
    else { assert typed[i].pat.ident != typed[j].pat.ident; }
  }

  /** The only context argument, when it has an identifier, is the one the
      wrapper names its context parameter after. */
  lemma ContextIdentIsThisOne(inputs: seq<FnArg>, i: nat)
    requires ContextCount(inputs) <= 1
    requires i < |inputs| && IsContextInput(inputs[i]) && inputs[i].arg.pat.PatIdent?
    ensures ExtractContextIdent(inputs) == Some(inputs[i].arg.pat.ident)
  {
    assert IsNamedContextInput(inputs[i]);
    var r := ExtractContextIdent(inputs);
    var j :| 0 <= j < |inputs| && IsNamedContextInput(inputs[j]) && inputs[j].arg.pat.ident == r.value;
    CountAtMostOne(IsContextInput, inputs, i, j);
  }

  /** Position `i` of the generated call names argument `i`. */
  lemma CallArgIdent(inputs: seq<FnArg>, m: RpcMethod, i: nat)
    requires WellParsed(inputs, m)
    requires i < |inputs|
    ensures i < |Generate(m).args| && Generate(m).args[i].ident == inputs[i].arg.pat.ident
  {
  }

  /** At a `#[context]` position the callee receives the context. */
  lemma BindContextPosition<V, C>(inputs: seq<FnArg>, m: RpcMethod, vals: seq<V>, ctx: C, i: nat)
    requires WellParsed(inputs, m)
    requires DistinctIdents(TypedArgs(inputs))
    requires ContextCount(inputs) <= 1
    requires i < |inputs| && IsContextInput(inputs[i])
    ensures Resolve(Generate(m), vals, ctx, inputs[i].arg.pat.ident) == Context(ctx)
  {
    var plan := Generate(m);
    var x := inputs[i].arg.pat.ident;
    ContextNotParsed(inputs, m, i);
    var r := Lookup(plan.parse.pats, vals, x);
    if r.Some? {
      assert false;
    }
    assert inputs[i].arg.pat.PatIdent? by { assert !HasNonIdentArg(inputs); }
    ContextIdentIsThisOne(inputs, i);
    assert plan.contextIdent == x;
  }

  /** A typed argument without `#[context]` appears among the contextless
      arguments under its own name. */
  lemma ContextlessIndex(inputs: seq<FnArg>, m: RpcMethod, i: nat) returns (k: nat)
    requires WellParsed(inputs, m)
    requires i < |inputs| && !IsContextInput(inputs[i])
    ensures k < |m.fnArgsContextless| && m.fnArgsContextless[k].pat.PatIdent?
    ensures m.fnArgsContextless[k].pat.ident == inputs[i].arg.pat.ident
  {
    var typed := TypedArgs(inputs);
    assert inputs[i] == Typed(typed[i]);
    FilterMembership(NotContextArg, typed, typed[i]);
    var kept := Filter(NotContextArg, typed);
    k :| 0 <= k < |kept| && kept[k] == typed[i];
    assert m.fnArgsContextless[k] == StripArg(typed[i]);
    assert typed[i].pat.PatIdent? by { assert !HasNonIdentArg(inputs); }
  }

  /** At any other position the callee receives the decoded value bound to that argument's name. */
  lemma BindValuePosition<V, C>(inputs: seq<FnArg>, m: RpcMethod, vals: seq<V>, ctx: C, i: nat)
    requires WellParsed(inputs, m)
    requires |vals| == |m.fnArgsContextless|
    requires i < |inputs| && !IsContextInput(inputs[i])
    ensures exists k :: 0 <= k < |vals| && m.fnArgsContextlessAsIdent[k] == inputs[i].arg.pat.ident
                        && Resolve(Generate(m), vals, ctx, inputs[i].arg.pat.ident) == Value(vals[k])
  {
    var pats := Generate(m).parse.pats;
    var x := inputs[i].arg.pat.ident;
    var k := ContextlessIndex(inputs, m, i);
    assert pats[k] == m.fnArgsContextless[k].pat;
    var r := Lookup(pats, vals, x);
    if r.None? {
      assert false;
    }
    var k' :| 0 <= k' < |pats| && k' < |vals| && pats[k'].PatIdent? && pats[k'].ident == x && r.value == vals[k'];
    assert pats[k'] == m.fnArgsContextless[k'].pat;
    assert m.fnArgsContextlessAsIdent[k'] == x;
  }

  /** With distinct argument names and at most one `#[context]` argument, the
      user function receives, position by position, the context where it
      declared `#[context]` and the decoded value bound to the argument's own
      name everywhere else. */
  lemma BindsArguments<V, C>(inputs: seq<FnArg>, m: RpcMethod, vals: seq<V>, ctx: C)
    requires WellParsed(inputs, m)
    requires DistinctIdents(TypedArgs(inputs))
    requires ContextCount(inputs) <= 1
    requires |vals| == |m.fnArgsContextless|
    ensures var b := Bind(Generate(m), vals, ctx);
      && |b| == |inputs|
      && forall i :: 0 <= i < |b| ==>
           if IsContextInput(inputs[i]) then b[i] == Context(ctx)
           else exists k :: 0 <= k < |vals| && m.fnArgsContextlessAsIdent[k] == inputs[i].arg.pat.ident && b[i] == Value(vals[k])
  {
    var b := Bind(Generate(m), vals, ctx);
    forall i | 0 <= i < |b|
      ensures if IsContextInput(inputs[i]) then b[i] == Context(ctx)
              else exists k :: 0 <= k < |vals| && m.fnArgsContextlessAsIdent[k] == inputs[i].arg.pat.ident && b[i] == Value(vals[k])
    {
      CallArgIdent(inputs, m, i);
      if IsContextInput(inputs[i]) {
        BindContextPosition(inputs, m, vals, ctx, i);
      } else {
        BindValuePosition(inputs, m, vals, ctx, i);
      }
    }
  }

  /** `BindsArguments` for the method `RpcMethod::parse` produces. */
  lemma HandlerBindsArguments<V, C>(input: ItemFn, foreign: Foreign, vals: seq<V>, ctx: C)
    requires Parse(input, foreign).Ok?
    requires DistinctIdents(TypedArgs(input.sig.inputs))
    requires ContextCount(input.sig.inputs) <= 1
    requires |vals| == |Parse(input, foreign).value.fnArgsContextless|
    ensures var b := Bind(Generate(Parse(input, foreign).value), vals, ctx);
      && |b| == |input.sig.inputs|
      && forall i :: 0 <= i < |b| ==>
           if IsContextInput(input.sig.inputs[i]) then b[i] == Context(ctx)
           else exists k :: 0 <= k < |vals| && Parse(input, foreign).value.fnArgsContextlessAsIdent[k] == input.sig.inputs[i].arg.pat.ident
                                           && b[i] == Value(vals[k])
  {
    ParseWellParsed(input, foreign);
    BindsArguments(input.sig.inputs, Parse(input, foreign).value, vals, ctx);
  }

  /** A second `#[context]` argument is neither parsed nor the wrapper's
      context parameter: its name is unbound in the generated call, so the
      expansion does not compile. */
  lemma SecondContextUnbound<V, C>(inputs: seq<FnArg>, m: RpcMethod, vals: seq<V>, ctx: C, i: nat, j: nat)
    requires WellParsed(inputs, m)
    requires DistinctIdents(TypedArgs(inputs))
    requires i < j < |inputs|
    requires IsContextInput(inputs[i]) && IsContextInput(inputs[j])
    ensures Bind(Generate(m), vals, ctx)[j] == Unbound(inputs[j].arg.pat.ident)
  {
    var plan := Generate(m);
    var x := inputs[j].arg.pat.ident;
    CallArgIdent(inputs, m, j);
    NotParsedResolve(inputs, m, vals, ctx, i, j);
    var b := Bind(plan, vals, ctx);
    assert b[j] == Resolve(plan, vals, ctx, plan.args[j].ident);
  }

  lemma NotParsedResolve<V, C>(inputs: seq<FnArg>, m: RpcMethod, vals: seq<V>, ctx: C, i: nat, j: nat)
    requires WellParsed(inputs, m)
    requires DistinctIdents(TypedArgs(inputs))
    requires i < j < |inputs|
    requires IsContextInput(inputs[i]) && IsContextInput(inputs[j])
    ensures Resolve(Generate(m), vals, ctx, inputs[j].arg.pat.ident) == Unbound(inputs[j].arg.pat.ident)
  {
    var x := inputs[j].arg.pat.ident;
    var plan := Generate(m);
    ContextNotParsed(inputs, m, j);
    SecondContextIsNotTheParameter(inputs, m, i, j);
    forall k | 0 <= k < |plan.parse.pats| ensures !(plan.parse.pats[k].PatIdent? && plan.parse.pats[k].ident == x) {
      assert plan.parse.pats[k] == m.fnArgsContextless[k].pat;
    }
    ResolveUnbound(plan, vals, ctx, x);
  }

  /** A name that the parse pattern does not bind and that is not the
      context parameter is unbound. */
  lemma ResolveUnbound<V, C>(plan: HandlerPlan, vals: seq<V>, ctx: C, x: Ident)
    requires forall k :: 0 <= k < |plan.parse.pats| ==> !(plan.parse.pats[k].PatIdent? && plan.parse.pats[k].ident == x)
    requires plan.contextIdent != x
    ensures Resolve(plan, vals, ctx, x) == Unbound(x)
  {
    var r := Lookup(plan.parse.pats, vals, x);
    if r.Some? {
      assert false;
    }
  }

  lemma SecondContextIsNotTheParameter(inputs: seq<FnArg>, m: RpcMethod, i: nat, j: nat)
    requires WellParsed(inputs, m)
    requires DistinctIdents(TypedArgs(inputs))
    requires i < j < |inputs|
    requires IsContextInput(inputs[i]) && IsContextInput(inputs[j])
    ensures Generate(m).contextIdent != inputs[j].arg.pat.ident
  {
    assert inputs[i].arg.pat.PatIdent? by { assert !HasNonIdentArg(inputs); }
    assert IsNamedContextInput(inputs[i]);
    var c := ExtractContextIdent(inputs);
    var f :| 0 <= f < |inputs| && IsNamedContextInput(inputs[f]) && inputs[f].arg.pat.ident == c.value
             && forall g :: 0 <= g < f ==> !IsNamedContextInput(inputs[g]);
    assert f <= i;
    var typed := TypedArgs(inputs);
    assert inputs[f] == Typed(typed[f]) && inputs[j] == Typed(typed[j]);
    assert typed[j].pat.PatIdent? by { assert !HasNonIdentArg(inputs); }
    assert typed[f].pat.ident != typed[j].pat.ident;
  }

  // ---- Whether the context expression fits the declared context type ----

  /** The type of call argument `a` when it names the wrapper's context
      parameter: the parameter itself, a borrow of it (an `&Arc<T>` or `&&T`
      coerces to `&T`), or a clone of what it points to. */
  function ContextExprTy(plan: HandlerPlan, a: CallArg): (t: Ty)
    ensures a.Borrow? ==> t == Reference(false, plan.contextOwned)
    ensures a.CloneDeref? ==> t == plan.contextOwned
    ensures a.Pass? ==> t == plan.contextParamTy
  {
    match a
    case Pass(_) => plan.contextParamTy
    case Borrow(_) => Reference(false, plan.contextOwned)
    case CloneDeref(_) => plan.contextOwned
  }

  /** `ty` is a shared reference to `owned`, or `owned` itself: the two shapes
      of a context type whose owned version is `owned`. */
  predicate OwnedVersionOf(ty: Ty, owned: Ty)
  {
    ty == Reference(false, owned) || (!ty.Reference? && ty == owned)
  }

  /** The first `#[context]` argument fixes the context type. */
  lemma FirstContextTy(input: ItemFn, foreign: Foreign, i: nat)
    requires Parse(input, foreign).Ok?
    requires i < |input.sig.inputs| && IsContextInput(input.sig.inputs[i])
    requires forall j :: 0 <= j < i ==> !IsContextInput(input.sig.inputs[j])
    ensures Parse(input, foreign).value.contextTy == input.sig.inputs[i].arg.ty
    ensures Parse(input, foreign).value.contextTyReferenced == input.sig.inputs[i].arg.ty.Reference?
    ensures Parse(input, foreign).value.contextIdent == Some(input.sig.inputs[i].arg.pat.ident)
  {
    var inputs := input.sig.inputs;
    assert inputs[i].arg.pat.PatIdent? by { assert !HasNonIdentArg(inputs); }
    FirstContextArg(inputs, i);
  }

  /** The first `#[context]` argument is the one both extractors return. */
  lemma FirstContextArg(inputs: seq<FnArg>, i: nat)
    requires i < |inputs| && IsContextInput(inputs[i]) && inputs[i].arg.pat.PatIdent?
    requires forall j :: 0 <= j < i ==> !IsContextInput(inputs[j])
    ensures ExtractContextArg(inputs) == Some(inputs[i].arg)
    ensures ExtractContextIdent(inputs) == Some(inputs[i].arg.pat.ident)
  {
    var c := ExtractContextArg(inputs);
    var f :| 0 <= f < |inputs| && inputs[f] == Typed(c.value) && IsContextArg(c.value)
             && forall j :: 0 <= j < f ==> !IsContextInput(inputs[j]);
    assert f == i;
    ContextIdentAgrees(inputs);
  }

  /** The async wrapper hands an owned or a `&` context over at the type the
      user function declares. */
  lemma AsyncContextFits(input: ItemFn, foreign: Foreign, i: nat)
    requires Parse(input, foreign).Ok? && input.sig.isAsync
    requires i < |input.sig.inputs| && IsContextInput(input.sig.inputs[i])
    requires forall j :: 0 <= j < i ==> !IsContextInput(input.sig.inputs[j])
    requires OwnedVersionOf(input.sig.inputs[i].arg.ty, foreign.ownedTypeVersion(input.sig.inputs[i].arg.ty))
    ensures var plan := Generate(Parse(input, foreign).value);
      i < |plan.args| && ContextExprTy(plan, plan.args[i]) == input.sig.inputs[i].arg.ty
  {
    var m := Parse(input, foreign).value;
    ParseWellParsed(input, foreign);
    FirstContextTy(input, foreign, i);
    assert AsyncArgs(m)[i] == AsyncCallArg(m.contextIdent, m.contextTyReferenced, m.fnArgsAsIdent[i]);
  }

  /** As written, the sync wrapper passes its `&ContextOwned` parameter as it
      is, so a context declared by value receives a reference: the expansion
      does not type-check. */
  lemma SyncOwnedContextMismatch(input: ItemFn, foreign: Foreign, i: nat)
    requires Parse(input, foreign).Ok? && !input.sig.isAsync
    requires i < |input.sig.inputs| && IsContextInput(input.sig.inputs[i])
    requires forall j :: 0 <= j < i ==> !IsContextInput(input.sig.inputs[j])
    requires !input.sig.inputs[i].arg.ty.Reference?
    requires foreign.ownedTypeVersion(input.sig.inputs[i].arg.ty) == input.sig.inputs[i].arg.ty
    ensures var plan := Generate(Parse(input, foreign).value);
      && i < |plan.args| && plan.args[i] == Pass(input.sig.inputs[i].arg.pat.ident)
      && ContextExprTy(plan, plan.args[i]) == Reference(false, input.sig.inputs[i].arg.ty)
      && ContextExprTy(plan, plan.args[i]) != input.sig.inputs[i].arg.ty
  {
    var m := Parse(input, foreign).value;
    ParseWellParsed(input, foreign);
    FirstContextTy(input, foreign, i);
    assert SyncArgs(m)[i] == Pass(m.fnArgsAsIdent[i]);
  }

  /** The sync call argument the generator evidently means: the context is
      cloned out of the reference when declared by value. */
  function SyncCallArg(ctx: Option<Ident>, referenced: bool, arg: Ident): (a: CallArg)
    ensures a.ident == arg
    ensures a == (if ctx == Some(arg) && !referenced then CloneDeref(arg) else Pass(arg))
  {
    if ctx == Some(arg) && !referenced then CloneDeref(arg) else Pass(arg)
  }

  /** `generate_sync_handler` with `SyncCallArg` in place of passing every identifier as is. */
  function GenerateSyncHandlerFixed(m: RpcMethod, contextIdent: Ident, parse: ParseStmt): (plan: HandlerPlan)
    ensures plan.kind == Registry.SyncTag && !plan.awaitsCall
    ensures plan.contextParamTy == Reference(false, m.contextTyOwned)
    ensures |plan.args| == |m.fnArgsAsIdent|
    ensures forall i :: 0 <= i < |plan.args| ==> plan.args[i] == SyncCallArg(m.contextIdent, m.contextTyReferenced, m.fnArgsAsIdent[i])
  {
    var args := Map((x: Ident) => SyncCallArg(m.contextIdent, m.contextTyReferenced, x), m.fnArgsAsIdent);
    HandlerPlan(Registry.SyncTag, m.contextTyOwned, m.responseTy, contextIdent,
                Reference(false, m.contextTyOwned), parse, m.inputIdent, args, false)
  }

  /** `Generate` with the corrected sync wrapper; async plans are unchanged. */
  function GenerateFixed(m: RpcMethod): (plan: HandlerPlan)
    ensures m.inputAsync ==> plan == Generate(m)
    ensures !m.inputAsync ==> plan.parse == Generate(m).parse && plan.contextIdent == Generate(m).contextIdent
    ensures |plan.args| == |m.fnArgsAsIdent| && forall i :: 0 <= i < |plan.args| ==> plan.args[i].ident == m.fnArgsAsIdent[i]
  {
    var parse := GenArgumentsParseImpl(m.fnArgsContextless);
    var contextIdent := if m.contextIdent.Some? then m.contextIdent.value else DefaultContextIdent;
    if m.inputAsync then GenerateAsyncHandler(m, contextIdent, parse)
    else GenerateSyncHandlerFixed(m, contextIdent, parse)
  }

  /** With the correction, sync and async wrappers alike hand the context over
      at its declared type, owned or `&`. */
  lemma FixedContextFits(input: ItemFn, foreign: Foreign, i: nat)
    requires Parse(input, foreign).Ok?
    requires i < |input.sig.inputs| && IsContextInput(input.sig.inputs[i])
    requires forall j :: 0 <= j < i ==> !IsContextInput(input.sig.inputs[j])
    requires OwnedVersionOf(input.sig.inputs[i].arg.ty, foreign.ownedTypeVersion(input.sig.inputs[i].arg.ty))
    ensures var plan := GenerateFixed(Parse(input, foreign).value);
      i < |plan.args| && ContextExprTy(plan, plan.args[i]) == input.sig.inputs[i].arg.ty
  {
    var m := Parse(input, foreign).value;
    ParseWellParsed(input, foreign);
    FirstContextTy(input, foreign, i);
    if input.sig.isAsync {
      AsyncContextFits(input, foreign, i);
    }
  }
}
