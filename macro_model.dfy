/** The parsed form of an `#[rpc]` function that every generator of the
    current macro crate works from (`rpc_method/model.rs`). */
module MacroModel {
  import opened Wrappers
  import opened Seqs
  import opened RustSyntax
  import opened Codegen

  /** Helpers the parser calls but whose code is not part of this model:
      `heck`'s UpperCamelCase conversion, `owned_type_version` (for example
      `&str` to `String`) and the crate's own `extract_return_type`. */
  datatype Foreign = Foreign(
    upperCamelCase: string -> string,
    ownedTypeVersion: Ty -> Ty,
    extractReturnType: ItemFn -> Ty)

  /** The macro's own arguments: `#[rpc(client = Path, client_field = expr)]`. */
  datatype RpcMethodArgs = RpcMethodArgs(client: Option<seq<Ident>>, clientField: Option<Expr>)

  /** The parsed function. */
  datatype RpcMethod = RpcMethod(
    inputAsync: bool,
    inputIdent: Ident,
    inputVis: Visibility,
    outputIdent: Ident,
    contextNeeded: bool,
    contextTyReferenced: bool,
    contextTy: Ty,
    contextTyOwned: Ty,
    contextIdent: Option<Ident>,
    fnArgs: seq<PatType>,
    fnArgsAsIdent: seq<Ident>,
    fnArgsContextless: seq<PatType>,
    fnArgsContextlessAsIdent: seq<Ident>,
    responseTy: Ty)

  const SelfPanic: string := "function cannot take self"
  const PatternPanic: string := "Unexpected pattern type"

  /** `extract_context_arg`: the first typed argument carrying `#[context]`. */
  function ExtractContextArg(inputs: seq<FnArg>): (r: Option<PatType>)
    ensures r.None? <==> forall i :: 0 <= i < |inputs| ==> !IsContextInput(inputs[i])
    ensures r.Some? ==> exists i :: 0 <= i < |inputs| && inputs[i] == Typed(r.value) && IsContextArg(r.value)
                                   && forall j :: 0 <= j < i ==> !IsContextInput(inputs[j])
  {
    if |inputs| == 0 then None
    else if IsContextInput(inputs[0]) then Some(inputs[0].arg)
    else
      var rest := ExtractContextArg(inputs[1..]);
      assert rest.None? <==> forall i :: 0 <= i < |inputs| ==> !IsContextInput(inputs[i]) by {
        if rest.None? {
          forall i | 0 <= i < |inputs| ensures !IsContextInput(inputs[i]) {
            if i > 0 { assert inputs[i] == inputs[1..][i - 1]; }
          }
        } else {
          var k :| 0 <= k < |inputs[1..]| && inputs[1..][k] == Typed(rest.value) && IsContextArg(rest.value);
          assert IsContextInput(inputs[k + 1]);
        }
      }
      if rest.Some? then
        assert exists i :: 0 <= i < |inputs| && inputs[i] == Typed(rest.value) && IsContextArg(rest.value)
                           && forall j :: 0 <= j < i ==> !IsContextInput(inputs[j]) by {
          var k :| 0 <= k < |inputs[1..]| && inputs[1..][k] == Typed(rest.value) && IsContextArg(rest.value)
                   && forall j :: 0 <= j < k ==> !IsContextInput(inputs[1..][j]);
          assert inputs[k + 1] == inputs[1..][k];
          forall j | 0 <= j < k + 1 ensures !IsContextInput(inputs[j]) {
            if j > 0 { assert inputs[j] == inputs[1..][j - 1]; }
          }
        }
        rest
      else rest
  }

  /** A `#[context]` argument whose pattern is a plain identifier. */
  predicate IsNamedContextInput(a: FnArg)
  {
    IsContextInput(a) && a.arg.pat.PatIdent?
  }

  /** `extract_context_ident`: the identifier of the first `#[context]`
      argument whose pattern is an identifier; context arguments with any
      other pattern are passed over. */
  function ExtractContextIdent(inputs: seq<FnArg>): (r: Option<Ident>)
    ensures r.None? <==> forall i :: 0 <= i < |inputs| ==> !IsNamedContextInput(inputs[i])
    ensures r.Some? ==> exists i :: 0 <= i < |inputs| && IsNamedContextInput(inputs[i]) && inputs[i].arg.pat.ident == r.value
                                   && forall j :: 0 <= j < i ==> !IsNamedContextInput(inputs[j])
  {
    if |inputs| == 0 then None
    else if IsNamedContextInput(inputs[0]) then Some(inputs[0].arg.pat.ident)
    else
      var rest := ExtractContextIdent(inputs[1..]);
      assert rest.None? <==> forall i :: 0 <= i < |inputs| ==> !IsNamedContextInput(inputs[i]) by {
        if rest.None? {
          forall i | 0 <= i < |inputs| ensures !IsNamedContextInput(inputs[i]) {
            if i > 0 { assert inputs[i] == inputs[1..][i - 1]; }
          }
        } else {
          var k :| 0 <= k < |inputs[1..]| && IsNamedContextInput(inputs[1..][k]);
          assert IsNamedContextInput(inputs[k + 1]);
        }
      }
      if rest.Some? then
        assert exists i :: 0 <= i < |inputs| && IsNamedContextInput(inputs[i]) && inputs[i].arg.pat.ident == rest.value
                           && forall j :: 0 <= j < i ==> !IsNamedContextInput(inputs[j]) by {
          var k :| 0 <= k < |inputs[1..]| && IsNamedContextInput(inputs[1..][k]) && inputs[1..][k].arg.pat.ident == rest.value
                   && forall j :: 0 <= j < k ==> !IsNamedContextInput(inputs[1..][j]);
          assert inputs[k + 1] == inputs[1..][k];
          forall j | 0 <= j < k + 1 ensures !IsNamedContextInput(inputs[j]) {
            if j > 0 { assert inputs[j] == inputs[1..][j - 1]; }
          }
        }
        rest
      else rest
  }

  /** When the first `#[context]` argument is a plain identifier, the two
      extractors agree on it; a context identifier implies a context argument. */
  lemma {:induction false} ContextIdentAgrees(inputs: seq<FnArg>)
    ensures ExtractContextIdent(inputs).Some? ==> ExtractContextArg(inputs).Some?
    ensures ExtractContextArg(inputs).Some? && ExtractContextArg(inputs).value.pat.PatIdent? ==>
              ExtractContextIdent(inputs) == Some(ExtractContextArg(inputs).value.pat.ident)
  {
    if |inputs| > 0 && !IsContextInput(inputs[0]) {
      ContextIdentAgrees(inputs[1..]);
    }
  }

  predicate NotContextAttr(a: Attribute)
  {
    !IsIdent(a, "context")
  }

  predicate NotContextArg(p: PatType)
  {
    !IsContextArg(p)
  }

  /** Drops `mut` from an identifier pattern; other patterns are kept. */
  function ClearMut(p: Pat): (r: Pat)
    ensures r.PatIdent? <==> p.PatIdent?
    ensures p.PatIdent? ==> r == PatIdent(p.byRef, false, p.ident)
    ensures !p.PatIdent? ==> r == p
  {
    if p.PatIdent? then PatIdent(p.byRef, false, p.ident) else p
  }

  /** One argument as `extract_fn_args` emits it: `#[context]` attributes
      removed, the others kept in order, `mut` cleared, the type unchanged. */
  function StripArg(p: PatType): (r: PatType)
    ensures !IsContextArg(r)
    ensures forall a :: a in r.attrs <==> a in p.attrs && !IsIdent(a, "context")
    ensures !IsContextArg(p) ==> r.attrs == p.attrs
    ensures r.ty == p.ty
    ensures r.pat.PatIdent? <==> p.pat.PatIdent?
    ensures p.pat.PatIdent? ==> r.pat.ident == p.pat.ident && !r.pat.mutable
  {
    var attrs := Filter(NotContextAttr, p.attrs);
    forall a ensures a in attrs <==> a in p.attrs && !IsIdent(a, "context") {
      FilterMembership(NotContextAttr, p.attrs, a);
    }
    PatType(attrs, ClearMut(p.pat), p.ty)
  }

  lemma HasReceiverCons(inputs: seq<FnArg>)
    requires |inputs| > 0
    ensures HasReceiver(inputs) <==> inputs[0].Receiver? || HasReceiver(inputs[1..])
  {
    if HasReceiver(inputs[1..]) {
      var i :| 0 <= i < |inputs[1..]| && inputs[1..][i].Receiver?;
      assert inputs[i + 1].Receiver?;
    }
    if HasReceiver(inputs) && !inputs[0].Receiver? {
      var i :| 0 <= i < |inputs| && inputs[i].Receiver?;
      assert inputs[1..][i - 1].Receiver?;
    }
  }

  /** The arguments `extract_fn_args` keeps before stripping. */
  function Kept(inputs: seq<FnArg>, excludeContext: bool): seq<PatType>
  {
    if excludeContext then Filter(NotContextArg, TypedArgs(inputs)) else TypedArgs(inputs)
  }

  /** `extract_fn_args`: panics on any receiver; otherwise every typed argument
      in order (minus the `#[context]` ones when excluding), each stripped. */
  function ExtractFnArgs(inputs: seq<FnArg>, excludeContext: bool): (r: Result<seq<PatType>, Failure>)
    ensures r.Err? <==> HasReceiver(inputs)
    ensures r.Err? ==> r.error == MacroPanic(SelfPanic)
    ensures r.Ok? ==> r.value == Map(StripArg, Kept(inputs, excludeContext))
  {
    if |inputs| == 0 then Ok([])
    else
      HasReceiverCons(inputs);
      match inputs[0]
      case Receiver(_, _, _) => Err(MacroPanic(SelfPanic))
      case Typed(p) =>
        var rest := ExtractFnArgs(inputs[1..], excludeContext);
        if rest.Err? then rest
        else
          assert TypedArgs(inputs) == [p] + TypedArgs(inputs[1..]);
          FilterCons(NotContextArg, p, TypedArgs(inputs[1..]));
          MapCons(StripArg, p, Kept(inputs[1..], excludeContext));
          if excludeContext && IsContextArg(p) then rest
          else Ok([StripArg(p)] + rest.value)
  }

  /** `as_ident`: one identifier per argument, in order; any other pattern panics. */
  function AsIdent(args: seq<PatType>): (r: Result<seq<Ident>, Failure>)
    ensures r.Err? <==> exists i :: 0 <= i < |args| && !IsIdentPat(args[i])
    ensures r.Err? ==> r.error == MacroPanic(PatternPanic)
    ensures r.Ok? ==> |r.value| == |args| && forall i :: 0 <= i < |args| ==> r.value[i] == args[i].pat.ident
  {
    if |args| == 0 then Ok([])
    else if !IsIdentPat(args[0]) then Err(MacroPanic(PatternPanic))
    else
      var rest := AsIdent(args[1..]);
      assert (exists i :: 0 <= i < |args| && !IsIdentPat(args[i])) <==> (exists i :: 0 <= i < |args[1..]| && !IsIdentPat(args[1..][i])) by {
        if exists i :: 0 <= i < |args| && !IsIdentPat(args[i]) {
          var i :| 0 <= i < |args| && !IsIdentPat(args[i]);
          assert args[1..][i - 1] == args[i];
        }
        if exists i :: 0 <= i < |args[1..]| && !IsIdentPat(args[1..][i]) {
          var i :| 0 <= i < |args[1..]| && !IsIdentPat(args[1..][i]);
          assert args[i + 1] == args[1..][i];
        }
      }
      if rest.Err? then rest else Ok([args[0].pat.ident] + rest.value)
  }

  /** A typed argument whose pattern is not a plain identifier. */
  predicate HasNonIdentArg(inputs: seq<FnArg>)
  {
    exists i :: 0 <= i < |inputs| && inputs[i].Typed? && !IsIdentPat(inputs[i].arg)
  }

  /** The stripped typed arguments contain a non-identifier pattern exactly
      when the input does, and excluding context arguments cannot add one. */
  lemma StrippedPatterns(inputs: seq<FnArg>, excludeContext: bool)
    requires !HasReceiver(inputs)
    ensures (exists i :: 0 <= i < |Map(StripArg, Kept(inputs, excludeContext))| && !IsIdentPat(Map(StripArg, Kept(inputs, excludeContext))[i]))
              ==> HasNonIdentArg(inputs)
    ensures !excludeContext ==>
              (HasNonIdentArg(inputs) ==> exists i :: 0 <= i < |Map(StripArg, Kept(inputs, false))| && !IsIdentPat(Map(StripArg, Kept(inputs, false))[i]))
  {
    var typed := TypedArgs(inputs);
    var kept := Kept(inputs, excludeContext);
    var m := Map(StripArg, kept);
    if exists i :: 0 <= i < |m| && !IsIdentPat(m[i]) {
      var i :| 0 <= i < |m| && !IsIdentPat(m[i]);
      assert kept[i] in typed by {
        if excludeContext { FilterMembership(NotContextArg, typed, kept[i]); }
      }
      var j :| 0 <= j < |typed| && typed[j] == kept[i];
      assert inputs[j] == Typed(typed[j]);
    }
    if !excludeContext && HasNonIdentArg(inputs) {
      var j :| 0 <= j < |inputs| && inputs[j].Typed? && !IsIdentPat(inputs[j].arg);
      assert !IsIdentPat(m[j]);
    }
  }

  /** Without receivers, `as_ident` fails on the full argument list exactly
      when some pattern is not an identifier, and then only there: the
      contextless list is a part of it. */
  lemma IdentifierLists(inputs: seq<FnArg>)
    requires !HasReceiver(inputs)
    ensures AsIdent(ExtractFnArgs(inputs, false).value).Err? <==> HasNonIdentArg(inputs)
    ensures !HasNonIdentArg(inputs) ==> AsIdent(ExtractFnArgs(inputs, true).value).Ok?
  {
    StrippedPatterns(inputs, false);
    StrippedPatterns(inputs, true);
  }

  /** `RpcMethod::parse`. The argument lists are extracted first, so a
      receiver panics before a non-identifier pattern does. */
  function Parse(input: ItemFn, foreign: Foreign): (r: Result<RpcMethod, Failure>)
    ensures r.Ok? <==> !HasReceiver(input.sig.inputs) && !HasNonIdentArg(input.sig.inputs)
    ensures r.Err? ==> r.error == MacroPanic(if HasReceiver(input.sig.inputs) then SelfPanic else PatternPanic)
  {
    var inputs := input.sig.inputs;
    var contextArg := ExtractContextArg(inputs);
    var contextTy := if contextArg.Some? then contextArg.value.ty else UnitTy;
    match ExtractFnArgs(inputs, false)
    case Err(e) => Err(e)
    case Ok(fnArgs) =>
      var contextless := ExtractFnArgs(inputs, true);
      IdentifierLists(inputs);
      match AsIdent(fnArgs)
      case Err(e) => Err(e)
      case Ok(fnArgsAsIdent) =>
        match AsIdent(contextless.value)
        case Err(e) => Err(e)
        case Ok(contextlessAsIdent) =>
          Ok(RpcMethod(
            input.sig.isAsync,
            input.sig.ident,
            input.vis,
            foreign.upperCamelCase(input.sig.ident),
            contextArg.Some?,
            contextTy.Reference?,
            contextTy,
            foreign.ownedTypeVersion(contextTy),
            ExtractContextIdent(inputs),
            fnArgs,
            fnArgsAsIdent,
            contextless.value,
            contextlessAsIdent,
            foreign.extractReturnType(input)))
  }

  /** Typed arguments without `#[context]` plus context arguments account for every input. */
  lemma {:induction false} ContextlessCount(inputs: seq<FnArg>)
    requires !HasReceiver(inputs)
    ensures |Filter(NotContextArg, TypedArgs(inputs))| + ContextCount(inputs) == |inputs|
  {
    if |inputs| > 0 {
      HasReceiverCons(inputs);
      ContextlessCount(inputs[1..]);
      FilterCons(NotContextArg, inputs[0].arg, TypedArgs(inputs[1..]));
      assert TypedArgs(inputs) == [inputs[0].arg] + TypedArgs(inputs[1..]);
    }
  }

  /** A successful `RpcMethod::parse` names the function and its struct and
      records the response type. */
  lemma ParseNames(input: ItemFn, foreign: Foreign)
    requires Parse(input, foreign).Ok?
    ensures var m := Parse(input, foreign).value;
      && m.inputIdent == input.sig.ident && m.inputAsync == input.sig.isAsync && m.inputVis == input.vis
      && m.outputIdent == foreign.upperCamelCase(input.sig.ident)
      && m.responseTy == foreign.extractReturnType(input)
  {
  }

  /** The context fields: needed iff some argument is `#[context]`; the type is
      that of the first such argument, or `()`. */
  lemma ParseContext(input: ItemFn, foreign: Foreign)
    requires Parse(input, foreign).Ok?
    ensures var m := Parse(input, foreign).value; var inputs := input.sig.inputs;
      && (m.contextNeeded <==> exists i :: 0 <= i < |inputs| && IsContextInput(inputs[i]))
      && (!m.contextNeeded ==> m.contextTy == UnitTy)
      && (m.contextNeeded ==> exists i :: 0 <= i < |inputs| && IsContextInput(inputs[i]) && inputs[i].arg.ty == m.contextTy
                                          && forall j :: 0 <= j < i ==> !IsContextInput(inputs[j]))
      && (m.contextTyReferenced <==> m.contextTy.Reference?)
      && m.contextTyOwned == foreign.ownedTypeVersion(m.contextTy)
      && m.contextIdent == ExtractContextIdent(inputs)
  {
  }

  /** `fn_args` and its identifiers: every argument, in order, stripped. */
  lemma ParseArgs(input: ItemFn, foreign: Foreign)
    requires Parse(input, foreign).Ok?
    ensures var m := Parse(input, foreign).value; var inputs := input.sig.inputs;
      && |m.fnArgs| == |inputs| == |m.fnArgsAsIdent|
      && forall i :: 0 <= i < |inputs| ==>
           (inputs[i].Typed? && m.fnArgs[i] == StripArg(inputs[i].arg) && m.fnArgsAsIdent[i] == inputs[i].arg.pat.ident)
  {
    assert forall i :: 0 <= i < |input.sig.inputs| ==> input.sig.inputs[i] == Typed(TypedArgs(input.sig.inputs)[i]);
  }

  /** `fn_args_contextless`: the arguments without `#[context]`, in order,
      stripped, and their identifiers. */
  lemma ParseContextless(input: ItemFn, foreign: Foreign)
    requires Parse(input, foreign).Ok?
    ensures var m := Parse(input, foreign).value; var inputs := input.sig.inputs;
      && m.fnArgsContextless == Map(StripArg, Filter(NotContextArg, TypedArgs(inputs)))
      && |m.fnArgsContextless| + ContextCount(inputs) == |inputs|
      && |m.fnArgsContextlessAsIdent| == |m.fnArgsContextless|
      && forall k :: 0 <= k < |m.fnArgsContextless| ==>
           (m.fnArgsContextless[k].pat.PatIdent? && m.fnArgsContextlessAsIdent[k] == m.fnArgsContextless[k].pat.ident)
  {
    ContextlessCount(input.sig.inputs);
    StrippedPatterns(input.sig.inputs, true);
  }

  /** The facts about a parsed function that the generators rely on. */
  predicate WellParsed(inputs: seq<FnArg>, m: RpcMethod)
  {
    && !HasReceiver(inputs) && !HasNonIdentArg(inputs)
    && |m.fnArgsAsIdent| == |inputs|
    && (forall i :: 0 <= i < |inputs| ==> m.fnArgsAsIdent[i] == inputs[i].arg.pat.ident)
    && m.fnArgsContextless == Map(StripArg, Filter(NotContextArg, TypedArgs(inputs)))
    && |m.fnArgsContextlessAsIdent| == |m.fnArgsContextless|
    && (forall k :: 0 <= k < |m.fnArgsContextless| ==>
          m.fnArgsContextless[k].pat.PatIdent? && m.fnArgsContextlessAsIdent[k] == m.fnArgsContextless[k].pat.ident)
    && m.contextIdent == ExtractContextIdent(inputs)
  }

  lemma ParseWellParsed(input: ItemFn, foreign: Foreign)
    requires Parse(input, foreign).Ok?
    ensures WellParsed(input.sig.inputs, Parse(input, foreign).value)
  {
    ParseArgs(input, foreign);
    ParseContextless(input, foreign);
    ParseContext(input, foreign);
  }
}
