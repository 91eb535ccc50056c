/** What the `#[rpc]` generators emit, kept as small expression trees instead of
    token streams, and what that emitted code does once compiled and run. */
module Codegen {
  import opened Wrappers
  import opened RustSyntax
  import OpenRpc

  /** How an expansion can go wrong: the macro itself panics while expanding,
      the code it emits is rejected by the compiler, or that code panics when called. */
  datatype Failure =
    | MacroPanic(message: string)
    | DoesNotCompile(reason: string)
    | PanicsWhenRun(message: string)

  /** The `Params` accessor a generated handler calls: `one()` for a single
      positional value, `parse()` for the whole positional array as a tuple. */
  datatype ParseMethod = ParamsOne | ParamsParse

  /** The arity rule shared by every handler generator: exactly one argument
      is read with `one()`, none or several with `parse()`. */
  function ParseMethodFor(arity: nat): (m: ParseMethod)
    ensures m == ParamsOne <==> arity == 1
    ensures m == ParamsParse <==> arity == 0 || arity >= 2
  {
    if arity == 1 then ParamsOne else ParamsParse
  }

  /** The `name:` expression of a generated content descriptor:
      `stringify!(x).into()` / `"self".into()`, or a bare `None`. */
  datatype NameExpr = NameInto(value: string) | NoneName

  /** The `schema:` expression: `schemars::schema_for!(T)`, a `panic!(..)`
      call, or the stray `<panic>` tokens of the older generator. */
  datatype SchemaExpr = SchemaFor(ty: Ty) | PanicCall(message: string) | Placeholder

  datatype DescriptorExpr = DescriptorExpr(
    name: NameExpr,
    summary: Option<string>,
    description: Option<string>,
    required: Option<bool>,
    schema: SchemaExpr,
    deprecated: Option<bool>)

  /** The `description:` expression: `None`, a bare string literal in
      `Some("..")` (an `Option<&str>`), or `Some(String::from(".."))`. */
  datatype DescriptionExpr = NoDescription | StrLiteral(text: string) | StringFrom(text: string)

  /** The struct literal a generated `fn spec(&self)` returns. Both generators
      write `None` for tags, summary, external docs, servers, errors, links,
      param structure and examples, so only the other fields vary. */
  datatype MethodExpr = MethodExpr(
    name: string,
    description: DescriptionExpr,
    params: seq<DescriptorExpr>,
    result: Option<DescriptorExpr>,
    deprecated: Option<bool>)

  /** `<panic>` where an expression belongs is a syntax error. */
  predicate HasPlaceholder(ds: seq<DescriptorExpr>)
  {
    exists i :: 0 <= i < |ds| && ds[i].schema.Placeholder?
  }

  /** `name: None` where a `String` belongs is a type error. */
  predicate HasNoneName(ds: seq<DescriptorExpr>)
  {
    exists i :: 0 <= i < |ds| && ds[i].name.NoneName?
  }

  function AllDescriptors(e: MethodExpr): seq<DescriptorExpr>
  {
    e.params + (if e.result.Some? then [e.result.value] else [])
  }

  /** The field `description` is an `Option<String>`, so a bare string
      literal in it is a type error too. */
  predicate Compiles(e: MethodExpr)
  {
    !HasPlaceholder(AllDescriptors(e)) && !HasNoneName(AllDescriptors(e)) && !e.description.StrLiteral?
  }

  predicate PanicFree(ds: seq<DescriptorExpr>)
  {
    forall i :: 0 <= i < |ds| ==> !ds[i].schema.PanicCall?
  }

  const SyntaxErrorReason: string := "expected expression, found `<`"
  const TypeErrorReason: string := "mismatched types: expected `String`, found `Option<_>`"
  const DescriptionTypeErrorReason: string := "mismatched types: expected `Option<String>`, found `Option<&str>`"

  /** The value of one descriptor literal on its own: a compile error for
      `<panic>` or `name: None`, a panic for `panic!(..)`, else the descriptor. */
  function EvalDescriptor(d: DescriptorExpr): (r: Result<OpenRpc.ContentDescriptor, Failure>)
    ensures r.Ok? <==> d.name.NameInto? && d.schema.SchemaFor?
    ensures d.schema.PanicCall? && d.name.NameInto? ==> r == Err(PanicsWhenRun(d.schema.message))
    ensures r.Ok? ==> r.value == OpenRpc.ContentDescriptor(d.name.value, d.summary, d.description,
                                                           d.required, OpenRpc.SchemaOf(d.schema.ty), d.deprecated)
  {
    if d.schema.Placeholder? then Err(DoesNotCompile(SyntaxErrorReason))
    else if d.name.NoneName? then Err(DoesNotCompile(TypeErrorReason))
    else if d.schema.PanicCall? then Err(PanicsWhenRun(d.schema.message))
    else Ok(OpenRpc.ContentDescriptor(d.name.value, d.summary, d.description, d.required, OpenRpc.SchemaOf(d.schema.ty), d.deprecated))
  }

  /** `vec![d0, d1, ..]`: evaluated left to right, so the first panicking
      element decides: no element before it panics. */
  function EvalDescriptors(ds: seq<DescriptorExpr>): (r: Result<seq<OpenRpc.ContentDescriptor>, Failure>)
    requires !HasPlaceholder(ds) && !HasNoneName(ds)
    ensures r.Ok? <==> PanicFree(ds)
    ensures r.Ok? ==> |r.value| == |ds| && forall i :: 0 <= i < |ds| ==> Ok(r.value[i]) == EvalDescriptor(ds[i])
    ensures r.Err? ==> exists i :: 0 <= i < |ds| && ds[i].schema.PanicCall? && r.error == PanicsWhenRun(ds[i].schema.message)
                                    && PanicFree(ds[..i])
  {
    if |ds| == 0 then Ok([])
    else
      assert !HasPlaceholder(ds[1..]) && !HasNoneName(ds[1..]) by {
        forall i | 0 <= i < |ds[1..]| ensures !ds[1..][i].schema.Placeholder? && !ds[1..][i].name.NoneName? {
          assert ds[1..][i] == ds[i + 1];
        }
      }
      match EvalDescriptor(ds[0])
      case Err(f) =>
        assert PanicFree(ds[..0]);
        Err(f)
      case Ok(d) =>
        var rest := EvalDescriptors(ds[1..]);
        assert PanicFree(ds) <==> PanicFree(ds[1..]) by {
          if PanicFree(ds[1..]) {
            forall i | 0 <= i < |ds| ensures !ds[i].schema.PanicCall? {
              if i > 0 { assert ds[i] == ds[1..][i - 1]; }
            }
          }
        }
        if rest.Err? then
          assert exists i :: 0 <= i < |ds| && ds[i].schema.PanicCall? && rest.error == PanicsWhenRun(ds[i].schema.message)
                             && PanicFree(ds[..i]) by {
            var j :| 0 <= j < |ds[1..]| && ds[1..][j].schema.PanicCall? && rest.error == PanicsWhenRun(ds[1..][j].schema.message)
                     && PanicFree(ds[1..][..j]);
            assert ds[j + 1] == ds[1..][j];
            var pre, tail := ds[..j + 1], ds[1..][..j];
            forall t | 0 <= t < |pre| ensures !pre[t].schema.PanicCall? {
              if t > 0 { assert pre[t] == tail[t - 1]; }
            }
          }
          Err(rest.error)
        else
          Ok([d] + rest.value)
  }

  /** What calling the generated `spec()` does: a compile error (syntax first,
      then types), a runtime panic from the first panicking parameter schema,
      or the OpenRPC Method Object the literal spells. */
  function EvaluateMethod(e: MethodExpr): (r: Result<OpenRpc.Method, Failure>)
    ensures r.Err? && r.error.DoesNotCompile? <==> !Compiles(e)
    ensures r.Err? && r.error.DoesNotCompile? ==>
      r.error.reason == (if HasPlaceholder(AllDescriptors(e)) then SyntaxErrorReason
                         else if HasNoneName(AllDescriptors(e)) then TypeErrorReason
                         else DescriptionTypeErrorReason)
    ensures r.Ok? <==> Compiles(e) && PanicFree(AllDescriptors(e))
    ensures r.Err? && !r.error.DoesNotCompile? ==>
      exists i :: 0 <= i < |AllDescriptors(e)| && AllDescriptors(e)[i].schema.PanicCall?
                  && r.error == PanicsWhenRun(AllDescriptors(e)[i].schema.message)
                  && PanicFree(AllDescriptors(e)[..i])
    ensures r.Ok? ==>
      && r.value.name == e.name
      && r.value.description == (if e.description.StringFrom? then Some(e.description.text) else None)
      && r.value.deprecated == e.deprecated
      && r.value.tags.None? && r.value.summary.None? && r.value.externalDocs.None?
      && r.value.servers.None? && r.value.errors.None? && r.value.links.None?
      && r.value.paramStructure.None? && r.value.examples.None?
      && |r.value.params| == |e.params|
      && (forall i :: 0 <= i < |e.params| ==> EvalDescriptor(e.params[i]) == Ok(r.value.params[i]))
      && (r.value.result.Some? <==> e.result.Some?)
      && (e.result.Some? ==> EvalDescriptor(e.result.value) == Ok(r.value.result.value))
  {
    var all := AllDescriptors(e);
    if HasPlaceholder(all) then Err(DoesNotCompile(SyntaxErrorReason))
    else if HasNoneName(all) then Err(DoesNotCompile(TypeErrorReason))
    else if e.description.StrLiteral? then Err(DoesNotCompile(DescriptionTypeErrorReason))
    else
      assert !HasPlaceholder(e.params) && !HasNoneName(e.params) by {
        forall i | 0 <= i < |e.params| ensures !e.params[i].schema.Placeholder? && !e.params[i].name.NoneName? {
          assert all[i] == e.params[i];
        }
      }
      assert e.result.Some? ==> all[|e.params|] == e.result.value;
      match EvalDescriptors(e.params)
      case Err(f) =>
        var i :| 0 <= i < |e.params| && e.params[i].schema.PanicCall? && f == PanicsWhenRun(e.params[i].schema.message)
                 && PanicFree(e.params[..i]);
        assert all[i] == e.params[i] && all[..i] == e.params[..i];
        Err(f)
      case Ok(params) =>
        var result := if e.result.Some? then Some(EvalDescriptor(e.result.value)) else None;
        if result.Some? && result.value.Err? then
          assert all[|e.params|] == e.result.value && all[..|e.params|] == e.params;
          Err(result.value.error)
        else
          assert PanicFree(all) by {
            forall i | 0 <= i < |all| ensures !all[i].schema.PanicCall? {
              if i < |e.params| { assert all[i] == e.params[i]; }
            }
          }
          Ok(OpenRpc.Method(
            e.name, None, None, if e.description.StringFrom? then Some(e.description.text) else None, None, params,
            if result.Some? then Some(result.value.value) else None,
            e.deprecated, None, None, None, None, None))
  }

  /** `jsonrpsee::core::ClientError`, kept abstract. */
  datatype ClientError = ClientError(message: string)

  /** What a generated client function does with the outcome of `request`:
      hand it back as it is, or `expect` success with the given message. */
  datatype ReturnPolicy = PassThrough | ExpectOk(message: string)

  /** How a call of a generated client function ends. */
  datatype CallEnd<R> =
    | ReturnedResult(outcome: Result<R, ClientError>)
    | ReturnedValue(value: R)
    | Aborted(message: string)

  /** Finishing a client call under a return policy. */
  function Complete<R>(policy: ReturnPolicy, outcome: Result<R, ClientError>): (e: CallEnd<R>)
    ensures policy.PassThrough? ==> e == ReturnedResult(outcome)
    ensures policy.ExpectOk? ==> (e.Aborted? <==> outcome.Err?)
    ensures policy.ExpectOk? && outcome.Ok? ==> e == ReturnedValue(outcome.value)
    ensures e.Aborted? ==> policy.ExpectOk? && e.message == policy.message
  {
    match policy
    case PassThrough => ReturnedResult(outcome)
    case ExpectOk(message) =>
      if outcome.Ok? then ReturnedValue(outcome.value) else Aborted(message)
  }
}
