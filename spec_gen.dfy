/** The `fn spec(&self)` the current `#[rpc]` macro generates
    (`rpc_method/spec.rs`): an OpenRPC Method Object literal built from the
    function's attributes, its arguments without `#[context]` and its return type. */
module SpecGen {
  import opened Wrappers
  import opened Seqs
  import opened Text
  import opened RustSyntax
  import opened Codegen
  import opened MacroModel
  import OpenRpc

  const ReceiverSchemaPanic: string := "Receiver type not supported for schema"
  const ResultSuffix: string := "Response"
  const NewLine: string := "\n"

  /** `extract_deprecated`: always `Some`, `true` exactly for `#[deprecated]`. */
  function ExtractDeprecated(input: ItemFn): (r: Option<bool>)
    ensures r.Some? && (r.value <==> HasAttr(input.attrs, "deprecated"))
  {
    Some(HasAttr(input.attrs, "deprecated"))
  }

  /** The string of a `#[doc = "..."]` attribute; `None` for any other attribute,
      any other form of `doc`, or a literal that is not a string. */
  function DocString(a: Attribute): (r: Option<string>)
    ensures r.Some? <==> IsIdent(a, "doc") && a.meta.MetaNameValue? && a.meta.value.ExprLit? && a.meta.value.lit.LitStr?
    ensures r.Some? ==> r.value == a.meta.value.lit.value
  {
    if IsIdent(a, "doc") && a.meta.MetaNameValue? && a.meta.value.ExprLit? && a.meta.value.lit.LitStr? then
      Some(a.meta.value.lit.value)
    else None
  }

  /** `s` is the doc string of one of the attributes. */
  predicate IsDocStringOf(attrs: seq<Attribute>, s: string)
  {
    exists k :: 0 <= k < |attrs| && DocString(attrs[k]) == Some(s)
  }

  /** The doc strings of the attributes, in order. */
  function DocStrings(attrs: seq<Attribute>): (r: seq<string>)
    ensures |r| <= |attrs|
    ensures forall j :: 0 <= j < |r| ==> IsDocStringOf(attrs, r[j])
    ensures (forall k :: 0 <= k < |attrs| ==> DocString(attrs[k]).None?) ==> r == []
  {
    if |attrs| == 0 then []
    else
      var d := DocString(attrs[0]);
      var rest := DocStrings(attrs[1..]);
      assert forall j :: 0 <= j < |rest| ==> IsDocStringOf(attrs, rest[j]) by {
        forall j | 0 <= j < |rest| ensures IsDocStringOf(attrs, rest[j]) {
          var k :| 0 <= k < |attrs[1..]| && DocString(attrs[1..][k]) == Some(rest[j]);
          assert attrs[k + 1] == attrs[1..][k];
        }
      }
      (if d.Some? then [d.value] else []) + rest
  }

  /** Collecting keeps order and multiplicity: the doc strings of `a + b` are
      those of `a` followed by those of `b`. */
  lemma {:induction false} DocStringsAppend(a: seq<Attribute>, b: seq<Attribute>)
    ensures DocStrings(a + b) == DocStrings(a) + DocStrings(b)
  {
    if |a| == 0 {
      assert a + b == b;
    } else {
      var d := DocString(a[0]);
      var head := if d.Some? then [d.value] else [];
      assert (a + b)[1..] == a[1..] + b;
      assert DocStrings(a + b) == head + DocStrings(a[1..] + b);
      DocStringsAppend(a[1..], b);
    }
  }

  /** Each doc string contributes one line, its leading whitespace trimmed. */
  function DocLines(input: ItemFn): (r: seq<string>)
    ensures |r| == |DocStrings(input.attrs)|
    ensures forall k :: 0 <= k < |r| ==> r[k] == TrimStart(DocStrings(input.attrs)[k])
  {
    Map(TrimStart, DocStrings(input.attrs))
  }

  /** `extract_description`: the trimmed lines joined with a newline, `None`
      when that text is empty. */
  function ExtractDescription(input: ItemFn): (r: Option<string>)
    ensures r.None? <==> Join(DocLines(input), NewLine) == ""
    ensures r.Some? ==> r.value == Join(DocLines(input), NewLine)
  {
    var text := Join(DocLines(input), NewLine);
    if text == "" then None else Some(text)
  }

  /** No doc comment, or a single blank one, is the only way to get no description. */
  lemma DescriptionAbsentIff(input: ItemFn)
    ensures ExtractDescription(input).None? <==> DocLines(input) == [] || DocLines(input) == [""]
  {
    JoinEmptyIff(DocLines(input), NewLine);
  }

  /** Splitting the description at newlines gives back the trimmed doc lines,
      when no doc string spans several lines; no line starts with whitespace. */
  lemma DescriptionLines(input: ItemFn)
    requires ExtractDescription(input).Some?
    requires forall k :: 0 <= k < |DocLines(input)| ==> '\n' !in DocLines(input)[k]
    ensures Split(ExtractDescription(input).value, '\n') == DocLines(input)
    ensures forall k :: 0 <= k < |DocLines(input)| ==> DocLines(input)[k] == "" || !IsWhitespace(DocLines(input)[k][0])
  {
    SplitJoin(DocLines(input), '\n');
  }

  /** Position `k` of the attributes, when it is a doc string, is some
      position `j` of the collected doc strings. */
  lemma {:induction false} DocStringIndex(attrs: seq<Attribute>, k: nat) returns (j: nat)
    requires k < |attrs| && DocString(attrs[k]).Some?
    ensures j < |DocStrings(attrs)| && DocStrings(attrs)[j] == DocString(attrs[k]).value
  {
    var d := DocString(attrs[0]);
    var head := if d.Some? then [d.value] else [];
    assert DocStrings(attrs) == head + DocStrings(attrs[1..]);
    if k == 0 {
      j := 0;
    } else {
      var j' := DocStringIndex(attrs[1..], k - 1);
      j := |head| + j';
    }
  }

  /** One doc line that is not blank after trimming is enough for a description. */
  lemma NonBlankLineDescribes(input: ItemFn, k: nat)
    requires k < |input.attrs| && DocString(input.attrs[k]).Some?
    requires TrimStart(DocString(input.attrs[k]).value) != ""
    ensures ExtractDescription(input).Some?
  {
    var j := DocStringIndex(input.attrs, k);
    var lines := DocLines(input);
    assert lines[j] != "";
    DescriptionAbsentIff(input);
  }

  predicate KeptAsParam(a: FnArg)
  {
    !IsContextInput(a)
  }

  /** `filtered_params`: receivers and typed arguments without `#[context]`, in order. */
  function FilteredParams(inputs: seq<FnArg>): (r: seq<FnArg>)
    ensures |r| <= |inputs|
    ensures forall a :: a in r <==> a in inputs && !IsContextInput(a)
    ensures (forall i :: 0 <= i < |inputs| ==> !IsContextInput(inputs[i])) ==> r == inputs
  {
    forall a ensures a in Filter(KeptAsParam, inputs) <==> a in inputs && !IsContextInput(a) {
      FilterMembership(KeptAsParam, inputs, a);
    }
    Filter(KeptAsParam, inputs)
  }

  /** The content descriptor literal for one kept argument. */
  function ParamDescriptor(a: FnArg): (d: DescriptorExpr)
    ensures d.required == Some(true) && d.summary.None? && d.description.None?
    ensures a.Receiver? ==> d == DescriptorExpr(NameInto("self"), None, None, Some(true), PanicCall(ReceiverSchemaPanic), None)
    ensures a.Typed? ==> d.schema == SchemaFor(a.arg.ty) && d.deprecated == Some(HasAttr(a.arg.attrs, "deprecated"))
    ensures a.Typed? ==> (d.name.NameInto? <==> a.arg.pat.PatIdent?)
    ensures a.Typed? && a.arg.pat.PatIdent? ==> d.name == NameInto(a.arg.pat.ident)
  {
    match a
    case Receiver(_, _, _) =>
      DescriptorExpr(NameInto("self"), None, None, Some(true), PanicCall(ReceiverSchemaPanic), None)
    case Typed(p) =>
      var name := if p.pat.PatIdent? then NameInto(p.pat.ident) else NoneName;
      DescriptorExpr(name, None, None, Some(true), SchemaFor(p.ty), Some(HasAttr(p.attrs, "deprecated")))
  }

  /** `extract_params` */
  function ExtractParams(input: ItemFn): (r: seq<DescriptorExpr>)
    ensures |r| == |FilteredParams(input.sig.inputs)|
    ensures forall k :: 0 <= k < |r| ==> r[k] == ParamDescriptor(FilteredParams(input.sig.inputs)[k])
  {
    Map(ParamDescriptor, FilteredParams(input.sig.inputs))
  }

  /** The declared return type, `()` when there is none. */
  function ReturnTy(output: ReturnType): (t: Ty)
    ensures output.Default? ==> t == UnitTy
    ensures output.Returns? ==> t == output.ty
  {
    match output
    case Default => UnitTy
    case Returns(ty) => ty
  }

  /** `extract_result`: always present, named `<OutputIdent>Response`, required,
      deprecated exactly when the method is. */
  function ExtractResult(input: ItemFn, outputIdent: Ident): (r: Option<DescriptorExpr>)
    ensures r.Some? && r.value.name == NameInto(outputIdent + ResultSuffix)
    ensures r.value.required == Some(true) && r.value.summary.None? && r.value.description.None?
    ensures r.value.schema == SchemaFor(ReturnTy(input.sig.output))
    ensures r.value.deprecated == ExtractDeprecated(input)
  {
    Some(DescriptorExpr(NameInto(outputIdent + ResultSuffix), None, None, Some(true),
                        SchemaFor(ReturnTy(input.sig.output)), Some(HasAttr(input.attrs, "deprecated"))))
  }

  /** `spec::generate(input, output_ident)`: the literal `fn spec` returns;
      the description, when there is one, is written `Some(String::from(..))`. */
  function Generate(input: ItemFn, outputIdent: Ident): (e: MethodExpr)
    ensures e.name == input.sig.ident
    ensures e.description.NoDescription? <==> ExtractDescription(input).None?
    ensures ExtractDescription(input).Some? ==> e.description == StringFrom(ExtractDescription(input).value)
    ensures e.deprecated == ExtractDeprecated(input)
    ensures e.params == ExtractParams(input) && e.result == ExtractResult(input, outputIdent)
  {
    var description := if ExtractDescription(input).Some? then StringFrom(ExtractDescription(input).value) else NoDescription;
    MethodExpr(input.sig.ident, description, ExtractParams(input),
               ExtractResult(input, outputIdent), ExtractDeprecated(input))
  }

  /** What the generated `spec()` returns when called. */
  function MethodSpec(input: ItemFn, outputIdent: Ident): Result<OpenRpc.Method, Failure>
  {
    EvaluateMethod(Generate(input, outputIdent))
  }

  /** Without receivers, the kept arguments are the typed arguments without `#[context]`. */
  lemma FilteredTyped(inputs: seq<FnArg>)
    requires !HasReceiver(inputs)
    ensures FilteredParams(inputs) == Map((p: PatType) => Typed(p), Filter(NotContextArg, TypedArgs(inputs)))
  {
    var typed := TypedArgs(inputs);
    var wrap := (p: PatType) => Typed(p);
    assert Map(wrap, typed) == inputs;
    FilterMapCommute(NotContextArg, KeptAsParam, wrap, typed);
  }

  /** The parameter literals of a parsed function: one per argument without
      `#[context]`, named after it, with its type's schema and its own deprecation. */
  lemma ParamsOfParsedFunction(input: ItemFn, m: RpcMethod)
    requires WellParsed(input.sig.inputs, m)
    ensures |ExtractParams(input)| == |m.fnArgsContextless|
    ensures forall k :: 0 <= k < |m.fnArgsContextless| ==>
      ExtractParams(input)[k] == DescriptorExpr(NameInto(m.fnArgsContextlessAsIdent[k]), None, None, Some(true),
                                                SchemaFor(m.fnArgsContextless[k].ty),
                                                Some(HasAttr(m.fnArgsContextless[k].attrs, "deprecated")))
  {
    var inputs := input.sig.inputs;
    FilteredTyped(inputs);
    var kept := Filter(NotContextArg, TypedArgs(inputs));
    forall k | 0 <= k < |m.fnArgsContextless|
      ensures ExtractParams(input)[k] == DescriptorExpr(NameInto(m.fnArgsContextlessAsIdent[k]), None, None, Some(true),
                                                        SchemaFor(m.fnArgsContextless[k].ty),
                                                        Some(HasAttr(m.fnArgsContextless[k].attrs, "deprecated")))
    {
      FilterMembership(NotContextArg, TypedArgs(inputs), kept[k]);
      assert FilteredParams(inputs)[k] == Typed(kept[k]);
      assert m.fnArgsContextless[k] == StripArg(kept[k]);
    }
  }

  /** Literals without a bare string description, whose names are strings and
      whose schemas are `schema_for!`, compile and evaluate without panicking. */
  lemma PlainLiteralsEvaluate(e: MethodExpr)
    requires !e.description.StrLiteral?
    requires forall k :: 0 <= k < |e.params| ==> e.params[k].name.NameInto? && e.params[k].schema.SchemaFor?
    requires e.result.Some? ==> e.result.value.name.NameInto? && e.result.value.schema.SchemaFor?
    ensures Compiles(e) && PanicFree(AllDescriptors(e))
  {
    var all := AllDescriptors(e);
    forall i | 0 <= i < |all| ensures !all[i].schema.Placeholder? && !all[i].name.NoneName? && !all[i].schema.PanicCall? {
      if i < |e.params| {
        assert all[i] == e.params[i];
      } else {
        assert all[i] == e.result.value;
      }
    }
  }

  /** For a function `RpcMethod::parse` accepts, `spec()` returns the Method
      Object: the function's name, description and deprecation, one required
      parameter per argument without `#[context]` (its name, schema and
      deprecation, in order) and the `<OutputIdent>Response` result. */
  lemma SpecOfParsedFunction(input: ItemFn, m: RpcMethod, outputIdent: Ident)
    requires WellParsed(input.sig.inputs, m)
    ensures var r := MethodSpec(input, outputIdent);
      && r.Ok?
      && r.value.name == input.sig.ident
      && r.value.description == ExtractDescription(input)
      && r.value.deprecated == Some(HasAttr(input.attrs, "deprecated"))
      && r.value.tags.None? && r.value.summary.None? && r.value.externalDocs.None? && r.value.servers.None?
      && r.value.errors.None? && r.value.links.None? && r.value.paramStructure.None? && r.value.examples.None?
      && |r.value.params| == |m.fnArgsContextless|
      && (forall k :: 0 <= k < |r.value.params| ==>
            r.value.params[k] == OpenRpc.ContentDescriptor(
              m.fnArgsContextlessAsIdent[k], None, None, Some(true),
              OpenRpc.SchemaOf(m.fnArgsContextless[k].ty),
              Some(HasAttr(m.fnArgsContextless[k].attrs, "deprecated"))))
      && r.value.result == Some(OpenRpc.ContentDescriptor(
              outputIdent + ResultSuffix, None, None, Some(true),
              OpenRpc.SchemaOf(ReturnTy(input.sig.output)), r.value.deprecated))
  {
    var e := Generate(input, outputIdent);
    ParamsOfParsedFunction(input, m);
    PlainLiteralsEvaluate(e);
    var r := EvaluateMethod(e);
    assert r.Ok?;
    forall k | 0 <= k < |r.value.params|
      ensures r.value.params[k] == OpenRpc.ContentDescriptor(
              m.fnArgsContextlessAsIdent[k], None, None, Some(true),
              OpenRpc.SchemaOf(m.fnArgsContextless[k].ty),
              Some(HasAttr(m.fnArgsContextless[k].attrs, "deprecated")))
    {
      assert EvalDescriptor(e.params[k]) == Ok(r.value.params[k]);
    }
    assert EvalDescriptor(e.result.value) == Ok(r.value.result.value);
  }

  /** Literals that all compile, of which some panic and all panic with the
      same message, evaluate to that panic. */
  lemma UniformPanic(e: MethodExpr, message: string, k: nat)
    requires !e.description.StrLiteral?
    requires forall i :: 0 <= i < |AllDescriptors(e)| ==>
      && AllDescriptors(e)[i].name.NameInto? && !AllDescriptors(e)[i].schema.Placeholder?
      && (AllDescriptors(e)[i].schema.PanicCall? ==> AllDescriptors(e)[i].schema.message == message)
    requires k < |AllDescriptors(e)| && AllDescriptors(e)[k].schema.PanicCall?
    ensures EvaluateMethod(e) == Err(PanicsWhenRun(message))
  {
    assert !PanicFree(AllDescriptors(e));
  }

  /** Every kept argument of a function without non-identifier patterns is a
      receiver or a named typed argument. */
  lemma KeptArgumentShapes(inputs: seq<FnArg>)
    requires !HasNonIdentArg(inputs)
    ensures forall k :: 0 <= k < |FilteredParams(inputs)| ==>
      FilteredParams(inputs)[k].Receiver? || FilteredParams(inputs)[k].arg.pat.PatIdent?
  {
    forall k | 0 <= k < |FilteredParams(inputs)|
      ensures FilteredParams(inputs)[k].Receiver? || FilteredParams(inputs)[k].arg.pat.PatIdent?
    {
      var a := FilteredParams(inputs)[k];
      assert a in inputs;
      var t :| 0 <= t < |inputs| && inputs[t] == a;
      assert !(inputs[t].Typed? && !IsIdentPat(inputs[t].arg));
    }
  }

  /** `spec.rs` on its own, with a receiver among the arguments: the literal
      compiles but `spec()` panics at its `panic!` schema. */
  lemma ReceiverSchemaPanics(input: ItemFn, outputIdent: Ident)
    requires HasReceiver(input.sig.inputs) && !HasNonIdentArg(input.sig.inputs)
    ensures MethodSpec(input, outputIdent) == Err(PanicsWhenRun(ReceiverSchemaPanic))
  {
    var inputs := input.sig.inputs;
    var e := Generate(input, outputIdent);
    var all := AllDescriptors(e);
    KeptArgumentShapes(inputs);
    var i :| 0 <= i < |inputs| && inputs[i].Receiver?;
    var k := FilteredIndex(inputs, i);
    assert all[k] == e.params[k];
    forall j | 0 <= j < |all|
      ensures all[j].name.NameInto? && !all[j].schema.Placeholder?
      ensures all[j].schema.PanicCall? ==> all[j].schema.message == ReceiverSchemaPanic
    {
      if j < |e.params| {
        assert all[j] == e.params[j];
      } else {
        assert all[j] == e.result.value;
      }
    }
    UniformPanic(e, ReceiverSchemaPanic, k);
  }

  /** `spec.rs` on its own, with a non-identifier pattern among the parameters:
      `name: None` is a type error and the expansion does not compile. */
  lemma NonIdentParamDoesNotCompile(input: ItemFn, outputIdent: Ident, i: nat)
    requires i < |input.sig.inputs| && input.sig.inputs[i].Typed? && !IsContextInput(input.sig.inputs[i])
    requires !input.sig.inputs[i].arg.pat.PatIdent?
    ensures MethodSpec(input, outputIdent).Err?
    ensures MethodSpec(input, outputIdent).error == DoesNotCompile(TypeErrorReason)
  {
    var e := Generate(input, outputIdent);
    var all := AllDescriptors(e);
    NoPlaceholder(input, outputIdent);
    var k := FilteredIndex(input.sig.inputs, i);
    assert all[k] == e.params[k];
    assert all[k].name.NoneName?;
  }

  /** An argument without `#[context]` keeps a position among the parameters. */
  lemma FilteredIndex(inputs: seq<FnArg>, i: nat) returns (k: nat)
    requires i < |inputs| && !IsContextInput(inputs[i])
    ensures k < |FilteredParams(inputs)| && FilteredParams(inputs)[k] == inputs[i]
  {
    assert inputs[i] in FilteredParams(inputs);
    k :| 0 <= k < |FilteredParams(inputs)| && FilteredParams(inputs)[k] == inputs[i];
  }

  /** The current generator never writes the `<panic>` placeholder. */
  lemma NoPlaceholder(input: ItemFn, outputIdent: Ident)
    ensures !HasPlaceholder(AllDescriptors(Generate(input, outputIdent)))
  {
    var e := Generate(input, outputIdent);
    var ps := FilteredParams(input.sig.inputs);
    forall j | 0 <= j < |e.params| ensures !e.params[j].schema.Placeholder? {
      assert e.params[j] == ParamDescriptor(ps[j]);
    }
    NoPlaceholderIn(e);
  }

  lemma NoPlaceholderIn(e: MethodExpr)
    requires forall j :: 0 <= j < |e.params| ==> !e.params[j].schema.Placeholder?
    requires e.result.Some? ==> !e.result.value.schema.Placeholder?
    ensures !HasPlaceholder(AllDescriptors(e))
  {
    var all := AllDescriptors(e);
    forall j | 0 <= j < |all| ensures !all[j].schema.Placeholder? {
      if j < |e.params| {
        assert all[j] == e.params[j];
      } else {
        assert all[j] == e.result.value;
      }
    }
  }

  /** The example of `tests/module-spec.rs`: `/// This is a method description`
      on a function without arguments or `#[deprecated]`. */
  lemma DocCommentExample(ident: Ident, outputIdent: Ident, body: Block)
    ensures var input := ItemFn([Attribute(["doc"], MetaNameValue(ExprLit(LitStr(" This is a method description"))))],
                                Inherited, Signature(false, ident, [], Default), body);
      && ExtractDescription(input) == Some("This is a method description")
      && MethodSpec(input, outputIdent).Ok?
      && MethodSpec(input, outputIdent).value.description == Some("This is a method description")
      && MethodSpec(input, outputIdent).value.deprecated == Some(false)
      && MethodSpec(input, outputIdent).value.params == []
  {
    var input := ItemFn([Attribute(["doc"], MetaNameValue(ExprLit(LitStr(" This is a method description"))))],
                        Inherited, Signature(false, ident, [], Default), body);
    SingleDocAttribute(input.attrs, " This is a method description");
    ExampleLineTrimmed();
    var e := Generate(input, outputIdent);
    assert e.params == [];
    PlainLiteralsEvaluate(e);
  }

  /** A single `#[doc = line]` attribute gives the one doc line `line`, trimmed. */
  lemma SingleDocAttribute(attrs: seq<Attribute>, line: string)
    requires attrs == [Attribute(["doc"], MetaNameValue(ExprLit(LitStr(line))))]
    ensures Map(TrimStart, DocStrings(attrs)) == [TrimStart(line)]
    ensures !HasAttr(attrs, "deprecated")
  {
    assert DocStrings(attrs) == [line] by {
      assert attrs[1..] == [];
    }
    assert !IsIdent(attrs[0], "deprecated") by {
      assert |attrs[0].path[0]| != |"deprecated"|;
    }
  }

  lemma ExampleLineTrimmed()
    ensures TrimStart(" This is a method description") == "This is a method description"
  {
    var line := " This is a method description";
    assert IsWhitespace(line[0]) && !IsWhitespace(line[1..][0]);
    assert line[1..] == "This is a method description";
  }
}
