/** The `fn spec(&self)` of the older `easy-rpc-macros` generator
    (`rpc_method/spec.rs`): one parameter per input argument, `#[context]`
    ones and receivers included, no result descriptor, and a description
    read only from doc attributes of the list form `#[doc("...")]`. */
module LegacySpecGen {
  import opened Wrappers
  import opened Seqs
  import opened Text
  import opened RustSyntax
  import opened Codegen
  import SpecGen

  /** `gen_deprecated` */
  function GenDeprecated(input: ItemFn): (r: Option<bool>)
    ensures r.Some? && (r.value <==> HasAttr(input.attrs, "deprecated"))
    ensures r == SpecGen.ExtractDeprecated(input)
  {
    Some(HasAttr(input.attrs, "deprecated"))
  }

  /** `attr.parse_args::<LitStr>()` on a `doc` attribute: succeeds only for the
      list form whose arguments are a single string literal. */
  function DocArg(a: Attribute): (r: Option<string>)
    ensures r.Some? <==> (IsIdent(a, "doc") && a.meta.MetaList? && |a.meta.args| == 1
                          && a.meta.args[0].ExprLit? && a.meta.args[0].lit.LitStr?)
    ensures r.Some? ==> r.value == a.meta.args[0].lit.value
  {
    if IsIdent(a, "doc") && a.meta.MetaList? && |a.meta.args| == 1 && a.meta.args[0].ExprLit? && a.meta.args[0].lit.LitStr? then
      Some(a.meta.args[0].lit.value)
    else None
  }

  function DocArgs(attrs: seq<Attribute>): (r: seq<string>)
    ensures |r| <= |attrs|
    ensures (forall k :: 0 <= k < |attrs| ==> DocArg(attrs[k]).None?) ==> r == []
  {
    if |attrs| == 0 then []
    else
      var d := DocArg(attrs[0]);
      (if d.Some? then [d.value] else []) + DocArgs(attrs[1..])
  }

  /** Collecting keeps order and multiplicity: the strings of `a + b` are
      those of `a` followed by those of `b`. */
  lemma {:induction false} DocArgsAppend(a: seq<Attribute>, b: seq<Attribute>)
    ensures DocArgs(a + b) == DocArgs(a) + DocArgs(b)
  {
    if |a| == 0 {
      assert a + b == b;
    } else {
      var d := DocArg(a[0]);
      var head := if d.Some? then [d.value] else [];
      assert (a + b)[1..] == a[1..] + b;
      assert DocArgs(a + b) == head + DocArgs(a[1..] + b);
      DocArgsAppend(a[1..], b);
    }
  }

  /** `gen_description`: `None` exactly when no doc attribute parses; otherwise
      the strings, untrimmed, joined with a newline, as a bare string literal
      in `Some(..)`. */
  function GenDescription(input: ItemFn): (r: DescriptionExpr)
    ensures !r.StringFrom?
    ensures r.NoDescription? <==> DocArgs(input.attrs) == []
    ensures r.StrLiteral? ==> r.text == Join(DocArgs(input.attrs), SpecGen.NewLine)
  {
    var lines := DocArgs(input.attrs);
    if lines == [] then NoDescription else StrLiteral(Join(lines, SpecGen.NewLine))
  }

  /** The descriptor literal for one input argument. */
  function LegacyDescriptor(a: FnArg): (d: DescriptorExpr)
    ensures d.required == Some(true) && d.summary.None? && d.description.None?
    ensures a.Receiver? ==> d == DescriptorExpr(NameInto("self"), None, None, Some(true), Placeholder, None)
    ensures a.Typed? ==> d.schema == SchemaFor(a.arg.ty) && d.deprecated == Some(HasAttr(a.arg.attrs, "deprecated"))
    ensures a.Typed? ==> (if a.arg.pat.PatIdent? then d.name == NameInto(a.arg.pat.ident) else d.name == NoneName)
  {
    match a
    case Receiver(_, _, _) => DescriptorExpr(NameInto("self"), None, None, Some(true), Placeholder, None)
    case Typed(p) =>
      var name := if p.pat.PatIdent? then NameInto(p.pat.ident) else NoneName;
      DescriptorExpr(name, None, None, Some(true), SchemaFor(p.ty), Some(HasAttr(p.attrs, "deprecated")))
  }

  /** The parameters `gen_params` produces: one descriptor per input, in order. */
  function LegacyParams(inputs: seq<FnArg>): (r: seq<DescriptorExpr>)
    ensures |r| == |inputs|
    ensures forall k :: 0 <= k < |inputs| ==> r[k] == LegacyDescriptor(inputs[k])
  {
    Map(LegacyDescriptor, inputs)
  }

  /** `gen_params`: a loop pushing one descriptor per input argument. */
  method GenParams(input: ItemFn) returns (params: seq<DescriptorExpr>)
    ensures params == LegacyParams(input.sig.inputs)
  {
    params := [];
    for i := 0 to |input.sig.inputs|
      invariant params == LegacyParams(input.sig.inputs[..i])
    {
      var param := input.sig.inputs[i];
      var name: NameExpr;
      var schema: SchemaExpr;
      var deprecated: Option<bool>;
      match param {
        case Typed(p) =>
          name := if p.pat.PatIdent? then NameInto(p.pat.ident) else NoneName;
          schema := SchemaFor(p.ty);
          deprecated := Some(HasAttr(p.attrs, "deprecated"));
        case Receiver(_, _, _) =>
          name := NameInto("self");
          schema := Placeholder;
          deprecated := None;
      }
      params := params + [DescriptorExpr(name, None, None, Some(true), schema, deprecated)];
      assert input.sig.inputs[..i + 1] == input.sig.inputs[..i] + [param];
    }
    assert input.sig.inputs[..|input.sig.inputs|] == input.sig.inputs;
  }

  /** `generate`: the literal the older `fn spec` returns. */
  function Generate(input: ItemFn): (e: MethodExpr)
    ensures e.name == input.sig.ident && e.result.None?
    ensures e.description == GenDescription(input) && e.deprecated == GenDeprecated(input)
    ensures e.params == LegacyParams(input.sig.inputs)
  {
    MethodExpr(input.sig.ident, GenDescription(input), LegacyParams(input.sig.inputs), None, GenDeprecated(input))
  }

  function MethodSpec(input: ItemFn): Result<OpenRpc.Method, Failure>
  {
    EvaluateMethod(Generate(input))
  }

  /** For a function with named typed arguments only and no `#[doc("...")]`
      attribute, the older `spec()` returns one required parameter per
      argument, `#[context]` ones included, no description and no result. */
  lemma LegacySpecOfPlainFunction(input: ItemFn)
    requires forall i :: 0 <= i < |input.sig.inputs| ==> input.sig.inputs[i].Typed? && input.sig.inputs[i].arg.pat.PatIdent?
    requires DocArgs(input.attrs) == []
    ensures var r := MethodSpec(input);
      && r.Ok? && r.value.name == input.sig.ident && r.value.result.None?
      && r.value.description.None? && r.value.deprecated == Some(HasAttr(input.attrs, "deprecated"))
      && |r.value.params| == |input.sig.inputs|
      && forall k :: 0 <= k < |input.sig.inputs| ==>
           r.value.params[k] == OpenRpc.ContentDescriptor(
             input.sig.inputs[k].arg.pat.ident, None, None, Some(true),
             OpenRpc.SchemaOf(input.sig.inputs[k].arg.ty), Some(HasAttr(input.sig.inputs[k].arg.attrs, "deprecated")))
  {
    var e := Generate(input);
    SpecGen.PlainLiteralsEvaluate(e);
    var r := EvaluateMethod(e);
    forall k | 0 <= k < |input.sig.inputs|
      ensures r.value.params[k] == OpenRpc.ContentDescriptor(
             input.sig.inputs[k].arg.pat.ident, None, None, Some(true),
             OpenRpc.SchemaOf(input.sig.inputs[k].arg.ty), Some(HasAttr(input.sig.inputs[k].arg.attrs, "deprecated")))
    {
      assert EvalDescriptor(e.params[k]) == Ok(r.value.params[k]);
    }
  }

  /** A receiver puts the stray `<panic>` tokens where the schema belongs,
      so the older expansion does not compile. */
  lemma LegacyReceiverDoesNotCompile(input: ItemFn, i: nat)
    requires i < |input.sig.inputs| && input.sig.inputs[i].Receiver?
    ensures MethodSpec(input) == Err(DoesNotCompile(SyntaxErrorReason))
  {
    var e := Generate(input);
    assert AllDescriptors(e)[i] == e.params[i];
  }

  /** A `#[doc("...")]` attribute that parses puts a bare string literal where
      the `Option<String>` description belongs, so the older expansion does
      not compile; with named typed arguments only, that is the error. */
  lemma DocAttributeDoesNotCompile(input: ItemFn, k: nat)
    requires k < |input.attrs| && DocArg(input.attrs[k]).Some?
    ensures MethodSpec(input).Err? && MethodSpec(input).error.DoesNotCompile?
    ensures (forall i :: 0 <= i < |input.sig.inputs| ==> input.sig.inputs[i].Typed? && input.sig.inputs[i].arg.pat.PatIdent?) ==>
      MethodSpec(input) == Err(DoesNotCompile(DescriptionTypeErrorReason))
  {
    var attrs := input.attrs;
    var front, back := attrs[..k], attrs[k..];
    assert attrs == front + back;
    DocArgsAppend(front, back);
    assert DocArgs(back)[0] == DocArg(attrs[k]).value;
    var e := Generate(input);
    if forall i :: 0 <= i < |input.sig.inputs| ==> input.sig.inputs[i].Typed? && input.sig.inputs[i].arg.pat.PatIdent? {
      var all := AllDescriptors(e);
      forall i | 0 <= i < |all| ensures !all[i].schema.Placeholder? && !all[i].name.NoneName? {
        assert all[i] == e.params[i];
      }
    }
  }

  /** Unlike the current generator, the older one has a parameter for each
      `#[context]` argument and no result. */
  lemma ContextBecomesParameter(input: ItemFn, i: nat)
    requires i < |input.sig.inputs| && IsContextInput(input.sig.inputs[i]) && input.sig.inputs[i].arg.pat.PatIdent?
    ensures Generate(input).params[i].name == NameInto(input.sig.inputs[i].arg.pat.ident)
    ensures Generate(input).result.None? && SpecGen.Generate(input, "").result.Some?
    ensures input.sig.inputs[i] !in SpecGen.FilteredParams(input.sig.inputs)
  {
  }

  /** A function documented only with ordinary doc comments (`///`, which
      are `#[doc = "..."]` attributes) gets no description from the older
      generator, while the current one describes it as soon as one doc line
      is not blank. */
  lemma DocCommentIgnored(input: ItemFn, k: nat)
    requires forall i :: 0 <= i < |input.attrs| ==> input.attrs[i].meta.MetaNameValue?
    requires k < |input.attrs| && SpecGen.DocString(input.attrs[k]).Some?
    requires TrimStart(SpecGen.DocString(input.attrs[k]).value) != ""
    ensures GenDescription(input).NoDescription?
    ensures SpecGen.ExtractDescription(input).Some?
  {
    NoListDocArgs(input.attrs);
    SpecGen.NonBlankLineDescribes(input, k);
  }

  /** Name-value attributes never parse as `#[doc("...")]`. */
  lemma {:induction false} NoListDocArgs(attrs: seq<Attribute>)
    requires forall i :: 0 <= i < |attrs| ==> attrs[i].meta.MetaNameValue?
    ensures DocArgs(attrs) == []
  {
    if |attrs| > 0 {
      NoListDocArgs(attrs[1..]);
    }
  }

  /** The description the older generator evidently means: the doc strings of
      both attribute forms, in order, untrimmed and joined with a newline. */
  function DocText(a: Attribute): (r: Option<string>)
    ensures DocArg(a).Some? ==> r == DocArg(a)
    ensures SpecGen.DocString(a).Some? ==> r == SpecGen.DocString(a)
    ensures r.Some? ==> DocArg(a).Some? || SpecGen.DocString(a).Some?
  {
    if DocArg(a).Some? then DocArg(a) else SpecGen.DocString(a)
  }

  function DocTexts(attrs: seq<Attribute>): (r: seq<string>)
    ensures |r| <= |attrs|
  {
    if |attrs| == 0 then []
    else
      var d := DocText(attrs[0]);
      (if d.Some? then [d.value] else []) + DocTexts(attrs[1..])
  }

  /** The corrected collection keeps order and multiplicity too. */
  lemma {:induction false} DocTextsAppend(a: seq<Attribute>, b: seq<Attribute>)
    ensures DocTexts(a + b) == DocTexts(a) + DocTexts(b)
  {
    if |a| == 0 {
      assert a + b == b;
    } else {
      var d := DocText(a[0]);
      var head := if d.Some? then [d.value] else [];
      assert (a + b)[1..] == a[1..] + b;
      assert DocTexts(a + b) == head + DocTexts(a[1..] + b);
      DocTextsAppend(a[1..], b);
    }
  }

  /** The corrected `gen_description`: the text written as
      `Some(String::from(..))`, as the current generator does. */
  function GenDescriptionFixed(input: ItemFn): (r: DescriptionExpr)
    ensures !r.StrLiteral?
    ensures r.NoDescription? <==> DocTexts(input.attrs) == []
    ensures r.StringFrom? ==> r.text == Join(DocTexts(input.attrs), SpecGen.NewLine)
  {
    var lines := DocTexts(input.attrs);
    if lines == [] then NoDescription else StringFrom(Join(lines, SpecGen.NewLine))
  }

  /** The older literal with the corrected description. */
  function GenerateFixed(input: ItemFn): (e: MethodExpr)
    ensures e.description == GenDescriptionFixed(input)
    ensures e.name == input.sig.ident && e.result.None? && e.deprecated == GenDeprecated(input)
    ensures e.params == LegacyParams(input.sig.inputs)
  {
    Generate(input).(description := GenDescriptionFixed(input))
  }

  /** With the correction, a function with named typed arguments only gets a
      `spec()` that evaluates, described by its doc strings of either form,
      joined with newlines; for `///` comments alone these are the
      `#[doc = ..]` strings the current generator reads. */
  lemma FixedSpecOfPlainFunction(input: ItemFn)
    requires forall i :: 0 <= i < |input.sig.inputs| ==> input.sig.inputs[i].Typed? && input.sig.inputs[i].arg.pat.PatIdent?
    ensures var r := EvaluateMethod(GenerateFixed(input));
      && r.Ok? && r.value.name == input.sig.ident && r.value.result.None?
      && |r.value.params| == |input.sig.inputs|
      && r.value.description == (if DocTexts(input.attrs) == [] then None else Some(Join(DocTexts(input.attrs), SpecGen.NewLine)))
    ensures (forall k :: 0 <= k < |input.attrs| ==> input.attrs[k].meta.MetaNameValue?) ==>
      EvaluateMethod(GenerateFixed(input)).value.description ==
        (if SpecGen.DocStrings(input.attrs) == [] then None else Some(Join(SpecGen.DocStrings(input.attrs), SpecGen.NewLine)))
  {
    SpecGen.PlainLiteralsEvaluate(GenerateFixed(input));
    if forall k :: 0 <= k < |input.attrs| ==> input.attrs[k].meta.MetaNameValue? {
      NameValueDocTexts(input.attrs);
    }
  }

  /** With the correction, ordinary doc comments give the description: for a
      function documented with `///` lines only, it is their text joined with
      newlines, and it is absent exactly when there are no doc lines. */
  lemma {:induction false} DocCommentsDescribe(input: ItemFn)
    requires forall k :: 0 <= k < |input.attrs| ==> input.attrs[k].meta.MetaNameValue?
    ensures GenDescriptionFixed(input).NoDescription? <==> SpecGen.DocStrings(input.attrs) == []
    ensures GenDescriptionFixed(input).StringFrom? ==> GenDescriptionFixed(input).text == Join(SpecGen.DocStrings(input.attrs), SpecGen.NewLine)
  {
    NameValueDocTexts(input.attrs);
  }

  lemma {:induction false} NameValueDocTexts(attrs: seq<Attribute>)
    requires forall k :: 0 <= k < |attrs| ==> attrs[k].meta.MetaNameValue?
    ensures DocTexts(attrs) == SpecGen.DocStrings(attrs)
  {
    if |attrs| > 0 {
      NameValueDocTexts(attrs[1..]);
    }
  }
}
