/** The function item the current `#[rpc]` macro re-emits
    (`rpc_method/sanitize_input.rs`): the input with every `#[context]`
    attribute removed from its typed arguments, which the compiler would
    otherwise reject as an unknown attribute. */
module SanitizeInput {
  import opened Seqs
  import opened RustSyntax
  import opened MacroModel

  /** One argument with its `#[context]` attributes dropped; receivers as they are. */
  function DropContext(a: FnArg): (r: FnArg)
    ensures r.Receiver? <==> a.Receiver?
    ensures a.Receiver? ==> r == a
    ensures a.Typed? ==> r.arg.pat == a.arg.pat && r.arg.ty == a.arg.ty
    ensures a.Typed? ==> r.arg.attrs == Filter(NotContextAttr, a.arg.attrs)
  {
    match a
    case Receiver(_, _, _) => a
    case Typed(p) => Typed(PatType(Filter(NotContextAttr, p.attrs), p.pat, p.ty))
  }

  /** The input with `DropContext` applied to each argument and nothing else changed. */
  function Sanitized(input: ItemFn): ItemFn
  {
    input.(sig := input.sig.(inputs := Map(DropContext, input.sig.inputs)))
  }

  /** `fn_arg_drop_attr_context`: builds the new argument list one argument
      at a time, then replaces the signature's inputs with it. */
  method FnArgDropAttrContext(input: ItemFn) returns (out: ItemFn)
    ensures out == Sanitized(input)
  {
    var newInputs: seq<FnArg> := [];
    var i := 0;
    while i < |input.sig.inputs|
      invariant 0 <= i <= |input.sig.inputs|
      invariant |newInputs| == i
      invariant forall k :: 0 <= k < i ==> newInputs[k] == DropContext(input.sig.inputs[k])
    {
      var arg := input.sig.inputs[i];
      var kept: FnArg;
      match arg {
        case Typed(p) =>
          var attrs := Filter(NotContextAttr, p.attrs);
          kept := Typed(PatType(attrs, p.pat, p.ty));
        case Receiver(_, _, _) =>
          kept := arg;
      }
      newInputs := newInputs + [kept];
      i := i + 1;
    }
    out := input.(sig := input.sig.(inputs := newInputs));
  }

  /** `sanitize_input::generate`: the same on a copy, so the caller's item is not touched. */
  method Generate(input: ItemFn) returns (out: ItemFn)
    ensures out == Sanitized(input)
  {
    var copy := input;
    out := FnArgDropAttrContext(copy);
  }

  /** Sanitising keeps the number and order of arguments, copies receivers,
      keeps patterns and types, keeps the other attributes in order and
      leaves no `#[context]` behind; the name, attributes, visibility, the
      rest of the signature and the body are untouched. */
  lemma SanitizedShape(input: ItemFn)
    ensures var out := Sanitized(input); var ins := input.sig.inputs; var outs := out.sig.inputs;
      && out.attrs == input.attrs && out.vis == input.vis && out.block == input.block
      && out.sig.isAsync == input.sig.isAsync && out.sig.ident == input.sig.ident && out.sig.output == input.sig.output
      && |outs| == |ins|
      && (forall i :: 0 <= i < |ins| ==> (outs[i].Receiver? <==> ins[i].Receiver?))
      && (forall i :: 0 <= i < |ins| && ins[i].Receiver? ==> outs[i] == ins[i])
      && (forall i :: 0 <= i < |ins| && ins[i].Typed? ==>
            outs[i].arg.pat == ins[i].arg.pat && outs[i].arg.ty == ins[i].arg.ty
            && forall a :: a in outs[i].arg.attrs <==> a in ins[i].arg.attrs && !IsIdent(a, "context"))
      && (forall i :: 0 <= i < |outs| ==> !IsContextInput(outs[i]))
  {
    var ins := input.sig.inputs;
    var outs := Sanitized(input).sig.inputs;
    forall i, a | 0 <= i < |ins| && ins[i].Typed?
      ensures a in outs[i].arg.attrs <==> a in ins[i].arg.attrs && !IsIdent(a, "context")
    {
      FilterMembership(NotContextAttr, ins[i].arg.attrs, a);
    }
    forall i | 0 <= i < |outs| ensures !IsContextInput(outs[i]) {
      if outs[i].Typed? {
        forall k | 0 <= k < |outs[i].arg.attrs| ensures !IsIdent(outs[i].arg.attrs[k], "context") {
          FilterMembership(NotContextAttr, ins[i].arg.attrs, outs[i].arg.attrs[k]);
        }
      }
    }
  }

  /** Sanitising twice is sanitising once. */
  lemma SanitizeIdempotent(input: ItemFn)
    ensures Sanitized(Sanitized(input)) == Sanitized(input)
  {
    var once := Sanitized(input).sig.inputs;
    var twice := Sanitized(Sanitized(input)).sig.inputs;
    forall i | 0 <= i < |once| ensures twice[i] == once[i] {
      if once[i].Typed? {
        FilterIdempotent(NotContextAttr, input.sig.inputs[i].arg.attrs);
      }
    }
  }

  /** The emitted arguments carry exactly the attributes of the parsed
      model's `fn_args`, so the function the user sees and the one the
      generators describe agree. */
  lemma SanitizedMatchesModel(input: ItemFn, foreign: Foreign)
    requires Parse(input, foreign).Ok?
    ensures var outs := Sanitized(input).sig.inputs; var m := Parse(input, foreign).value;
      forall i :: 0 <= i < |outs| ==>
        outs[i].Typed? && outs[i].arg.attrs == m.fnArgs[i].attrs && outs[i].arg.ty == m.fnArgs[i].ty
        && outs[i].arg.pat.ident == m.fnArgsAsIdent[i]
  {
    ParseArgs(input, foreign);
  }
}
