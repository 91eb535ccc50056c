/** The part of a Rust function item, as the `syn` crate parses it, that the
    `#[rpc]` code generators look at. What they only copy through is kept opaque. */
module RustSyntax {
  import opened Seqs

  type Ident = string

  /** `syn::Type`. The unit type `()` is the tuple with no elements. */
  datatype Ty =
    | Tuple(elems: seq<Ty>)
    | Reference(mutable: bool, elem: Ty)
    | PathType(segments: seq<Ident>, generics: seq<Ty>)

  const UnitTy: Ty := Tuple([])

  /** `syn::Pat`: an identifier binding (`x`, `mut x`, `ref x`), `_`, or a tuple pattern. */
  datatype Pat =
    | PatIdent(byRef: bool, mutable: bool, ident: Ident)
    | PatWild
    | PatTuple(elems: seq<Pat>)

  datatype Lit = LitStr(value: string) | LitOther(text: string)

  datatype Expr = ExprLit(lit: Lit) | ExprOther(text: string)

  /** `syn::Meta`: `#[path]`, `#[path(args)]` or `#[path = value]`.
      The arguments of the list form are kept as the expressions they spell. */
  datatype Meta =
    | MetaPath
    | MetaList(args: seq<Expr>)
    | MetaNameValue(value: Expr)

  datatype Attribute = Attribute(path: seq<Ident>, meta: Meta)

  /** `attr.path().is_ident(name)`: the path is the single segment `name`. */
  predicate IsIdent(a: Attribute, name: Ident)
  {
    a.path == [name]
  }

  /** `attrs.iter().any(|attr| attr.path().is_ident(name))` */
  predicate HasAttr(attrs: seq<Attribute>, name: Ident)
  {
    exists i :: 0 <= i < |attrs| && IsIdent(attrs[i], name)
  }

  datatype PatType = PatType(attrs: seq<Attribute>, pat: Pat, ty: Ty)

  /** `syn::FnArg`: a `self` receiver or a typed argument `pat: ty`. */
  datatype FnArg =
    | Receiver(attrs: seq<Attribute>, reference: bool, mutable: bool)
    | Typed(arg: PatType)

  datatype Visibility = Public | Restricted(path: seq<Ident>) | Inherited

  datatype ReturnType = Default | Returns(ty: Ty)

  datatype Signature = Signature(isAsync: bool, ident: Ident, inputs: seq<FnArg>, output: ReturnType)

  /** The function body, which no generator inspects. */
  datatype Block = Block(tokens: string)

  datatype ItemFn = ItemFn(attrs: seq<Attribute>, vis: Visibility, sig: Signature, block: Block)

  /** A typed argument marked `#[context]`. */
  predicate IsContextArg(p: PatType)
  {
    HasAttr(p.attrs, "context")
  }

  predicate IsContextInput(a: FnArg)
  {
    a.Typed? && IsContextArg(a.arg)
  }

  predicate HasReceiver(inputs: seq<FnArg>)
  {
    exists i :: 0 <= i < |inputs| && inputs[i].Receiver?
  }

  predicate IsIdentPat(p: PatType)
  {
    p.pat.PatIdent?
  }

  /** The typed arguments, receivers skipped, in declaration order. */
  function TypedArgs(inputs: seq<FnArg>): (r: seq<PatType>)
    ensures |r| <= |inputs|
    ensures !HasReceiver(inputs) ==> |r| == |inputs| && forall i :: 0 <= i < |inputs| ==> inputs[i] == Typed(r[i])
  {
    if |inputs| == 0 then []
    else if inputs[0].Typed? then
      assert !HasReceiver(inputs) ==> !HasReceiver(inputs[1..]) by {
        if HasReceiver(inputs[1..]) {
          var i :| 0 <= i < |inputs[1..]| && inputs[1..][i].Receiver?;
          assert inputs[i + 1].Receiver?;
        }
      }
      [inputs[0].arg] + TypedArgs(inputs[1..])
    else
      TypedArgs(inputs[1..])
  }

  /** Number of `#[context]` arguments. */
  function ContextCount(inputs: seq<FnArg>): nat
  {
    Count(IsContextInput, inputs)
  }

  /** Rust rejects a parameter list that binds the same identifier twice. */
  predicate DistinctIdents(args: seq<PatType>)
  {
    forall i, j :: 0 <= i < j < |args| && args[i].pat.PatIdent? && args[j].pat.PatIdent? ==>
      args[i].pat.ident != args[j].pat.ident
  }
}
