/** The wrapper module of the older `#[rpc]` generator (`rpc/wrapper.rs`):
    the user's function moved, made `pub`, into a module `<name>_impl` that
    keeps the function's own visibility, and the path `<name>_impl::<name>`
    by which the generated callback reaches it. */
module LegacyWrapperGen {
  import opened Wrappers
  import opened RustSyntax

  const ImplSuffix: string := "_impl"

  /** `#original_vis mod #name_impl { #public_input }` */
  datatype WrapperModule = WrapperModule(vis: Visibility, ident: Ident, item: ItemFn)

  /** `gen_fn_wrapper`: the module and the path to the function inside it. */
  function GenFnWrapper(input: ItemFn): (r: (WrapperModule, seq<Ident>))
    ensures r.0.vis == input.vis && r.0.ident == input.sig.ident + ImplSuffix
    ensures r.0.item.vis == Public
    ensures r.1 == [r.0.ident, input.sig.ident]
  {
    var nameImpl := input.sig.ident + ImplSuffix;
    (WrapperModule(input.vis, nameImpl, input.(vis := Public)), [nameImpl, input.sig.ident])
  }

  /** The item a two-segment path names when it goes through this module. */
  function ResolvePath(m: WrapperModule, path: seq<Ident>): (r: Option<ItemFn>)
    ensures r.Some? <==> |path| == 2 && path[0] == m.ident && path[1] == m.item.sig.ident
    ensures r.Some? ==> r.value == m.item
  {
    if |path| == 2 && path[0] == m.ident && path[1] == m.item.sig.ident then Some(m.item) else None
  }

  /** Putting the module's visibility back on the item it holds. */
  function Restore(m: WrapperModule): ItemFn
  {
    m.item.(vis := m.vis)
  }

  /** Wrapping loses nothing: the function inside is the input with only its
      visibility changed to `pub`, the module carries the old one, and
      restoring it gives the input back. */
  lemma WrapperRoundTrip(input: ItemFn)
    ensures var (m, _) := GenFnWrapper(input);
      && Restore(m) == input
      && m.item.attrs == input.attrs && m.item.sig == input.sig && m.item.block == input.block
  {
  }

  /** The returned path names the wrapped function, which is public, under a
      module name that differs from the function's own. */
  lemma PathReachesFunction(input: ItemFn)
    ensures var (m, path) := GenFnWrapper(input);
      && ResolvePath(m, path) == Some(m.item)
      && m.item.vis.Public? && m.item.sig == input.sig
      && m.ident != input.sig.ident
  {
    var (m, path) := GenFnWrapper(input);
    assert |m.ident| == |input.sig.ident| + |ImplSuffix|;
  }
}
