# OpenSpec-Jsonrpsee in Dafny

OpenSpec-Jsonrpsee lets a Rust programmer turn an ordinary function into a
JSON-RPC method with an attribute, `#[rpc]`. The attribute macro reads the
function's signature and emits three things:

- an OpenRPC 1.3.2 Method Object that describes the function;
- a server handler that decodes the call's positional parameters, calls the
  function and wraps its return value in `Ok`;
- optionally, a typed client method.

At run time, an `EasyModule` collects the generated methods. It keeps their
specs in call order and registers their handlers in an inner `jsonrpsee`
name table.

This project models, and proves properties of:

- **The runtime registry** (`Registry`). `EasyModule` is a class whose
  `add_method` pushes the spec and then routes the handler by its `Sync` or
  `Async` tag. The inner `jsonrpsee::RpcModule` is a class holding a
  name-to-handler map. The handler shapes and the `RpcMethod` descriptor are
  datatypes.
- **The OpenRPC records** (`OpenRpc`): the document types, the builder
  defaults (`openrpc` is always `"1.3.2"`; title and version come from the
  crate) and `Display` / `to_string_pretty`.
- **The current macro crate** (`openspec-jsonrpsee-macros`):
  - the parsed function model (`MacroModel`);
  - the spec generator (`SpecGen`);
  - the handler generator (`HandlerGen`);
  - the client generator (`ClientGen`);
  - the input sanitiser (`SanitizeInput`);
  - the composition with its `client` / `server` feature gating
    (`RpcMethodExpansion`).
- **The older macro crate** (`easy-rpc-macros`):
  - the spec generator (`LegacySpecGen`);
  - the handler generator (`LegacyHandlerGen`);
  - the callback generator (`LegacyCallbackGen`);
  - the wrapper module (`LegacyWrapperGen`);
  - the typed request functions (`LegacyRequestGen`);
  - `extract_return_type` (`LegacyHelpers`).

Some lemmas set the older generators beside the current ones to show how
they differ.

Generated code is modelled as small "plan" and expression datatypes instead
of token streams. The `Codegen` module gives those plans their meaning:

- whether the emitted code compiles;
- what the emitted `spec()` literal evaluates to (`Codegen.EvaluateMethod`);
- what a generated handler or client call does
  (`HandlerGen.Run`, `LegacyHandlerGen.Run`, `ClientGen.Call`, `LegacyRequestGen.Call`).

A macro that panics while expanding, code that the compiler rejects, and
code that panics when run are the three cases of `Codegen.Failure`. Rust
token types are kept to the parts the generators inspect (`RustSyntax`).

Helpers whose code is not part of this model are parameters of the model:

- `heck`'s UpperCamelCase conversion, `owned_type_version` and the current
  crate's `extract_return_type` (the `MacroModel.Foreign` record);
- `Params` decoding (`HandlerGen.Decoder`);
- the client transport (`ClientGen.Transport`);
- `serde_json` (`OpenRpc.Serializer`).

A JSON Schema is an uninterpreted function of the Rust type
(`OpenRpc.SchemaOf`).

`EasyModule` documents its spec list as the specifications of the
*registered* methods (`src/rpc/module.rs:49`). But `add_method` pushes the
spec at line 85, before the `?` on `register_method` or
`register_async_method` (lines 89 and 92). A name that is already taken is
rejected with `Err` and no handler is registered for it, yet its spec stays
listed. The list then holds a spec whose name is served by the handler
of the method registered first under that name. The model follows the code as written
(`Registry.AfterAddMethod`). The corrected add, under which every listed
spec has a handler, is in "Findings".

## Model

| member | source | states |
|---|---|---|
| Registry.ServerHandler.Tag | src/rpc/method.rs:53-56 | a handler is exactly one of the two variants: the tag is `SyncTag` iff `Sync`, `AsyncTag` iff `Async` |
| Registry.RpcModule.constructor | src/rpc/module.rs:63 | the inner module holds the given context and no registered names |
| Registry.RpcModule.RegisterMethod | src/rpc/module.rs:89 | fails with `AlreadyRegistered(name)`, leaving the table unchanged, iff the name is present; otherwise the name maps to the `Sync` callback |
| Registry.RpcModule.RegisterAsyncMethod | src/rpc/module.rs:92 | the same for the `Async` callback |
| Registry.EasyModule.constructor | src/rpc/module.rs:61-66 | a new module has an empty spec list, a fresh inner module holding the context, and an empty table |
| Registry.EasyModule.AddMethod | src/rpc/module.rs:81-97 | the new (spec list, table) and the result are exactly `AfterAddMethod` of the old state; the inner module and its context stay the same |
| Registry.AddMethodOutcome | src/rpc/module.rs:85-96 | whatever the outcome, exactly `spec()` is appended; the result is `Ok` iff the name was new; an `Err` is `AlreadyRegistered(name)` with the table unchanged; on `Ok` the name maps to the handler |
| Registry.AddFreshMethod | src/rpc/module.rs:85-96 | adding a method under a new name succeeds, appends its spec, adds exactly its name to the table and maps it to its handler |
| Registry.AddAllInCallOrder | src/rpc/module.rs:85 | after any sequence of `add_method` calls, successful or not, the spec list is the old one followed by the calls' specs in call order |
| Registry.AddAllNames | src/rpc/module.rs:87-94 | after any sequence of calls, the table's names are the old names plus every name added |
| Registry.FailedAddLeavesOrphanSpec | src/rpc/module.rs:85-94 | as written: from a state where every spec's name is a table key and specs and keys are equally many, a rejected `add_method` returns `Err` and leaves a spec without a handler |
| Registry.DuplicateRegistrationKeepsBothSpecs | src/rpc/module.rs:85-94 | as written: two methods with one name on a fresh module: the first succeeds, the second fails, and both specs are kept while the table has one name |
| Registry.AddMethodAtomic | src/rpc/module.rs:85-96 | corrected: a rejected call returns the state unchanged; a successful one is exactly the as-written effect, and the two fail on the same inputs |
| Registry.AtomicAddKeepsSpecsMatched | src/rpc/module.rs:85-96 | corrected: for methods whose spec carries their own name, any sequence of atomic adds keeps every collected spec's name a table key, with as many specs as keys |
| Registry.EasyModule.IntoJsonrpseeModule | src/rpc/module.rs:103-105 | returns the inner module; the spec list goes nowhere |
| Registry.FromEasyModule | src/rpc/module.rs:108-112 | the conversion returns the inner module |
| OpenRpc.BuildInfo | src/spec.rs:78-106 | unset optional fields stay `None`; title and version fall back to the crate's package name and version |
| OpenRpc.BuildSpec | src/spec.rs:18-52 | `openrpc` is `"1.3.2"`; `methods` is what was supplied; `info` defaults to a default-built `Info`; the other fields are what was set |
| OpenRpc.BuildFromMethodsOnly | src/spec.rs:27-43 | a document built from methods alone has version 1.3.2, the crate's name and version, no servers, components or external docs, and exactly those methods |
| OpenRpc.Display | src/spec.rs:62-74 | pretty JSON under the alternate flag, compact JSON otherwise; a serialisation error gives the fixed placeholder text |
| OpenRpc.ToStringPretty | src/spec.rs:55-59 | the pretty JSON, or the placeholder when pretty serialisation fails |
| Codegen.ParseMethodFor | openspec-jsonrpsee-macros/src/rpc_method/handler.rs:115-118 | `one()` exactly for one argument; `parse()` for none or two or more |
| Codegen.EvalDescriptor | openspec-jsonrpsee-macros/src/rpc_method/spec.rs:99-107 | a descriptor literal evaluates iff its name is a string and its schema is `schema_for!`; a `panic!` schema panics with its message; the value carries the literal's fields |
| Codegen.EvalDescriptors | openspec-jsonrpsee-macros/src/rpc_method/spec.rs:22 | a compiling list evaluates iff no schema panics, element by element; a failure is the panic of the first panicking element, with no panic before it |
| Codegen.EvaluateMethod | openspec-jsonrpsee-macros/src/rpc_method/spec.rs:14-32 | the literal fails to compile iff it has `<panic>`, `name: None`, or a bare string literal as the `Option<String>` description (syntax error first, then the name, then the description); it evaluates iff it compiles and nothing panics; a panic is that of the first panicking descriptor; the Method has the literal's name, the `String::from` text as description (`None` for none), its deprecation, the eight fixed `None` fields, and the evaluated params and result |
| Codegen.Complete | easy-rpc-macros/src/rpc_method/request.rs:30-37 | pass-through returns the outcome unchanged; `expect` aborts with its message exactly on an error and otherwise returns the bare value |
| Text.IsWhitespace | openspec-jsonrpsee-macros/src/rpc_method/spec.rs:59 | Rust's `char::is_whitespace`: among ASCII characters exactly space and tab through carriage return (vertical tab included); never an identifier character |
| Text.TrimStart | openspec-jsonrpsee-macros/src/rpc_method/spec.rs:59 | drops exactly a whitespace prefix and leaves a string that starts with no whitespace |
| Text.TrimStartIdempotent | openspec-jsonrpsee-macros/src/rpc_method/spec.rs:59 | trimming twice is trimming once |
| Text.Join | openspec-jsonrpsee-macros/src/rpc_method/spec.rs:65 | no parts join to `""`; one part joins to itself |
| Text.JoinEmptyIff | openspec-jsonrpsee-macros/src/rpc_method/spec.rs:64-67 | with a non-empty separator, the join is empty iff there are no parts or one empty part |
| Text.Split | openspec-jsonrpsee-macros/src/rpc_method/spec.rs:65 | at least one piece, no piece contains the separator, and a string without the separator is its own single piece |
| Text.SplitJoin | openspec-jsonrpsee-macros/src/rpc_method/spec.rs:65 | splitting the joined lines at the separator gives the lines back when none contains it |
| MacroModel.ExtractContextArg | openspec-jsonrpsee-macros/src/rpc_method/model.rs:93-104 | `None` iff no typed argument has `#[context]`; otherwise the first such argument in declaration order |
| MacroModel.ExtractContextIdent | openspec-jsonrpsee-macros/src/rpc_method/model.rs:106-119 | `None` iff no `#[context]` argument has an identifier pattern; otherwise the identifier of the first one that has |
| MacroModel.ContextIdentAgrees | openspec-jsonrpsee-macros/src/rpc_method/model.rs:93-119 | a context identifier implies a context argument; when the first context argument has an identifier pattern, both extractors name it |
| MacroModel.ClearMut | openspec-jsonrpsee-macros/src/rpc_method/model.rs:144-146 | an identifier pattern loses `mut` and keeps `ref` and its name; other patterns are unchanged |
| MacroModel.StripArg | openspec-jsonrpsee-macros/src/rpc_method/model.rs:138-147 | the argument loses every `#[context]` attribute and keeps the others; its type is unchanged; its identifier, if any, is kept without `mut` |
| MacroModel.ExtractFnArgs | openspec-jsonrpsee-macros/src/rpc_method/model.rs:121-151 | panics with "function cannot take self" iff there is a receiver; otherwise the typed arguments in order, without the `#[context]` ones when excluding, each stripped |
| MacroModel.AsIdent | openspec-jsonrpsee-macros/src/rpc_method/model.rs:153-164 | panics with "Unexpected pattern type" iff some pattern is not an identifier; otherwise one identifier per argument, in order |
| MacroModel.StrippedPatterns | openspec-jsonrpsee-macros/src/rpc_method/model.rs:138-160 | a non-identifier pattern among the extracted arguments comes from the input; without context exclusion every such input pattern shows up |
| MacroModel.IdentifierLists | openspec-jsonrpsee-macros/src/rpc_method/model.rs:84-86 | without receivers, `as_ident` on `fn_args` fails iff some pattern is not an identifier, and when every pattern is an identifier, `as_ident` on the contextless list succeeds too |
| MacroModel.Parse | openspec-jsonrpsee-macros/src/rpc_method/model.rs:62-90 | parsing succeeds iff there is no receiver and every pattern is an identifier; otherwise it panics, with the receiver message first |
| MacroModel.ContextlessCount | openspec-jsonrpsee-macros/src/rpc_method/model.rs:129-137 | the arguments without `#[context]` plus the `#[context]` ones account for every input |
| MacroModel.ParseNames | openspec-jsonrpsee-macros/src/rpc_method/model.rs:70-77 | the parsed model has the function's name, asyncness and visibility, its UpperCamelCase struct name, and the extracted return type |
| MacroModel.ParseContext | openspec-jsonrpsee-macros/src/rpc_method/model.rs:63-83 | `context_needed` iff some argument is `#[context]`; the context type is the first such argument's type, or `()`; `referenced` iff it is a reference; the owned type and the context identifier are as extracted |
| MacroModel.ParseArgs | openspec-jsonrpsee-macros/src/rpc_method/model.rs:84-85 | `fn_args` and their identifiers cover every argument in order, stripped |
| MacroModel.ParseContextless | openspec-jsonrpsee-macros/src/rpc_method/model.rs:86-87 | `fn_args_contextless` is the stripped non-context arguments in order; with the context arguments they count every input; their identifiers match |
| MacroModel.ParseWellParsed | openspec-jsonrpsee-macros/src/rpc_method/model.rs:62-90 | a successful parse has all the facts the generators rely on |
| SpecGen.ExtractDeprecated | openspec-jsonrpsee-macros/src/rpc_method/spec.rs:35-41 | always `Some`, and `true` exactly for `#[deprecated]` |
| SpecGen.DocString | openspec-jsonrpsee-macros/src/rpc_method/spec.rs:47-63 | a string only for `#[doc = "..."]` with a string literal, and then that string |
| SpecGen.DocStrings | openspec-jsonrpsee-macros/src/rpc_method/spec.rs:44-56 | at most one string per attribute; every collected string is the `#[doc = "..."]` string of some attribute; none when no attribute is one (the converse is `SpecGen.DocStringIndex`, order and multiplicity `SpecGen.DocStringsAppend`) |
| SpecGen.DocStringsAppend | openspec-jsonrpsee-macros/src/rpc_method/spec.rs:44-64 | the doc strings of `a + b` are those of `a` followed by those of `b`: order and multiplicity are kept |
| SpecGen.DocLines | openspec-jsonrpsee-macros/src/rpc_method/spec.rs:57-64 | one line per doc string, in order, each trimmed at the start |
| SpecGen.ExtractDescription | openspec-jsonrpsee-macros/src/rpc_method/spec.rs:43-72 | the trimmed lines joined with a newline, and `None` iff that text is empty |
| SpecGen.DescriptionAbsentIff | openspec-jsonrpsee-macros/src/rpc_method/spec.rs:64-68 | no description iff there are no doc lines or a single blank one |
| SpecGen.DescriptionLines | openspec-jsonrpsee-macros/src/rpc_method/spec.rs:59-65 | splitting the description at newlines gives the trimmed doc lines back; none starts with whitespace |
| SpecGen.DocStringIndex | openspec-jsonrpsee-macros/src/rpc_method/spec.rs:44-56 | every doc attribute contributes its string to the collected doc strings |
| SpecGen.NonBlankLineDescribes | openspec-jsonrpsee-macros/src/rpc_method/spec.rs:43-72 | one doc line that is not blank after trimming is enough for a description |
| SpecGen.FilteredParams | openspec-jsonrpsee-macros/src/rpc_method/spec.rs:114-125 | exactly the receivers and the arguments without `#[context]` are kept, and all are kept when none is `#[context]` |
| SpecGen.ParamDescriptor | openspec-jsonrpsee-macros/src/rpc_method/spec.rs:78-107 | required, with no summary or description; a receiver is named `"self"` with a panicking schema; a typed argument has its type's schema, its own deprecation, and its identifier as name, or `None` |
| SpecGen.ExtractParams | openspec-jsonrpsee-macros/src/rpc_method/spec.rs:74-111 | one descriptor per kept argument, in order |
| SpecGen.ReturnTy | openspec-jsonrpsee-macros/src/rpc_method/spec.rs:130-133 | `()` without a declared return type, otherwise that type |
| SpecGen.ExtractResult | openspec-jsonrpsee-macros/src/rpc_method/spec.rs:128-149 | always present, named `<OutputIdent>Response`, required, with the return type's schema and the method's deprecation |
| SpecGen.Generate | openspec-jsonrpsee-macros/src/rpc_method/spec.rs:7-33 | the literal has the function's name, the extracted description written `Some(String::from(..))` (no description iff none is extracted), and the extracted deprecation, params and result |
| SpecGen.FilteredTyped | openspec-jsonrpsee-macros/src/rpc_method/spec.rs:114-125 | without receivers, the kept arguments are the typed arguments without `#[context]` that the model parser keeps |
| SpecGen.ParamsOfParsedFunction | openspec-jsonrpsee-macros/src/rpc_method/spec.rs:74-111 | for a parsed function, parameter literal `k` is the `k`-th contextless argument's name, schema and deprecation |
| SpecGen.PlainLiteralsEvaluate | openspec-jsonrpsee-macros/src/rpc_method/spec.rs:14-32 | literals with no bare string description, string names and `schema_for!` schemas compile and do not panic |
| SpecGen.SpecOfParsedFunction | openspec-jsonrpsee-macros/src/rpc_method/spec.rs:7-149 | for a function that parses, `spec()` returns the Method Object: name, description, deprecation, the fixed `None` fields, one required parameter per contextless argument in order, and the `<OutputIdent>Response` result |
| SpecGen.UniformPanic | openspec-jsonrpsee-macros/src/rpc_method/spec.rs:22-23 | compiling literals whose panicking schemas all share a message evaluate to that panic |
| SpecGen.KeptArgumentShapes | openspec-jsonrpsee-macros/src/rpc_method/spec.rs:78-84 | without non-identifier patterns, each kept argument is a receiver or a named typed argument |
| SpecGen.ReceiverSchemaPanics | openspec-jsonrpsee-macros/src/rpc_method/spec.rs:86-89 | taken on its own, with a receiver, the spec literal compiles but `spec()` panics with the receiver message |
| SpecGen.NonIdentParamDoesNotCompile | openspec-jsonrpsee-macros/src/rpc_method/spec.rs:79-81 | taken on its own, with a non-identifier pattern among the parameters, the literal does not compile (type error) |
| SpecGen.FilteredIndex | openspec-jsonrpsee-macros/src/rpc_method/spec.rs:114-125 | an argument without `#[context]` has a position among the kept parameters |
| SpecGen.NoPlaceholder | openspec-jsonrpsee-macros/src/rpc_method/spec.rs:86-89 | the current generator never writes the `<panic>` placeholder |
| SpecGen.DocCommentExample | tests/module-spec.rs:18-42 | `/// This is a method description` gives the description "This is a method description", not deprecated, no params |
| SpecGen.SingleDocAttribute | openspec-jsonrpsee-macros/src/rpc_method/spec.rs:44-65 | a single `#[doc = line]` gives the single trimmed line and no `#[deprecated]` |
| SpecGen.ExampleLineTrimmed | openspec-jsonrpsee-macros/src/rpc_method/spec.rs:59 | trimming the example line drops its single leading space |
| HandlerGen.GenArgumentsParseImpl | openspec-jsonrpsee-macros/src/rpc_method/handler.rs:101-123 | the patterns and types are the contextless arguments in order; the accessor is `one()` iff there is exactly one |
| HandlerGen.AsyncCallArg | openspec-jsonrpsee-macros/src/rpc_method/handler.rs:34-45 | the context argument becomes `&ctx` for a reference type and `(*ctx).clone()` otherwise; every other argument passes as is |
| HandlerGen.AsyncArgs | openspec-jsonrpsee-macros/src/rpc_method/handler.rs:34-48 | one call argument per `fn_args_as_ident`, in order, by the rule above |
| HandlerGen.SyncArgs | openspec-jsonrpsee-macros/src/rpc_method/handler.rs:91 | every identifier of `fn_args_as_ident` is passed as it is, in order |
| HandlerGen.GenerateAsyncHandler | openspec-jsonrpsee-macros/src/rpc_method/handler.rs:21-70 | an `Async` handler whose context arrives as `Arc<ContextOwned>` and whose call is awaited |
| HandlerGen.GenerateSyncHandler | openspec-jsonrpsee-macros/src/rpc_method/handler.rs:72-99 | a `Sync` handler whose context arrives as `&ContextOwned` and whose call passes every identifier |
| HandlerGen.Generate | openspec-jsonrpsee-macros/src/rpc_method/handler.rs:6-19 | `Async` iff the function is async; the context parameter is the declared context identifier or `_context`; the callee is the function; the call names `fn_args_as_ident` in order |
| HandlerGen.Lookup | openspec-jsonrpsee-macros/src/rpc_method/handler.rs:121 | a name found in the parse pattern is bound to the value at a position where the pattern binds it; a name not found is bound nowhere |
| HandlerGen.Resolve | openspec-jsonrpsee-macros/src/rpc_method/handler.rs:104-121 | a name resolves to a decoded value only where the parse pattern binds it, to the context only when it is the context parameter and the pattern does not bind it, and is otherwise unbound |
| HandlerGen.Bind | openspec-jsonrpsee-macros/src/rpc_method/handler.rs:61 | each call argument resolves by its name in the wrapper's scope |
| HandlerGen.Run | openspec-jsonrpsee-macros/src/rpc_method/handler.rs:61-63 | the wrapper returns `Err` exactly when parameter decoding fails, with that error; otherwise the user's value wrapped in `Ok` |
| HandlerGen.ToServerHandler | openspec-jsonrpsee-macros/src/rpc_method/handler.rs:67 | the returned handler's variant is the plan's kind |
| HandlerGen.ServerHandlerRunsWrapper | openspec-jsonrpsee-macros/src/rpc_method/handler.rs:67-96 | calling the returned handler runs the wrapper: directly for `Sync`, as a ready future over the `Arc`'s context for `Async` |
| HandlerGen.ContextNotParsed | openspec-jsonrpsee-macros/src/rpc_method/handler.rs:104-112 | with distinct names, no contextless argument shares its name with a `#[context]` argument |
| HandlerGen.KeptNamesDiffer | openspec-jsonrpsee-macros/src/rpc_method/model.rs:129-137 | a kept argument is named and its name differs from any `#[context]` argument's |
| HandlerGen.ContextIdentIsThisOne | openspec-jsonrpsee-macros/src/rpc_method/model.rs:106-119 | with at most one `#[context]` argument, its identifier is the context identifier |
| HandlerGen.CallArgIdent | openspec-jsonrpsee-macros/src/rpc_method/handler.rs:34-48 | call position `i` names argument `i` |
| HandlerGen.BindContextPosition | openspec-jsonrpsee-macros/src/rpc_method/handler.rs:9-12 | at the `#[context]` position the callee receives the context |
| HandlerGen.ContextlessIndex | openspec-jsonrpsee-macros/src/rpc_method/model.rs:129-137 | an argument without `#[context]` appears among the contextless arguments under its own name |
| HandlerGen.BindValuePosition | openspec-jsonrpsee-macros/src/rpc_method/handler.rs:121 | at any other position the callee receives the decoded value bound to that argument's name |
| HandlerGen.BindsArguments | openspec-jsonrpsee-macros/src/rpc_method/handler.rs:6-123 | with distinct names and at most one `#[context]`, the user function receives the context at the `#[context]` position and the value decoded for its own name everywhere else |
| HandlerGen.HandlerBindsArguments | openspec-jsonrpsee-macros/src/rpc_method/handler.rs:6-19 | the same for the model `RpcMethod::parse` returns |
| HandlerGen.SecondContextUnbound | openspec-jsonrpsee-macros/src/rpc_method/handler.rs:9-12 | a second `#[context]` argument is neither parsed nor the context parameter: its name is unbound in the call |
| HandlerGen.NotParsedResolve | openspec-jsonrpsee-macros/src/rpc_method/handler.rs:9-12 | a later `#[context]` argument's name resolves to nothing |
| HandlerGen.ResolveUnbound | openspec-jsonrpsee-macros/src/rpc_method/handler.rs:121 | a name that the pattern does not bind and that is not the context parameter is unbound |
| HandlerGen.SecondContextIsNotTheParameter | openspec-jsonrpsee-macros/src/rpc_method/model.rs:106-119 | the context parameter is named after the first `#[context]` argument, not a later one |
| HandlerGen.ContextExprTy | openspec-jsonrpsee-macros/src/rpc_method/handler.rs:39-44 | `&ctx` has type `&ContextOwned`, `(*ctx).clone()` has type `ContextOwned`, and a plain pass has the parameter's type |
| HandlerGen.FirstContextTy | openspec-jsonrpsee-macros/src/rpc_method/model.rs:63-83 | the first `#[context]` argument fixes the context type, whether it is referenced, and the context identifier |
| HandlerGen.FirstContextArg | openspec-jsonrpsee-macros/src/rpc_method/model.rs:93-119 | the first `#[context]` argument is the one both extractors return |
| HandlerGen.AsyncContextFits | openspec-jsonrpsee-macros/src/rpc_method/handler.rs:34-48 | the async wrapper hands the context over at exactly the declared type, owned or `&` |
| HandlerGen.SyncOwnedContextMismatch | openspec-jsonrpsee-macros/src/rpc_method/handler.rs:88-92 | as written: a sync function with a context declared by value receives `&ContextOwned`, which is not the declared type |
| HandlerGen.SyncCallArg | openspec-jsonrpsee-macros/src/rpc_method/handler.rs:91 | corrected: the owned context is cloned out of the reference; everything else passes as is |
| HandlerGen.GenerateSyncHandlerFixed | openspec-jsonrpsee-macros/src/rpc_method/handler.rs:72-99 | corrected: the sync plan with the corrected call arguments, otherwise as written |
| HandlerGen.GenerateFixed | openspec-jsonrpsee-macros/src/rpc_method/handler.rs:6-19 | corrected: async plans are unchanged; sync plans keep the parse statement and context identifier |
| HandlerGen.FixedContextFits | openspec-jsonrpsee-macros/src/rpc_method/handler.rs:72-99 | corrected: sync and async wrappers alike hand the context over at its declared type |
| ClientGen.ClientResultTy | openspec-jsonrpsee-macros/src/rpc_method/client.rs:26 | the return type is `::std::result::Result<Response, ::jsonrpsee::core::ClientError>` |
| ClientGen.Generate | openspec-jsonrpsee-macros/src/rpc_method/client.rs:5-38 | nothing iff there is no `client` path; otherwise a method with the function's name and visibility and its contextless arguments, requesting the function's name over `client_field` (default `client`), sending the contextless identifiers and returning the result unchanged |
| ClientGen.Call | openspec-jsonrpsee-macros/src/rpc_method/client.rs:29-34 | with the pass-through policy the call returns the request's outcome for the RPC name and the values; it aborts only when the request failed |
| ClientGen.CallForwardsOutcome | openspec-jsonrpsee-macros/src/rpc_method/client.rs:29-34 | a call returns exactly the request's outcome for the function's name and the given values |
| ClientGen.ClientSendsWhatHandlerParses | openspec-jsonrpsee-macros/src/rpc_method/client.rs:29 | the client sends, in order, the names the handler's parse pattern binds |
| ClientGen.ClientNeverSendsContext | openspec-jsonrpsee-macros/src/rpc_method/client.rs:26-29 | a `#[context]` argument is never sent |
| SanitizeInput.DropContext | openspec-jsonrpsee-macros/src/rpc_method/sanitize_input.rs:13-24 | a receiver is copied; a typed argument keeps its pattern and type and only its attributes other than `#[context]` |
| SanitizeInput.FnArgDropAttrContext | openspec-jsonrpsee-macros/src/rpc_method/sanitize_input.rs:10-29 | the loop yields the input with each argument sanitised and nothing else changed |
| SanitizeInput.Generate | openspec-jsonrpsee-macros/src/rpc_method/sanitize_input.rs:3-7 | sanitises a copy and returns it |
| SanitizeInput.SanitizedShape | openspec-jsonrpsee-macros/src/rpc_method/sanitize_input.rs:10-29 | argument count and order kept; receivers copied; patterns and types kept; other attributes kept; no `#[context]` left; the rest of the item unchanged |
| SanitizeInput.SanitizeIdempotent | openspec-jsonrpsee-macros/src/rpc_method/sanitize_input.rs:15-18 | sanitising twice is sanitising once |
| SanitizeInput.SanitizedMatchesModel | openspec-jsonrpsee-macros/src/rpc_method/sanitize_input.rs:15-18 | the emitted arguments carry exactly the attributes, types and identifiers of the parsed model's `fn_args` |
| RpcMethodExpansion.GenImplRequests | openspec-jsonrpsee-macros/src/rpc_method/mod.rs:55-75 | with the `client` feature, both request functions on the struct; without it, nothing |
| RpcMethodExpansion.GenImplRpcMethod | openspec-jsonrpsee-macros/src/rpc_method/mod.rs:77-104 | nothing without the `server` feature; otherwise the impl for the struct, with the owned context and response types, `name()` as the function's name, the spec literal and the handler |
| RpcMethodExpansion.GenerateRpcMethod | openspec-jsonrpsee-macros/src/rpc_method/mod.rs:16-45 | the expansion fails iff parsing panics, with the same failure; otherwise the sanitised function, the struct, the requests, the client and the impl |
| RpcMethodExpansion.FeatureGating | openspec-jsonrpsee-macros/src/rpc_method/mod.rs:27-37 | requests iff `client` feature, impl iff `server` feature, client method iff a `client` path; the struct is the UpperCamelCase name |
| RpcMethodExpansion.ExpansionAgrees | openspec-jsonrpsee-macros/src/rpc_method/mod.rs:16-45 | `name()`, the spec's name, the client's RPC name and the handler's callee are the function's name; spec params, parse pattern and client values name the same arguments in order; the result is named after the struct |
| RpcMethodExpansion.Instance | src/rpc/method.rs:65-82 | a generated method's name is the function's and its spec carries that name, its spec is what `spec()` returns, and its handler's tag follows asyncness |
| RpcMethodExpansion.RegisterGeneratedMethod | src/rpc/module.rs:85-96 | adding a generated method under a new name succeeds, appends its spec, and registers it under the function's name by the route its asyncness selects |
| LegacySpecGen.GenDeprecated | easy-rpc-macros/src/rpc_method/spec.rs:30-37 | always `Some`, `true` exactly for `#[deprecated]`, as the current generator |
| LegacySpecGen.DocArg | easy-rpc-macros/src/rpc_method/spec.rs:45 | `parse_args::<LitStr>` succeeds only for `#[doc("...")]` with a single string literal |
| LegacySpecGen.DocArgs | easy-rpc-macros/src/rpc_method/spec.rs:40-50 | at most one string per attribute; none when no attribute parses (order and multiplicity: `LegacySpecGen.DocArgsAppend`) |
| LegacySpecGen.DocArgsAppend | easy-rpc-macros/src/rpc_method/spec.rs:40-50 | the strings of `a + b` are those of `a` followed by those of `b` |
| LegacySpecGen.GenDescription | easy-rpc-macros/src/rpc_method/spec.rs:52-57 | never `String::from`; `None` iff no doc attribute parses; otherwise the untrimmed strings joined with a newline, as a bare string literal in `Some(..)` |
| LegacySpecGen.LegacyDescriptor | easy-rpc-macros/src/rpc_method/spec.rs:65-113 | required, no summary or description; a receiver is `"self"` with the `<panic>` schema and no deprecation; a typed argument has its schema, deprecation and name (or `None`) |
| LegacySpecGen.LegacyParams | easy-rpc-macros/src/rpc_method/spec.rs:60-117 | one descriptor per input, `#[context]` and receivers included, in order |
| LegacySpecGen.GenParams | easy-rpc-macros/src/rpc_method/spec.rs:60-117 | the loop pushes exactly those descriptors |
| LegacySpecGen.Generate | easy-rpc-macros/src/rpc_method/spec.rs:3-28 | the function's name, the description, deprecation and params above, and no result |
| LegacySpecGen.LegacySpecOfPlainFunction | easy-rpc-macros/src/rpc_method/spec.rs:3-117 | for named typed arguments and no `#[doc("...")]`, `spec()` returns one required parameter per argument, `#[context]` included, no description and no result |
| LegacySpecGen.DocAttributeDoesNotCompile | easy-rpc-macros/src/rpc_method/spec.rs:52-57 | as written: one `#[doc("...")]` that parses makes the expansion fail to compile; with named typed arguments, with the description's type error |
| LegacySpecGen.LegacyReceiverDoesNotCompile | easy-rpc-macros/src/rpc_method/spec.rs:84-90 | a receiver puts `<panic>` where an expression belongs: the expansion does not compile |
| LegacySpecGen.ContextBecomesParameter | easy-rpc-macros/src/rpc_method/spec.rs:63-74 | a `#[context]` argument is a parameter of the older spec and not of the current one; the older has no result, the current one has |
| LegacySpecGen.DocCommentIgnored | easy-rpc-macros/src/rpc_method/spec.rs:45 | as written: `///` comments only: no description, while the current generator gives one |
| LegacySpecGen.NoListDocArgs | easy-rpc-macros/src/rpc_method/spec.rs:45 | name-value attributes never parse as `#[doc("...")]` |
| LegacySpecGen.DocText | easy-rpc-macros/src/rpc_method/spec.rs:45 | corrected: either attribute form gives its string |
| LegacySpecGen.DocTexts | easy-rpc-macros/src/rpc_method/spec.rs:40-50 | corrected: at most one string per attribute (order and multiplicity: `LegacySpecGen.DocTextsAppend`) |
| LegacySpecGen.DocTextsAppend | easy-rpc-macros/src/rpc_method/spec.rs:40-50 | corrected: the strings of `a + b` are those of `a` followed by those of `b` |
| LegacySpecGen.GenDescriptionFixed | easy-rpc-macros/src/rpc_method/spec.rs:39-58 | corrected: never a bare literal; `None` iff there are no doc strings of either form, otherwise them joined untrimmed in `Some(String::from(..))` |
| LegacySpecGen.GenerateFixed | easy-rpc-macros/src/rpc_method/spec.rs:3-28 | corrected: the older literal with the corrected description |
| LegacySpecGen.FixedSpecOfPlainFunction | easy-rpc-macros/src/rpc_method/spec.rs:3-58 | corrected: for named typed arguments, `spec()` evaluates, one parameter per argument and no result, described by the doc strings of either form joined with newlines (`None` without any); for `///` comments alone, by the `#[doc = ..]` strings |
| LegacySpecGen.DocCommentsDescribe | easy-rpc-macros/src/rpc_method/spec.rs:39-58 | corrected: `///` comments describe the function, absent exactly without doc lines |
| LegacySpecGen.NameValueDocTexts | easy-rpc-macros/src/rpc_method/spec.rs:45 | corrected: on name-value attributes the doc texts are the `#[doc = ..]` strings |
| LegacyHandlerGen.LegacyPat | easy-rpc-macros/src/rpc_method/handler.rs:42-47 | an identifier pattern contributes its bare identifier, any other `_` |
| LegacyHandlerGen.GenArgumentsParseImpl | easy-rpc-macros/src/rpc_method/handler.rs:31-76 | every typed argument, `#[context]` included, receivers skipped, in order; `one()` iff exactly one |
| LegacyHandlerGen.SupplyOf | easy-rpc-macros/src/rpc_method/handler.rs:89-96 | an identifier, or `_` for any other pattern |
| LegacyHandlerGen.GenArgumentsSupply | easy-rpc-macros/src/rpc_method/handler.rs:78-109 | the same identifiers in the same order, one per typed argument |
| LegacyHandlerGen.Generate | easy-rpc-macros/src/rpc_method/handler.rs:4-29 | a sync handler with an unused `_context`, the parse statement and supply above, calling the original function without parentheses |
| LegacyHandlerGen.SupplyCompilesIff | easy-rpc-macros/src/rpc_method/handler.rs:78-109 | the generated call compiles iff every typed argument is an identifier pattern |
| LegacyHandlerGen.CalleeArity | easy-rpc-macros/src/rpc/callback.rs:112-117 | a parenthesised list of two or more is one argument; otherwise one per supplied identifier |
| LegacyHandlerGen.Bind | easy-rpc-macros/src/rpc_method/handler.rs:22 | each supplied identifier resolves through the parse pattern; `_` resolves to nothing |
| LegacyHandlerGen.Run | easy-rpc-macros/src/rpc_method/handler.rs:21-23 | `Err` exactly on a decoding error; otherwise the user's value wrapped in `Ok` |
| LegacyHandlerGen.LookupUnique | easy-rpc-macros/src/rpc_method/handler.rs:21-22 | a name bound at exactly one position resolves to that position's value |
| LegacyHandlerGen.BindsPositionally | easy-rpc-macros/src/rpc_method/handler.rs:21-22 | with identifier patterns and distinct names, the callee receives the value decoded at each position, `#[context]` arguments too |
| LegacyHandlerGen.ContextIsDecoded | easy-rpc-macros/src/rpc_method/handler.rs:31-54 | the older handler decodes one value per argument; the current one decodes all but the `#[context]` ones |
| LegacyCallbackGen.GenCallbackImpl | easy-rpc-macros/src/rpc/callback.rs:3-29 | the older handler's plan, calling the wrapped path with the parenthesised supply |
| LegacyCallbackGen.CallbackTuplesArguments | easy-rpc-macros/src/rpc/callback.rs:112-117 | as written: through the wrapper path, the call type-checks iff the function has fewer than two arguments |
| LegacyCallbackGen.GenCallbackImplFixed | easy-rpc-macros/src/rpc/callback.rs:3-29 | corrected: the older handler's plan with the wrapped path as callee; one argument per typed argument |
| LegacyCallbackGen.FixedCallbackTypeChecks | easy-rpc-macros/src/rpc/callback.rs:22 | corrected: the call type-checks for every arity and passes the decoded values position by position |
| LegacyWrapperGen.GenFnWrapper | easy-rpc-macros/src/rpc/wrapper.rs:2-19 | the module keeps the function's visibility and is named `<name>_impl`; the function inside is `pub`; the path is `<name>_impl::<name>` |
| LegacyWrapperGen.ResolvePath | easy-rpc-macros/src/rpc/wrapper.rs:17 | a two-segment path through the module resolves exactly to the function inside |
| LegacyWrapperGen.WrapperRoundTrip | easy-rpc-macros/src/rpc/wrapper.rs:8-14 | only the visibility changes: restoring the module's visibility gives the input back |
| LegacyWrapperGen.PathReachesFunction | easy-rpc-macros/src/rpc/wrapper.rs:6-17 | the returned path reaches the public function with the same signature, under a module name that differs from the function's |
| LegacyRequestGen.Name | easy-rpc-macros/src/rpc_method/request.rs:11-19 | `Checked` is `request`, `Unchecked` is `request_unchecked` |
| LegacyRequestGen.ActualResponseType | easy-rpc-macros/src/rpc_method/request.rs:21-28 | `Checked` returns the client `Result`, `Unchecked` the bare response |
| LegacyRequestGen.ReturnResponse | easy-rpc-macros/src/rpc_method/request.rs:30-37 | `Checked` passes the outcome through; `Unchecked` `expect`s it with the fixed message |
| LegacyRequestGen.RustDoc | easy-rpc-macros/src/rpc_method/request.rs:39-48 | the doc text for each kind |
| LegacyRequestGen.ExtractFnArgs | easy-rpc-macros/src/rpc_method/request.rs:83-93 | a receiver panics; otherwise every argument as written, in order |
| LegacyRequestGen.ExtractArgIdents | easy-rpc-macros/src/rpc_method/request.rs:96-106 | a receiver panics; otherwise every argument's pattern, unchanged, in order |
| LegacyRequestGen.ExtractResponseTy | easy-rpc-macros/src/rpc_method/request.rs:109-114 | `()` without a declared return type, otherwise that type |
| LegacyRequestGen.Generate | easy-rpc-macros/src/rpc_method/request.rs:52-75 | a receiver aborts; otherwise a function with the kind's doc, name, return type and policy, the client parameter first, every argument, sending every pattern under the function's name |
| LegacyRequestGen.Call | easy-rpc-macros/src/rpc_method/request.rs:64-72 | pass-through returns the request's outcome for the RPC name and values; `expect` aborts exactly when the request failed, with the policy's message |
| LegacyRequestGen.CheckedAndUncheckedDiffer | easy-rpc-macros/src/rpc_method/request.rs:11-48 | the two functions differ only in name, doc, return type and policy; the checked return type wraps the unchecked one |
| LegacyRequestGen.CheckedForwards | easy-rpc-macros/src/rpc_method/request.rs:68-72 | `request` returns what the request to the function's name produced |
| LegacyRequestGen.UncheckedAbortsIffError | easy-rpc-macros/src/rpc_method/request.rs:30-37 | `request_unchecked` aborts with the `expect` message exactly on an error, otherwise returns the bare response |
| LegacyRequestGen.SentCompilesIff | easy-rpc-macros/src/rpc_method/request.rs:67 | over the modelled pattern grammar (identifiers, `_`, tuples; no reference or struct patterns), `rpc_params!` compiles iff every argument's whole pattern is also an expression: an identifier without `ref` or `mut`, or a tuple of such patterns; `_` never is |
| LegacyRequestGen.TupleArgumentCompiles | easy-rpc-macros/src/rpc_method/request.rs:96-106 | a tuple argument `(a, b): T` is sent as the tuple expression `(a, b)` and the request compiles |
| LegacyRequestGen.RequestMatchesLegacyHandler | easy-rpc-macros/src/rpc_method/request.rs:67 | when the request compiles, it sends one pattern per argument in order: an identifier where the older handler's pattern binds that identifier, a tuple where the handler's pattern has `_` |
| LegacyRequestGen.RequestSendsContext | easy-rpc-macros/src/rpc_method/request.rs:96-106 | the older request sends one value per argument; the current client sends all but the `#[context]` ones |
| LegacyHelpers.ExtractReturnType | easy-rpc-macros/src/helpers.rs:1-6 | total: `()` without a declared return type, otherwise that type unchanged |
| LegacyHelpers.ResponseTypesAgree | easy-rpc-macros/src/helpers.rs:1-6 | agrees with the request generator's `extract_response_ty` and with the current generator's result type on every signature |

## Left out

- `jsonrpsee` internals are not modelled: request dispatch, the `Params`
  decoding (`HandlerGen.Decoder`, a parameter) and the transport of client
  calls (`ClientGen.Transport`, a parameter). The duplicate-name check inside
  `register_method` is not part of the shown code. `Registry.RpcModule`
  assumes that registration fails exactly when the name is already present.
- `serde_json` serialisation is a parameter (`OpenRpc.Serializer`).
  `schemars::schema_for!` is an uninterpreted schema per type. `heck`'s
  UpperCamelCase, `owned_type_version` and the current crate's
  `extract_return_type` are parameters (`MacroModel.Foreign`);
  `openspec-jsonrpsee-macros/src/helpers.rs` is not part of this model.
- The `darling` parsing of the macro's arguments (`RpcMethodArgs::parse`,
  with its `abort!`) is left out. The arguments are given already parsed.
- The current crate's `request` module is not part of this model.
  `RpcMethodExpansion.GenImplRequests` records only which request functions
  are asked for.
- `openspec-jsonrpsee-macros/src/rpc_method/mod.rs:89` calls
  `spec::generate(&input)` with one argument, but `spec.rs:7` takes the
  output identifier too. The model follows `spec.rs` and passes the struct
  name.
- `src/rpc.rs` repeats `src/rpc/method.rs` and `src/rpc/module.rs` line for
  line (`ServerHandler` 17-20, `RpcMethod` 22-29, `EasyModule` 31-71). It is
  modelled once, through the rows citing those two files.
- Async execution is left out: futures are values that are already ready,
  and `Arc` is a plain wrapper. `Send`, lifetimes, tokio tasks and
  concurrency are not modelled.
- `Registry.EasyModule.AddMethod` and `Registry.ModuleState`: the source's
  `add_method<T>` is generic in the response type `T` on every call, so one
  module can hold methods with different return types. The model fixes a
  single response type `R` per module, so it cannot express such a module.
  Every property is proved for an arbitrary `R`.
- `Registry.EasyModule.AddMethod` states its new state through
  `Registry.AfterAddMethod`. The properties of the add are lemmas about that
  function.
- `RpcMethodExpansion.GenFnName` has no contract of its own. That `name()`
  is the function's name is stated by
  `RpcMethodExpansion.GenImplRpcMethod` and
  `RpcMethodExpansion.ExpansionAgrees`.
- `RpcMethodExpansion.GenerateRpcMethod` composes the generators as
  written. The corrected variants in "Findings" are stated beside them and
  are not wired into the composition.
- `HandlerGen.BindsArguments` assumes distinct argument names and at most one
  `#[context]` argument: Rust rejects repeated names, and the handler has a single context parameter.
  `HandlerGen.SecondContextUnbound` covers a second `#[context]` argument.
- Type checking of the emitted Rust is modelled only where a lemma needs it:
  the context argument's type, the callee's arity, a `_` or `mut x` used
  as an expression, `name: None`, and a bare string literal as the
  `Option<String>` description. No other type errors are modelled.
- `LegacySpecGen.LegacySpecOfPlainFunction` requires that no
  `#[doc("...")]` attribute parses: with one, the older `spec()` does not
  compile (`LegacySpecGen.DocAttributeDoesNotCompile`), so there is no
  Method Object to describe.
- `Registry.AtomicAddKeepsSpecsMatched` requires every added method's spec
  to carry the method's own name. A hand-written `RpcMethod` may break
  this; every generated one keeps it (`RpcMethodExpansion.Instance`).
- The `println!` at `easy-rpc-macros/src/rpc/callback.rs:20` is I/O and is
  left out.
- `easy-rpc-macros/src/rpc/mod.rs` and `easy-rpc-macros/src/rpc_method/mod.rs`
  are left out. They call functions whose shown definitions have other
  arities, or that are not shown at all, so their composition cannot be
  pinned down.
- The `lib.rs` files, `src/test.rs` (a TCP server and an HTTP client),
  `src/spec/model.rs` (a behaviour-free copy of the record types), the
  examples and the tests are left out. Two tests serve as evidence:
  `tests/module-spec.rs` (`SpecGen.DocCommentExample`) and
  `tests/fn-arg-option.rs:23` (every parameter is `required`, by
  `SpecGen.ParamDescriptor`).
- The model does not fix the exact text of a generated identifier or string
  literal, only what the generators compose from them. `stringify!` is
  modelled as the identifier itself.
- `LegacyRequestGen.SentCompilesIff` shows that the older request functions
  do not compile for an argument written `mut x`, `ref x` or `_`, or for a
  tuple pattern that contains one of those. A tuple of plain identifiers
  compiles. This is stated as behaviour and is not listed as a finding.

## Findings

| source | as written | input that shows it | evidently intended | confidence | as-written member | corrected member |
|---|---|---|---|---|---|---|
| src/rpc/module.rs:85-94 | the spec is pushed (line 85) before the `?` on registration (lines 89, 92); a rejected name returns `Err` but its spec stays listed | two methods with the same name added to a fresh module: the second fails, yet both specs are listed | the list holds the specs of the registered methods (line 49), so a rejected add leaves it unchanged and every listed spec has a handler | not executed | Registry.DuplicateRegistrationKeepsBothSpecs | Registry.AtomicAddKeepsSpecsMatched |
| openspec-jsonrpsee-macros/src/rpc_method/handler.rs:88-92 | the sync wrapper passes its `&ContextOwned` parameter as it is, for any declared context type | `fn f(#[context] db: Db)` (not async) | a by-value context is cloned out of the reference, as in the async wrapper | not executed | HandlerGen.SyncOwnedContextMismatch | HandlerGen.FixedContextFits |
| easy-rpc-macros/src/rpc_method/spec.rs:45 | `parse_args::<LitStr>()` reads only `#[doc("...")]`; ordinary `///` comments give `None` | `/// Adds two numbers` above the function | doc comments describe the method | not executed | LegacySpecGen.DocCommentIgnored | LegacySpecGen.DocCommentsDescribe |
| easy-rpc-macros/src/rpc_method/spec.rs:52-57 | a non-empty description is emitted as `Some(#doc)`, a `&str` literal, where the field is an `Option<String>` (src/spec.rs:185) | `#[doc("Adds")] fn add(a: u32)` | the text is wrapped in `String::from`, as the current generator does (openspec-jsonrpsee-macros/src/rpc_method/spec.rs:69) | not executed | LegacySpecGen.DocAttributeDoesNotCompile | LegacySpecGen.FixedSpecOfPlainFunction |
| easy-rpc-macros/src/rpc/callback.rs:114-117 | the call arguments are wrapped in parentheses, so two or more are passed as one tuple | `fn add(a: u32, b: u32)`: the callback calls `add_impl::add((a, b))` | the arguments are passed one by one, as in the older handler | not executed | LegacyCallbackGen.CallbackTuplesArguments | LegacyCallbackGen.FixedCallbackTypeChecks |
