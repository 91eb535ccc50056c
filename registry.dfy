/** The runtime side: the handler shapes and the `RpcMethod` descriptor of
    `src/rpc/method.rs`, the inner `jsonrpsee::RpcModule` name table, and the
    `EasyModule` registry of `src/rpc/module.rs` (repeated verbatim in `src/rpc.rs`). */
module Registry {
  import opened Wrappers
  import OpenRpc

  /** The raw parameters of one call (`jsonrpsee::types::Params`), kept as JSON text. */
  datatype Params = Params(json: Option<string>)

  /** The per-call metadata bag (`jsonrpsee::Extensions`). */
  datatype Extensions = Extensions(entries: map<string, string>)

  /** `std::sync::Arc<T>`: a shared handle to one value. */
  datatype Arc<T> = Arc(shared: T)

  /** A boxed `Send` future, represented by the output it yields once awaited. */
  datatype BoxFuture<T> = Ready(output: T)

  /** `SyncCallback`: params, a borrowed context and borrowed extensions in, the response out directly. */
  type SyncCallback<!C, R> = (Params, C, Extensions) -> R

  /** `AsyncCallback`: `'static` params, an `Arc` to the context and owned extensions in, a future out. */
  type AsyncCallback<!C, R> = (Params, Arc<C>, Extensions) -> BoxFuture<R>

  datatype HandlerTag = SyncTag | AsyncTag

  /** `ServerHandler`: exactly one of the two callback shapes. */
  datatype ServerHandler<!C, R> =
    | Sync(syncFn: SyncCallback<C, R>)
    | Async(asyncFn: AsyncCallback<C, R>)
  {
    function Tag(): (t: HandlerTag)
      ensures t == SyncTag <==> this.Sync?
      ensures t == AsyncTag <==> this.Async?
    {
      if Sync? then SyncTag else AsyncTag
    }
  }

  /** A JSON-RPC error object (`jsonrpsee::types::ErrorObjectOwned`). */
  datatype ErrorObject = ErrorObject(code: int, message: string, data: Option<string>)

  /** `jsonrpsee::core::RpcResult<R>` */
  type RpcResult<R> = Result<R, ErrorObject>

  /** What an `RpcMethod` implementation hands out: a `'static` name, an
      OpenRPC Method Object, and a handler producing `RpcResult<R>`. The
      response type `R` is unit unless the implementation names another. */
  datatype RpcMethod<!C, R> = RpcMethod(name: string, spec: OpenRpc.Method, handler: ServerHandler<C, RpcResult<R>>)

  datatype RegisterMethodError = AlreadyRegistered(name: string)

  /** The registry's two pieces of state: the collected specs, in call order,
      and the inner name-to-handler table. */
  datatype ModuleState<!C, R> = ModuleState(
    methods: seq<OpenRpc.Method>,
    table: map<string, ServerHandler<C, RpcResult<R>>>)

  /** The effect of `add_method` as written: the spec is appended first, then
      registration under `name()` is attempted and its error returned. */
  function AfterAddMethod<C, R>(s: ModuleState<C, R>, m: RpcMethod<C, R>): (out: (ModuleState<C, R>, Result<(), RegisterMethodError>))
  {
    var methods := s.methods + [m.spec];
    if m.name in s.table then
      (ModuleState(methods, s.table), Err(AlreadyRegistered(m.name)))
    else
      (ModuleState(methods, s.table[m.name := m.handler]), Ok(()))
  }

  /** Whatever the outcome, exactly the method's spec is appended; the table
      gains the handler exactly when the call succeeds, and is untouched otherwise. */
  lemma AddMethodOutcome<C, R>(s: ModuleState<C, R>, m: RpcMethod<C, R>)
    ensures var (t, r) := AfterAddMethod(s, m);
      && t.methods == s.methods + [m.spec]
      && |t.methods| == |s.methods| + 1
      && (r.Ok? <==> m.name !in s.table)
      && (r.Err? ==> r.error == AlreadyRegistered(m.name) && t.table == s.table)
      && (r.Ok? ==> t.table == s.table[m.name := m.handler])
  {
  }

  /** A method under a new name is added: its spec is appended and its name
      now maps to its handler, next to the names already there. */
  lemma AddFreshMethod<C, R>(s: ModuleState<C, R>, m: RpcMethod<C, R>)
    requires m.name !in s.table
    ensures var (t, r) := AfterAddMethod(s, m);
      && r.Ok? && t.methods == s.methods + [m.spec]
      && t.table.Keys == s.table.Keys + {m.name} && t.table[m.name] == m.handler
  {
    assert s.table[m.name := m.handler].Keys == s.table.Keys + {m.name};
  }

  /** Calling `add_method` for each of `ms` in turn, ignoring the results. */
  function AddAll<C, R>(s: ModuleState<C, R>, ms: seq<RpcMethod<C, R>>): ModuleState<C, R>
    decreases |ms|
  {
    if |ms| == 0 then s else AddAll(AfterAddMethod(s, ms[0]).0, ms[1..])
  }

  function Specs<C, R>(ms: seq<RpcMethod<C, R>>): (r: seq<OpenRpc.Method>)
    ensures |r| == |ms| && forall i :: 0 <= i < |ms| ==> r[i] == ms[i].spec
  {
    if |ms| == 0 then [] else [ms[0].spec] + Specs(ms[1..])
  }

  function Names<C, R>(ms: seq<RpcMethod<C, R>>): set<string>
  {
    set i | 0 <= i < |ms| :: ms[i].name
  }

  lemma NamesCons<C, R>(ms: seq<RpcMethod<C, R>>)
    requires |ms| > 0
    ensures Names(ms) == {ms[0].name} + Names(ms[1..])
  {
    forall n | n in Names(ms) ensures n in {ms[0].name} + Names(ms[1..]) {
      var i :| 0 <= i < |ms| && ms[i].name == n;
      if i > 0 { assert ms[1..][i - 1].name == n; }
    }
    forall n | n in Names(ms[1..]) ensures n in Names(ms) {
      var i :| 0 <= i < |ms[1..]| && ms[1..][i].name == n;
      assert ms[i + 1].name == n;
    }
  }

  /** The spec list is the call sequence's specs in call order, one per call,
      whether or not the calls succeeded. */
  lemma {:induction false} AddAllInCallOrder<C, R>(s: ModuleState<C, R>, ms: seq<RpcMethod<C, R>>)
    ensures AddAll(s, ms).methods == s.methods + Specs(ms)
    decreases |ms|
  {
    if |ms| > 0 {
      var t := AfterAddMethod(s, ms[0]).0;
      var rest := Specs(ms[1..]);
      assert AddAll(s, ms) == AddAll(t, ms[1..]);
      AddAllInCallOrder(t, ms[1..]);
      assert Specs(ms) == [ms[0].spec] + rest;
      assert t.methods + rest == s.methods + ([ms[0].spec] + rest);
    }
  }

  /** The table's names are exactly the names ever added: a rejected name was
      already there. */
  lemma {:induction false} AddAllNames<C, R>(s: ModuleState<C, R>, ms: seq<RpcMethod<C, R>>)
    ensures AddAll(s, ms).table.Keys == s.table.Keys + Names(ms)
    decreases |ms|
  {
    if |ms| > 0 {
      var t := AfterAddMethod(s, ms[0]).0;
      AddMethodOutcome(s, ms[0]);
      assert t.table.Keys == s.table.Keys + {ms[0].name};
      AddAllNames(t, ms[1..]);
      NamesCons(ms);
    }
  }

  /** The state in which every collected spec has a registered handler:
      each spec's name is a key of the table, and there are as many specs as keys. */
  predicate SpecsMatchTable<C, R>(s: ModuleState<C, R>)
  {
    && |s.methods| == |s.table|
    && forall i :: 0 <= i < |s.methods| ==> s.methods[i].name in s.table
  }

  /** The spec an `RpcMethod` hands out carries the name it registers under,
      as every generated implementation does. */
  predicate SpecNamedAfterMethod<C, R>(m: RpcMethod<C, R>)
  {
    m.spec.name == m.name
  }

  /** As written, a rejected `add_method` still appends its spec, so the spec
      list gains an entry with no handler of its own behind it. */
  lemma FailedAddLeavesOrphanSpec<C, R>(s: ModuleState<C, R>, m: RpcMethod<C, R>)
    requires SpecsMatchTable(s)
    requires m.name in s.table
    ensures AfterAddMethod(s, m).1.Err?
    ensures !SpecsMatchTable(AfterAddMethod(s, m).0)
  {
  }

  /** Registering the same name twice on a fresh module: the second call fails,
      yet both specs are kept. */
  lemma DuplicateRegistrationKeepsBothSpecs<C, R>(m: RpcMethod<C, R>, m': RpcMethod<C, R>)
    requires m.name == m'.name
    ensures var s1 := AfterAddMethod(ModuleState([], map[]), m);
            var s2 := AfterAddMethod(s1.0, m');
      && s1.1.Ok? && s2.1.Err?
      && s2.0.methods == [m.spec, m'.spec]
      && s2.0.table.Keys == {m.name}
  {
  }

  /** `add_method` with the push moved after a successful registration:
      a rejected call changes nothing. */
  function AddMethodAtomic<C, R>(s: ModuleState<C, R>, m: RpcMethod<C, R>): (out: (ModuleState<C, R>, Result<(), RegisterMethodError>))
    ensures out.1.Err? ==> out.0 == s
    ensures out.1.Ok? ==> out == AfterAddMethod(s, m)
    ensures out.1.Err? <==> AfterAddMethod(s, m).1.Err?
  {
    if m.name in s.table then (s, Err(AlreadyRegistered(m.name)))
    else (ModuleState(s.methods + [m.spec], s.table[m.name := m.handler]), Ok(()))
  }

  /** The atomic variant keeps every collected spec backed by a handler. */
  lemma {:induction false} AtomicAddKeepsSpecsMatched<C, R>(s: ModuleState<C, R>, ms: seq<RpcMethod<C, R>>)
    requires SpecsMatchTable(s)
    requires forall i :: 0 <= i < |ms| ==> SpecNamedAfterMethod(ms[i])
    ensures SpecsMatchTable(AddAllAtomic(s, ms))
    decreases |ms|
  {
    if |ms| > 0 {
      var t := AddMethodAtomic(s, ms[0]).0;
      assert SpecsMatchTable(t) by {
        if ms[0].name !in s.table {
          assert |s.table[ms[0].name := ms[0].handler]| == |s.table| + 1 by {
            assert s.table[ms[0].name := ms[0].handler].Keys == s.table.Keys + {ms[0].name};
          }
        }
      }
      assert forall i :: 0 <= i < |ms[1..]| ==> SpecNamedAfterMethod(ms[1..][i]) by {
        forall i | 0 <= i < |ms[1..]| ensures SpecNamedAfterMethod(ms[1..][i]) {
          assert ms[1..][i] == ms[i + 1];
        }
      }
      AtomicAddKeepsSpecsMatched(t, ms[1..]);
    }
  }

  function AddAllAtomic<C, R>(s: ModuleState<C, R>, ms: seq<RpcMethod<C, R>>): ModuleState<C, R>
    decreases |ms|
  {
    if |ms| == 0 then s else AddAllAtomic(AddMethodAtomic(s, ms[0]).0, ms[1..])
  }

  /** The inner `jsonrpsee::RpcModule<Context>`: the context and a table from
      method name to handler. Registering a name already present fails. */
  class RpcModule<C, R> {
    const context: C
    var callbacks: map<string, ServerHandler<C, RpcResult<R>>>

    constructor (context: C)
      ensures this.context == context && callbacks == map[]
    {
      this.context := context;
      callbacks := map[];
    }

    method RegisterMethod(name: string, callback: SyncCallback<C, RpcResult<R>>) returns (r: Result<(), RegisterMethodError>)
      modifies this
      ensures r.Err? <==> name in old(callbacks)
      ensures r.Err? ==> r.error == AlreadyRegistered(name) && callbacks == old(callbacks)
      ensures r.Ok? ==> callbacks == old(callbacks)[name := Sync(callback)]
    {
      if name in callbacks {
        r := Err(AlreadyRegistered(name));
      } else {
        callbacks := callbacks[name := Sync(callback)];
        r := Ok(());
      }
    }

    method RegisterAsyncMethod(name: string, callback: AsyncCallback<C, RpcResult<R>>) returns (r: Result<(), RegisterMethodError>)
      modifies this
      ensures r.Err? <==> name in old(callbacks)
      ensures r.Err? ==> r.error == AlreadyRegistered(name) && callbacks == old(callbacks)
      ensures r.Ok? ==> callbacks == old(callbacks)[name := Async(callback)]
    {
      if name in callbacks {
        r := Err(AlreadyRegistered(name));
      } else {
        callbacks := callbacks[name := Async(callback)];
        r := Ok(());
      }
    }
  }

  /** `EasyModule<Context>`: the inner module plus the list of collected specs. */
  class EasyModule<C, R> {
    var inner: RpcModule<C, R>
    var methods: seq<OpenRpc.Method>

    function State(): ModuleState<C, R>
      reads this, inner
    {
      ModuleState(methods, inner.callbacks)
    }

    /** `EasyModule::new`: no specs yet, and the context handed to a fresh inner module. */
    constructor (context: C)
      ensures fresh(inner)
      ensures methods == [] && inner.context == context && inner.callbacks == map[]
    {
      inner := new RpcModule(context);
      methods := [];
    }

    /** `EasyModule::add_method` */
    method AddMethod(m: RpcMethod<C, R>) returns (r: Result<(), RegisterMethodError>)
      modifies this, inner
      ensures inner == old(inner) && inner.context == old(inner.context)
      ensures (State(), r) == AfterAddMethod(old(State()), m)
    {
      methods := methods + [m.spec];
      match m.handler {
        case Sync(handler) =>
          var registered := inner.RegisterMethod(m.name, handler);
          if registered.Err? {
            return Err(registered.error);
          }
        case Async(handler) =>
          var registered := inner.RegisterAsyncMethod(m.name, handler);
          if registered.Err? {
            return Err(registered.error);
          }
      }
      r := Ok(());
    }

    /** `EasyModule::into_jsonrpsee_module`: the inner module; the collected specs go nowhere. */
    method IntoJsonrpseeModule() returns (m: RpcModule<C, R>)
      ensures m == inner
    {
      m := inner;
    }
  }

  /** `impl From<EasyModule<Context>> for RpcModule<Context>` */
  method FromEasyModule<C, R>(val: EasyModule<C, R>) returns (m: RpcModule<C, R>)
    ensures m == val.inner
  {
    m := val.IntoJsonrpseeModule();
  }
}
