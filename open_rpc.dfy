/** The OpenRPC 1.3.2 document types of `src/spec.rs`: the records the
    generated `spec()` functions fill in, their builder defaults, and how a
    document renders itself as text. */
module OpenRpc {
  import opened Wrappers
  import RustSyntax

  /** The JSON Schema that `schemars::schema_for!(T)` produces for a type; its content is not modelled. */
  datatype Schema = SchemaOf(ty: RustSyntax.Ty)

  /** A `serde_json::Value`, not modelled further. */
  datatype JsonValue = JsonValue(text: string)

  newtype Int32 = x: int | -0x8000_0000 <= x < 0x8000_0000

  /** The OpenRPC specification version every document states. */
  const OpenRpcVersion: string := "1.3.2"

  datatype OpenRpcSpec = OpenRpcSpec(
    openrpc: string,
    info: Info,
    servers: Option<seq<Server>>,
    methods: seq<Method>,
    components: Option<Components>,
    externalDocs: Option<ExternalDocumentation>)

  datatype Info = Info(
    title: string,
    description: Option<string>,
    termsOfService: Option<string>,
    contact: Option<Contact>,
    license: Option<License>,
    version: string)

  datatype Contact = Contact(name: Option<string>, url: Option<string>, email: Option<string>)

  datatype License = License(name: string, url: Option<string>)

  datatype Server = Server(
    name: string,
    url: string,
    summary: Option<string>,
    description: Option<string>,
    variables: Option<map<string, ServerVariable>>)

  datatype ServerVariable = ServerVariable(enumValues: Option<seq<string>>, defaultValue: string, description: Option<string>)

  /** Method Object: the interface of one method; `name` is the JSON-RPC `method` field. */
  datatype Method = Method(
    name: string,
    tags: Option<seq<Tag>>,
    summary: Option<string>,
    description: Option<string>,
    externalDocs: Option<ExternalDocumentation>,
    params: seq<ContentDescriptor>,
    result: Option<ContentDescriptor>,
    deprecated: Option<bool>,
    servers: Option<seq<Server>>,
    errors: Option<seq<Error>>,
    links: Option<seq<Link>>,
    paramStructure: Option<string>,
    examples: Option<seq<ExamplePairing>>)

  /** Content Descriptor Object: one parameter or the result. */
  datatype ContentDescriptor = ContentDescriptor(
    name: string,
    summary: Option<string>,
    description: Option<string>,
    required: Option<bool>,
    schema: Schema,
    deprecated: Option<bool>)

  datatype Example = Example(
    name: Option<string>,
    summary: Option<string>,
    description: Option<string>,
    value: Option<JsonValue>,
    externalValue: Option<string>)

  datatype ExamplePairing = ExamplePairing(
    name: string,
    description: Option<string>,
    summary: Option<string>,
    params: seq<Example>,
    result: Option<Example>)

  datatype Link = Link(
    name: string,
    description: Option<string>,
    summary: Option<string>,
    methodName: string,
    params: Option<map<string, JsonValue>>,
    server: Option<Server>)

  datatype Error = Error(code: Int32, message: string, data: Option<JsonValue>)

  datatype Components = Components(
    contentDescriptors: Option<map<string, ContentDescriptor>>,
    schemas: Option<map<string, Schema>>,
    examples: Option<map<string, Example>>,
    links: Option<map<string, Link>>,
    errors: Option<map<string, Error>>,
    examplePairingObjects: Option<map<string, ExamplePairing>>,
    tags: Option<map<string, Tag>>)

  datatype Tag = Tag(
    name: string,
    summary: Option<string>,
    description: Option<string>,
    externalDocs: Option<ExternalDocumentation>)

  datatype ExternalDocumentation = ExternalDocumentation(description: Option<string>, url: string)

  /** `env!("CARGO_PKG_NAME")` and `env!("CARGO_PKG_VERSION")`, expanded in the
      crate that defines these types. */
  datatype CrateEnv = CrateEnv(pkgName: string, pkgVersion: string)

  /** The values handed to `Info::builder()`'s setters; `None` is a setter not called. */
  datatype InfoBuilder = InfoBuilder(
    title: Option<string>,
    description: Option<string>,
    termsOfService: Option<string>,
    contact: Option<Contact>,
    license: Option<License>,
    version: Option<string>)

  const NoInfoSetters: InfoBuilder := InfoBuilder(None, None, None, None, None, None)

  /** `Info::builder()...build()`: unset optional fields stay `None`, and the
      title and version fall back to the crate's package name and version. */
  function BuildInfo(b: InfoBuilder, env: CrateEnv): (r: Info)
    ensures r.title == (if b.title.Some? then b.title.value else env.pkgName)
    ensures r.version == (if b.version.Some? then b.version.value else env.pkgVersion)
    ensures r.description == b.description && r.termsOfService == b.termsOfService
    ensures r.contact == b.contact && r.license == b.license
  {
    Info(
      if b.title.Some? then b.title.value else env.pkgName,
      b.description, b.termsOfService, b.contact, b.license,
      if b.version.Some? then b.version.value else env.pkgVersion)
  }

  /** The values handed to `OpenRpcSpec::builder()`'s setters. `methods` has no
      default, so `build()` is only available once it is set; `openrpc` has no
      setter at all. */
  datatype SpecBuilder = SpecBuilder(
    info: Option<Info>,
    servers: Option<seq<Server>>,
    methods: seq<Method>,
    components: Option<Components>,
    externalDocs: Option<ExternalDocumentation>)

  function BuildSpec(b: SpecBuilder, env: CrateEnv): (r: OpenRpcSpec)
    ensures r.openrpc == "1.3.2"
    ensures r.methods == b.methods
    ensures r.info == (if b.info.Some? then b.info.value else BuildInfo(NoInfoSetters, env))
    ensures r.servers == b.servers && r.components == b.components && r.externalDocs == b.externalDocs
  {
    OpenRpcSpec(
      OpenRpcVersion,
      if b.info.Some? then b.info.value else BuildInfo(NoInfoSetters, env),
      b.servers, b.methods, b.components, b.externalDocs)
  }

  /** A document built from its methods alone: version 1.3.2, the crate's
      name and version as title and version, and nothing else set. */
  lemma BuildFromMethodsOnly(methods: seq<Method>, env: CrateEnv)
    ensures var r := BuildSpec(SpecBuilder(None, None, methods, None, None), env);
      && r.openrpc == OpenRpcVersion
      && r.info == Info(env.pkgName, None, None, None, None, env.pkgVersion)
      && r.servers.None? && r.components.None? && r.externalDocs.None?
      && r.methods == methods
  {
  }

  datatype SerdeError = SerdeError(message: string)

  /** `serde_json::to_string` and `serde_json::to_string_pretty` on a document; not modelled further. */
  datatype Serializer = Serializer(
    compact: OpenRpcSpec -> Result<string, SerdeError>,
    pretty: OpenRpcSpec -> Result<string, SerdeError>)

  const SerializationFailed: string := "<OpenRpcSpec: serialization failed>"

  /** `impl Display for OpenRpcSpec`: pretty JSON under `{:#}`, compact JSON
      otherwise; a serialisation error is written as a fixed placeholder, so
      formatting itself never fails. */
  function Display(spec: OpenRpcSpec, alternate: bool, json: Serializer): (out: string)
    ensures alternate && json.pretty(spec).Ok? ==> out == json.pretty(spec).value
    ensures !alternate && json.compact(spec).Ok? ==> out == json.compact(spec).value
    ensures (if alternate then json.pretty(spec) else json.compact(spec)).Err? ==> out == SerializationFailed
  {
    var jsonResult := if alternate then json.pretty(spec) else json.compact(spec);
    match jsonResult
    case Ok(text) => text
    case Err(_) => SerializationFailed
  }

  /** `OpenRpcSpec::to_string_pretty`, i.e. `format!("{self:#}")`. */
  function ToStringPretty(spec: OpenRpcSpec, json: Serializer): (out: string)
    ensures json.pretty(spec).Ok? ==> out == json.pretty(spec).value
    ensures json.pretty(spec).Err? ==> out == SerializationFailed
  {
    Display(spec, true, json)
  }
}
