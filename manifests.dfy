/** Plugin manifests, handler arguments and the loader's error values.

    The loader reads each plugin's `plugin.json`; here the result of reading
    and parsing every manifest is a given partial map from requested name to
    manifest (a `Store`). A name missing from the store is one whose import or
    whose version parse failed. */
module Manifests {

  datatype Option<+T> = None | Some(value: T)

  /** One entry of a manifest's dependency object. `optional` is declared by
      the manifest format but never read by any loader. */
  datatype Dependency = Dependency(name: string, range: string, optional: bool)

  /** The `type` field: absent, one handler tag, or an ordered chain of tags. */
  datatype PluginType = Untyped | Single(tag: string) | Chain(tags: seq<string>)

  /** A parsed manifest. `version` stands for the parsed semantic version;
      `pluginPath` is the name the manifest was requested under, when set. */
  datatype Manifest = Manifest(
    name: string,
    version: string,
    dependencies: seq<Dependency>,
    pluginPath: Option<string>,
    pluginType: PluginType)

  type Store = map<string, Manifest>

  /** Opaque identity of a registered handler function. */
  type HandlerId = nat

  /** The shared `api` value forwarded to every handler. */
  datatype Api = EmptyObject | HostApi(id: nat)

  /** What a handler is called with: the object `{manifest, path, api, previous?}`
      of the newer loaders, or the positional `(manifest, path, api)` of the oldest. */
  datatype HandlerArg =
    | Named(manifest: Manifest, path: string, api: Api, previous: Option<Instance>)
    | Positional(manifest: Manifest, path: string, api: Api)

  /** The value a handler call returns, identified by who was called with what. */
  datatype Instance = Call(callee: Callee, arg: HandlerArg)

  /** A callable: a registered handler, or the value returned by an earlier call. */
  datatype Callee = Registered(id: HandlerId) | Returned(result: Instance)

  /** What `satisfies` is asked to test a version against. */
  datatype Requirement = RangeOf(range: string) | WholeEntry(entry: Dependency)

  datatype LoadError =
    | InvalidManifest(requested: string)
    | FetchFailed(name: string)
    | DependencyNotMet(dependency: string, expected: Requirement, got: string)
    | DependencyMissing(dependency: string, dependent: string)
    | HandlerNotFound(tag: string)
    | NotAFunction(tag: string)

  datatype Outcome = Ok | Fail(error: LoadError)

  /** `satisfies(version, requirement)` of the semantic-version library, left uninterpreted. */
  type Satisfies = (string, Requirement) -> bool

  /** The manifest stored under a requested name: `pluginPath` records the
      request exactly when the declared name differs from it. */
  function Aliased(m: Manifest, requested: string): Manifest
  {
    if m.name != requested then m.(pluginPath := Some(requested)) else m
  }

  /** `m` is the store's manifest, except perhaps for `pluginPath`. */
  ghost predicate Agrees(m: Manifest, s: Manifest)
  {
    m.(pluginPath := s.pluginPath) == s
  }

  /** No dependency cycles: every dependency that the store can produce ranks
      strictly below the manifest that declares it. */
  ghost predicate Ranked(store: Store, rank: string -> nat)
  {
    forall n, j :: n in store && 0 <= j < |store[n].dependencies| && store[n].dependencies[j].name in store
      ==> rank(store[n].dependencies[j].name) < rank(n)
  }
}
