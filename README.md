# plugin-loader, modelled in Dafny

This is a model of the plugin loader of `weedz/plugin-loader`, with proofs about it.
A host application calls `Loader` with a list of plugin names and an options object.
The loader then runs three phases:

1. **Discovery.** It reads each plugin's manifest into a `Map`, keyed by the requested name.
2. **Dependency check.** It checks every manifest's dependencies against the versions it finds. A dependency it has not seen yet is fetched into the same map, and that map is still being iterated.
3. **Activation.** It hands each manifest to a *handler*, chosen by the manifest's `type`, and collects the results in a `plugins` map.

The repository holds three generations of this loader: `src/index.ts`, `index.ts` and `lib/PluginLoader.ts`. It also holds a small publish/subscribe hub, `lib/EventTransmitter.ts`.

The files and what they model:

| file | module | models |
|---|---|---|
| `manifests.dfy` | `Manifests` | Manifests, dependencies, handler arguments, symbolic handler results and the error values. |
| `insertion_maps.dfy` | `InsertionMaps` | JavaScript `Map`: insertion-ordered keys, with `set` replacing in place. Both the value (`InsertionMap`) and the mutable object (`MutableMap`). |
| `resolution.dfy` | `Resolution` | Discovery and the dependency check. They are identical in all three loaders, except for what `satisfies` is given. |
| `handlers.dfy` | `Handlers` | Handler selection from `type` (a string or a chain of tags), and the host that records every handler call. |
| `loader.dfy` | `Loader` | `load` and `Loader` of `src/index.ts`: dependencies are loaded depth first, and a name already in `plugins` is skipped. |
| `flat_loader.dfy` | `FlatLoader` | `Loader` of `index.ts`: every entry is activated in map order. |
| `legacy_loader.dfy` | `LegacyLoader` | `Loader` of `lib/PluginLoader.ts`: one positional handler call per entry. |
| `events.dfy` | `Events` | The `EventTransmitter` class. |

Things the model abstracts:

- **Manifests on disk.** Fetching is a given map from requested name to manifest (a `Store`). A missing name means that the import or the version parse failed.
- **`satisfies`.** The semantic-version test is a given function `sat`.
- **Handlers.** Handlers are opaque. A handler call is recorded as the symbolic value `Call(callee, argument)`, and the host object keeps the sequence of calls (`HandlerHost.trace`). "Which handlers ran, in which order, with what" is therefore a property of the trace.
- **Async code.** Each `async` function becomes a function or method that returns an `Outcome`: `Ok`, or `Fail` with the error a rejected promise would carry. The recursive `checkDependencies` and `load` calls are not awaited in the source. They are modelled as calls that run to completion: their changes to the shared maps and their handler calls stay, and their failure is dropped.
- **Termination.** The model covers dependency graphs without cycles. This is stated by a ghost `rank` that decreases along every dependency edge.

Each operation that works in place is modelled twice:

- a `method` over the mutable objects, with the source's loops;
- a specification function over values.

Each method's postcondition equates the two. The lemmas state the properties of the loader in terms of the specification functions.

Behaviour of the code that the model makes explicit:

- **A dependency can be activated twice.** In `src/index.ts` the skip rule (`plugins.get(name)`, src/index.ts:130-132) only guards top-level entries, and a nested `load` (src/index.ts:75) never consults `plugins`. Discovery keeps the request order as the map's key order (`Resolution.DiscoverOrder`). When `a` is requested before `b`, and `b` depends on `a`, then `a`'s handler runs twice. The second record overwrites the first and names `b` as the dependent (`Loader.DependencyReloaded`). With the order reversed, and `a`'s handler settling before `b`'s, `a` is loaded once, by `b` (`Loader.DependencyLoadedOnce`). If `a`'s handler settles later, the top-level `plugins.get` does not find `a` yet and loads it again (see Left out). So a dependency's handler can run more than once, although the top-level skip rule suggests one activation per plugin.
- **Nested failures are lost.** A nested `checkDependencies` or `load` failure never reaches `Loader`, because those calls are not awaited.
  - In the dependency phase nothing is lost by this. Every fetched manifest becomes an entry of the live map, and the outer loop reaches it later. So an unmet dependency of any manifest in the final map still rejects the run (`Resolution.ValidatedClosure`).
  - In activation something is lost. A dependency that fails to load does not stop its dependent from loading (`Loader.LoadFromOutcome`).
- **Handler errors depend on the position in a chain.**
  - A chain whose first tag is unregistered fails with a `TypeError` (`NotAFunction`), because that handler is looked up with no check.
  - Only the later tags of a chain produce `Handler "x" not found`.
  - When every tag is registered, the last handler's result is called as the activating handler (src/index.ts:94). If that result is not a function, `load` rejects with a `TypeError`. This failure is not modelled (see Left out).
  - An unregistered string `type` falls back to the `default` handler.
- **`lib/PluginLoader.ts` accepts array types.** The oldest loader has no array branch. An array `type` is still truthy, and it is used as a property key through its comma-joined string form (`LegacyLoader.Joined`). The model follows that.
- **No cycle detection.** No loader detects dependency cycles. A cycle that closes through a dependency whose version check fails is rejected with `Dependency not met` (src/index.ts:60 throws before the recursive call at :63). A cycle whose members all pass recurses, unawaited, until the call stack overflows (src/index.ts:55-63, :68-75). That `RangeError` rejects a nested promise nobody awaits, so the top-level call never reports it.
- **`optional` is never read.** The `optional` flag of a dependency entry is declared by the manifest format, but no loader reads it. Every declared dependency is required.

## Model

| member | source | states |
|---|---|---|
| InsertionMaps.InsertionMap.Set | src/index.ts:114 | `Map.set` maps the key to the new value. A present key keeps its place in the iteration order, and a new key is appended. The keys stay free of duplicates. |
| InsertionMaps.Empty | src/index.ts:106 | `new Map()` has no keys and no entries. |
| InsertionMaps.MutableMap.constructor | src/index.ts:106 | A fresh `Map` object is empty. |
| InsertionMaps.MutableMap.Set | src/index.ts:57 | Setting in place leaves the object holding exactly the value-level `Set` of its old contents. |
| Resolution.FirstMissing | src/index.ts:108-117 | There is no missing name exactly when every requested name can be fetched. Otherwise the result is the first requested name that cannot be fetched: every name before it can be. |
| Resolution.DiscoverFrom | src/index.ts:108-117 | From request `i` on, discovery only adds keys: on success every remaining request is a key. A rejection is `Invalid manifest` for a remaining request the store cannot produce. |
| Resolution.Discover | src/index.ts:106-117 | Discovery from an empty map: on success every request is a key of a well-formed map. A rejection names a request the store cannot produce. |
| Resolution.DiscoverFromSpec | src/index.ts:108-118 | From any point of the request list, discovery rejects exactly when a later name cannot be fetched, with `Invalid manifest` for the first such name. Otherwise the keys are the earlier keys plus the remaining names, and each holds its manifest with the request recorded as alias. |
| Resolution.DiscoverSpec | src/index.ts:106-118 | Discovery rejects exactly when some requested name cannot be fetched, and names the first one. Otherwise the keys are exactly the requested names, in order of first request, which is the request order when no name repeats. Each holds its stored manifest, with `pluginPath` set to the request exactly when the declared name differs from it. |
| InsertionMaps.AppendNewDistinct | src/index.ts:114 | Setting names that are new and pairwise distinct, one after another, appends them to the key order in exactly their order. |
| Resolution.DiscoverFromOrder | src/index.ts:108-117 | From request `i` on, discovery leaves the earlier keys in place, followed by each remaining request not yet a key, in order of first occurrence. |
| Resolution.DiscoverOrder | src/index.ts:106-117 | The discovered map's key order is the requests in order of first occurrence. When no name is requested twice, it is exactly the request list. |
| Resolution.DiscoverPlugins | src/index.ts:106-118 | The in-place discovery loop succeeds exactly when `Discover` does. It leaves the same map, or rejects with the same error. |
| Resolution.DependencyVerdict | src/index.ts:54-61 | One dependency is met exactly when its manifest can be fetched and its version satisfies the requirement. Otherwise the failure is the fetch failure, or `Dependency not met` with the expected requirement and the version found. |
| Resolution.FirstUnmet | src/index.ts:53-61 | The verdict is `Ok` exactly when every dependency can be fetched and satisfies its requirement. A failure is the verdict on the first failing dependency: every dependency before it is `Ok`. |
| Resolution.CheckFrom | src/index.ts:52-66 | `checkDependencies` only appends to the map, and what it appends are unmodified stored manifests. It rejects with the verdict on the first failing direct dependency; the failures of nested calls are dropped. |
| Resolution.CheckFromPresent | src/index.ts:53-64 | When `checkDependencies` passes from dependency `i` on, each of those dependencies is a key of the map it leaves. |
| Resolution.CheckFromAll | src/index.ts:52-66 | A whole `checkDependencies` call rejects exactly as `FirstUnmet` on the manifest's dependencies. On success each dependency is in the map. |
| Resolution.CheckAllFrom | src/index.ts:120-124 | The dependency phase keeps the map consistent with the store, and only ever appends stored manifests to it. |
| Resolution.CheckAllFromSucceeds | src/index.ts:120-124 | When the dependency phase succeeds, every entry from the current one on, including entries appended during the loop, has its dependencies met and present. |
| Resolution.CheckAllFromFailure | src/index.ts:120-124 | A failure of the dependency phase is the first unmet dependency of one of the entries from the current one on. |
| Resolution.CheckAllFromSpec | src/index.ts:120-124 | On success every entry from the current one on has all of its dependencies met and present. A failure is the failure of one of those entries. |
| Resolution.ValidatedClosure | src/index.ts:120-124 | The dependency phase succeeds exactly when every manifest in the map it leaves has all of its dependencies fetchable and satisfied. On success the map is closed under dependencies, every dependency's version satisfies its dependent's requirement, and the requested entries are unchanged. |
| Resolution.CheckDependencies | src/index.ts:52-66 | The in-place `checkDependencies`, including its unawaited recursive call, leaves the map and returns the outcome that `CheckFrom` specifies. |
| Resolution.CheckEnabled | src/index.ts:120-124 | The loop over the live `enabledPlugins.values()`, which also visits entries appended during the loop, ends as `CheckAllFrom` specifies. |
| Handlers.ChainFromRegistered | src/index.ts:81-85 | When every remaining tag is registered, the `reduce` calls each tag's handler with the previous result, and chooses the last result. |
| Handlers.ChainFromStops | src/index.ts:82-84 | At the first unregistered tag, the `reduce` fails with `Handler "x" not found`, after the calls for the tags before it have been made. |
| Handlers.ChainFrom | src/index.ts:81-86 | The `reduce` only appends calls, at most one per remaining tag. A failure is `Handler "x" not found` for a remaining unregistered tag. A success chooses the last result (the initial one when no tag remains). |
| Handlers.ChainSelection | src/index.ts:80-86 | An array type fails with a `TypeError` when its first tag is unregistered. When all tags are registered, it calls every tag's handler in order, each given the previous result, and chooses the last result. Otherwise it stops at the first later unregistered tag with `Handler "x" not found`. |
| Handlers.StringSelection | src/index.ts:87-91 | A string type calls no handler during selection. It selects its registered handler when it is non-empty and registered, and otherwise the `default` handler. |
| Handlers.HandlerFor | src/index.ts:88-90 | A string type selects a registered handler: its own when it is non-empty and registered, else `default`. |
| Handlers.Select | src/index.ts:78-91 | A non-array type calls nothing during selection and always chooses a registered handler. An array type makes at most one call per tag (one for the empty array's `undefined` key), and when it chooses, it chooses the last call's result. |
| Handlers.HandlerHost.Invoke | src/index.ts:94 | A handler call returns the result for that callee and argument, and appends exactly that call to the trace. |
| Handlers.SelectHandler | src/index.ts:78-91 | Selection run against the host appends exactly the selection's chain calls to the trace, and returns what `Select` chooses. |
| Loader.FirstAbsent | src/index.ts:69-74 | There is no absent name exactly when every dependency name is in `availablePlugins`. Otherwise the result is the first declared dependency that is absent: every dependency before it is in `availablePlugins`. |
| Loader.LoadVerdict | src/index.ts:69-91 | `load` resolves exactly when every dependency name is available and a handler is chosen. A missing-dependency error names an absent dependency and the plugin as its dependent. |
| Loader.Activate | src/index.ts:78-99 | The end of `load` succeeds exactly when selection chooses a handler. On failure `plugins` is unchanged and the error is the selection's. On success only `plugins[p.name]` changes, to a record holding the manifest and the dependent. |
| Loader.ActivateSpec | src/index.ts:78-99 | The end of `load` fails exactly when selection refuses. On success its last handler call is the plugin's activation, and its record is stored under the declared name with the dependent. |
| Loader.LoadFrom | src/index.ts:68-100 | `load` keeps `plugins` free of duplicate keys, loses no key and undoes no handler call. |
| Loader.LoadFromOutcome | src/index.ts:68-91 | `load` fails with `Error loading dependency` for the first dependency that is not available, and otherwise with the selection's error or not at all. Failures of the dependencies' own loads do not count. |
| Loader.LoadFromRecord | src/index.ts:93-99 | When `load` succeeds, the handler was chosen, the last handler call is the plugin's activation, and `plugins[name]` is `{plugin, manifest, dependent}` for that call. |
| Loader.LoadFromOrder | src/index.ts:69-76 | Dependencies come first: when `load` succeeds, the activation of each direct dependency that loads happens before the plugin's own. |
| Loader.ActivateAllFrom | src/index.ts:129-138 | The activation loop keeps `plugins` free of duplicates, loses no key and undoes no call. |
| Loader.ActivateAllSpec | src/index.ts:129-138 | The activation loop succeeds when every entry loads. On success every entry's declared name is in `plugins`. A failure is the `load` failure of one of the entries. |
| Loader.ActivateAllIdle | src/index.ts:129-137 | Once every declared name is in `plugins`, the loop calls no handler and changes nothing. |
| Loader.Load | src/index.ts:68-100 | The in-place `load`, with its unawaited recursive loads, changes `plugins` and the trace exactly as `LoadFrom` specifies. |
| Loader.LoaderSpec | src/index.ts:102-141 | A whole `Loader` run (discovery, dependency check, activation) returns a `plugins` map free of duplicate keys. |
| Loader.LoaderRejectsUnfetchable | src/index.ts:108-117 | A requested name that cannot be fetched rejects the run with `Invalid manifest` for the first such name, before any handler runs. |
| Loader.LoaderRejectsUnmet | src/index.ts:59-61 | A requested plugin with a dependency whose version fails the declared range rejects the run, before any handler runs. |
| Loader.LoaderCoversRequests | src/index.ts:127-140 | A successful run keeps the earlier calls, and has every requested manifest's declared name as a key of `plugins`. |
| Loader.DependencyReloaded | src/index.ts:129-134 | With `a` requested before `b`, which depends on `a`, the loop appends the calls a, a, b: `a`'s handler runs twice, and `plugins["a"]` names `b` as its dependent. |
| Loader.DependencyLoadedOnce | src/index.ts:129-137 | With `b` requested before `a`, the loop appends the calls a, b: each handler runs once and `a` is skipped at top level. |
| Loader.LoaderOptions.constructor | src/index.ts:102 | The options object holds the given path, handlers and `api`. |
| Loader.DefaultApi | src/index.ts:103-105 | A given `api` is kept, and an absent one becomes `{}`. |
| Loader.LoadPlugins | src/index.ts:102-141 | `Loader` writes the `{}` default for `api` back into the options. Its outcome and handler calls are those of `LoaderSpec`, and it returns a freshly allocated `plugins` map on success and none on rejection. |
| Loader.ActivateEnabled | src/index.ts:127-138 | The in-place activation loop ends as `ActivateAllFrom` specifies. |
| FlatLoader.ActivateEachFrom | index.ts:87-111 | The flat activation loop keeps `plugins` free of duplicates and only extends the trace. |
| FlatLoader.ActivateEachOutcome | index.ts:88-111 | Activation succeeds exactly when every entry's handler can be selected. Otherwise it fails with the error of the first entry whose selection fails. |
| FlatLoader.ActivateEachTrace | index.ts:88-111 | The handler calls are each entry's own selection calls and activation, in insertion order, up to the first refusal. No entry is skipped, and dependencies get no precedence. |
| FlatLoader.ActivateEachNames | index.ts:106-110 | On success, the keys of `plugins` are exactly the declared names of the entries. |
| FlatLoader.ActivateEachLastWins | index.ts:106-110 | On success, each declared name holds the activation of the last entry that declares it. |
| FlatLoader.FlatLoaderSpec | index.ts:56-114 | A whole run of the `index.ts` loader returns a `plugins` map free of duplicate keys. |
| FlatLoader.FlatLoaderCoversRequests | index.ts:87-113 | A successful run has every requested manifest's declared name as a key of `plugins`. |
| FlatLoader.LoaderOptions.constructor | index.ts:56-63 | The options object holds the given handlers and `api`. |
| FlatLoader.LoadPlugins | index.ts:56-114 | `Loader` writes the `api` default back. Its outcome and handler calls are those of `FlatLoaderSpec`, and it returns a freshly allocated map, only on success. |
| FlatLoader.ActivateEach | index.ts:87-111 | The in-place loop ends as `ActivateEachFrom` specifies. |
| LegacyLoader.Joined | lib/PluginLoader.ts:84-86 | Defined as the elements joined by commas, the property key JavaScript makes of an array. The contract states the edge cases: the element itself for a one-element array, and empty for an empty one. |
| LegacyLoader.LegacyHandler | lib/PluginLoader.ts:84-86 | The selected handler is always a registered one. |
| LegacyLoader.LegacyHandlerAgrees | lib/PluginLoader.ts:84-86 | For an absent or string `type` the oldest loader selects the handler the newer loaders select, with no call. A one-element array selects its element's handler, and an unregistered joined key selects `default`. |
| LegacyLoader.LegacyCall | lib/PluginLoader.ts:88-91 | Activation is one call of a registered handler with the positional `(manifest, path, api)`. |
| LegacyLoader.LegacyActivateFrom | lib/PluginLoader.ts:81-93 | The oldest activation loop keeps `plugins` free of duplicate keys. |
| LegacyLoader.LegacyTrace | lib/PluginLoader.ts:81-93 | The loop appends exactly one handler call per entry, in insertion order, to the calls made before it. The j-th appended call is the positional `(manifest, path, api)` call for entry j. |
| LegacyLoader.LegacyPlugins | lib/PluginLoader.ts:88-92 | The keys of `plugins` are exactly the declared names, and each holds the activation of the last entry declaring it. |
| LegacyLoader.LegacyLoaderSpec | lib/PluginLoader.ts:49-96 | A whole run of the oldest loader returns a `plugins` map free of duplicate keys. |
| LegacyLoader.LegacyRejectsUnmet | lib/PluginLoader.ts:40-42 | A dependency for which `satisfies` rejects the whole dependency entry rejects the run, before any handler runs. |
| LegacyLoader.LegacyLoaderSucceeds | lib/PluginLoader.ts:74-95 | When every request can be fetched, the run fails exactly when the dependency check does. On success there is one handler call per entry, and every requested declared name is in `plugins`. |
| LegacyLoader.LoadPlugins | lib/PluginLoader.ts:49-96 | `Loader` writes the `api` default back. Its outcome and handler calls are those of `LegacyLoaderSpec`, and it returns a freshly allocated map, only on success. |
| LegacyLoader.LegacyActivate | lib/PluginLoader.ts:80-93 | The in-place loop ends as `LegacyActivateFrom` specifies. |
| Events.Without | lib/EventTransmitter.ts:20 | The filter leaves no occurrence of the listener. |
| Events.WithoutCounts | lib/EventTransmitter.ts:20 | The filter keeps every other listener as often as it occurred, and drops every occurrence of the listener. |
| Events.WithoutConcat | lib/EventTransmitter.ts:20 | The filter keeps the order of what it keeps: it distributes over concatenation. |
| Events.WithoutAbsent | lib/EventTransmitter.ts:20 | Filtering out a listener that is absent changes nothing. |
| Events.Subscribed | lib/EventTransmitter.ts:10-14 | `subscribe` adds the type if it was missing, and no other, and its array grows by one element, the listener. |
| Events.Unsubscribed | lib/EventTransmitter.ts:19-21 | `unsubscribe` throws exactly when the type has no array. Otherwise the types stay the same, and the listener no longer occurs under the type. |
| Events.Dispatch | lib/EventTransmitter.ts:23-30 | `dispatchEvent` returns `false` exactly for a type without an array. It makes one call per occurrence in the array, in order, each with the data. |
| Events.SubscribeAppends | lib/EventTransmitter.ts:10-14 | `subscribe` adds one occurrence of the listener at the end of its type's array, creating the array if needed, and touches no other type. |
| Events.SubscribeUnsubscribe | lib/EventTransmitter.ts:10-21 | Unsubscribing a listener just subscribed (once) restores the listeners, except that a type created by that subscription stays with an empty array. |
| Events.RoundTripDispatch | lib/EventTransmitter.ts:23-29 | For a type never subscribed, dispatch returns `false`. After a subscribe/unsubscribe round trip, it returns `undefined` and calls nobody. |
| Events.UnsubscribeRemovesAll | lib/EventTransmitter.ts:19-21 | One `unsubscribe` removes every occurrence of the listener and keeps the rest, including other types. Repeating it changes nothing. |
| Events.SubscribeTwice | lib/EventTransmitter.ts:10-30 | A listener subscribed twice receives each event twice, and a single unsubscribe stops both deliveries. |
| Events.EventTransmitter.constructor | lib/EventTransmitter.ts:6-8 | A new transmitter has no listeners. |
| Events.EventTransmitter.Subscribe | lib/EventTransmitter.ts:10-18 | Updates `listeners` as `Subscribed`, and returns the unsubscriber for that type and listener. |
| Events.EventTransmitter.Unsubscribe | lib/EventTransmitter.ts:19-21 | Replaces the type's array with the filtered one. For a type that was never subscribed, it throws a `TypeError` and changes nothing. |
| Events.EventTransmitter.Unsubscribing | lib/EventTransmitter.ts:15-17 | Calling the returned function unsubscribes the same listener from the same type. |
| Events.EventTransmitter.DispatchEvent | lib/EventTransmitter.ts:23-30 | Returns `false` and calls nobody for an unknown type. Otherwise it calls each listener of the type once per occurrence, in order, with the data. |

## Left out

- Reading `plugin.json` files, the module cache, `path` joining, and the `SemVer` parse are not modelled. They are a given map from names to manifests. `satisfies` is a given function.
- `validateManifest` always returns true, so its `Invalid manifest file` branch cannot happen. The model drops that branch.
- Logging through `options.log`, and `chalk` colouring, are not modelled. Neither affects results.
- The `depth` parameter of `load` is not modelled. It only indents log lines.
- A handler is assumed to return, never to throw. Only selection failures are modelled as errors from the activation phase.
- Handlers.Select: the last result of a chain is assumed to be callable. In the source (src/index.ts:81-86 and :94; index.ts:93-107) it is whatever the last handler returned, and `await handler(...)` throws a `TypeError` when that is not a function. An async handler returns a promise, so such a chain always fails there. `Loader.LoadVerdict`, `Loader.LoadFromOutcome` and `FlatLoader.ActivateEachOutcome` say a fully registered chain activates; the source instead rejects whenever the chain's result is not a function.
- Awaiting a handler's promise is modelled as the handler's immediate result.
- Loader.Load: nested loads are modelled as finishing before their caller continues. In the source each nested `plugins.set` waits for its handler's promise. Within one `load`, the calls it makes itself come in the modelled order. Which top-level loads the `plugins.get` skip lets through, and so the whole trace, can differ. With `enabledPlugins` [b, a] and `b` depending on `a`, if `a`'s handler settles after `b`'s, the top-level check finds no `a` and loads it again: the source calls a, b, a where `Loader.DependencyLoadedOnce` has a, b.
- Resolution.CheckDependencies: nested checks are modelled as finishing before their caller continues. In the source a nested check is suspended at its first `await`, so the order in which fetched manifests are appended to the map can differ from the model.
- A rejected nested promise is an unhandled rejection in the source. The model drops it.
- Cyclic dependencies are not modelled. The model takes an acyclicity witness `rank` (`Resolution.Ranked`) instead. In the source a cycle whose members all pass recurses until the call stack overflows, in unawaited nested calls, so the overflow is never reported to the caller.
- Resolution.Ranked: it also excludes cyclic stores that the source rejects cleanly, such as a cycle closing through a dependency whose version check fails (`Dependency not met`, src/index.ts:60). On such a store the model makes no statement. `Ranked` ranges over every manifest in the store, so a cycle among manifests that no run requests or reaches also puts the whole store outside every lemma that requires it.
- Property lookups on `options.handlers` that hit `Object.prototype` (a `type` such as `"constructor"`) are not modelled. Handler maps hold only the registered handlers.
- Events.EventTransmitter: `listeners` is a plain object in the source, so an event type naming an `Object.prototype` property (`"constructor"`, `"toString"`) finds a function there. `subscribe` then throws a `TypeError` at `push` (lib/EventTransmitter.ts:11-14), and `dispatchEvent` throws when it iterates the function (lib/EventTransmitter.ts:24-27). The model's map holds only subscribed types: it creates the list and appends, or reports no listeners.
- `for..in` over inherited enumerable keys of `dependencies` is not modelled. Dependencies are the manifest's own keys, in `Object.keys` order.
- Aliasing of manifest objects between the discovery map and the module cache is not modelled. Manifests are values.
- A falsy but present `api` value, such as `0` or `""`, is not modelled. It would also be replaced by `{}`; the model only distinguishes an absent `api`.
- Loader.Load: handlers receive a snapshot `Context` of the options. The source reads `options.api`, and nothing changes it during a run.
- A listener that re-enters the transmitter during `dispatchEvent` (subscribing or unsubscribing while the array is iterated) is not modelled. Listeners are identities, and their calls are recorded as deliveries.
- The module-level singleton `transmitter` (lib/EventTransmitter.ts:33-35) is not modelled separately. It is an `EventTransmitter` built by the constructor.
- `src/Plugin.ts` and the bundled default handlers (`lib/Handlers/Node.ts`, `src/Handlers/NodeHandler.ts`) are not part of this model. Handlers are opaque identities.
