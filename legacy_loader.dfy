/** The oldest plugin loader, lib/PluginLoader.ts.

    Discovery is that of the newer loaders. The dependency check hands
    `satisfies` the whole dependency entry rather than its `version` range.
    Activation calls, for every entry in insertion order, the handler the
    `type` string selects, with the positional arguments
    `(manifest, path, api)`, and cannot fail: there are no handler chains. */
module LegacyLoader {
  import opened Manifests
  import opened InsertionMaps
  import opened Resolution
  import opened Handlers
  import Loader
  import opened FlatLoader

  /** Array.prototype.toString of an array of strings: the elements joined by commas. */
  function Joined(tags: seq<string>): (r: string)
    ensures |tags| == 1 ==> r == tags[0]
    ensures tags == [] ==> r == ""
  {
    if tags == [] then ""
    else if |tags| == 1 then tags[0]
    else tags[0] + "," + Joined(tags[1..])
  }

  /** The `plugin.type && options.handlers[plugin.type]` selection. The type
      is declared a string; an array read from a manifest is truthy and is
      used as a property key through its string form. */
  function LegacyHandler(p: Manifest, ctx: Context): (r: HandlerId)
    requires ctx.HasDefault()
    ensures r in ctx.handlers.Values
  {
    match p.pluginType
    case Untyped => ctx.handlers["default"]
    case Single(tag) => HandlerFor(tag, ctx)
    case Chain(tags) => if Joined(tags) in ctx.handlers then ctx.handlers[Joined(tags)] else ctx.handlers["default"]
  }

  /** For an absent or string `type` the oldest loader picks the handler the
      newer ones select, with no call made during selection. An array `type`
      is looked up by its joined string: a one-element array selects its
      element's handler, and an unregistered joined key selects the default. */
  lemma LegacyHandlerAgrees(p: Manifest, ctx: Context)
    requires ctx.HasDefault()
    ensures !p.pluginType.Chain? ==> Select(p, ctx) == Selected([], Chosen(Registered(LegacyHandler(p, ctx))))
    ensures p.pluginType.Chain? && |p.pluginType.tags| == 1 && p.pluginType.tags[0] in ctx.handlers
      ==> LegacyHandler(p, ctx) == ctx.handlers[p.pluginType.tags[0]]
    ensures p.pluginType.Chain? && Joined(p.pluginType.tags) !in ctx.handlers
      ==> LegacyHandler(p, ctx) == ctx.handlers["default"]
  {
  }

  /** The one handler call activating `p`: a registered handler, given the
      manifest, the path and the api as positional arguments. */
  function LegacyCall(p: Manifest, ctx: Context): (r: Instance)
    requires ctx.HasDefault()
    ensures r.callee.Registered? && r.callee.id in ctx.handlers.Values
    ensures r.arg == Positional(p, ctx.path, ctx.api)
  {
    Call(Registered(LegacyHandler(p, ctx)), Positional(p, ctx.path, ctx.api))
  }

  /** The activation loop from entry `i` of `enabled` on. */
  function LegacyActivateFrom(i: nat, enabled: InsertionMap<Manifest>, ctx: Context, run: FlatRun): (r: FlatRun)
    requires ctx.HasDefault() && enabled.Valid() && run.plugins.Valid() && i <= |enabled.keys|
    ensures r.plugins.Valid()
    decreases |enabled.keys| - i
  {
    if i == |enabled.keys| then run
    else
      var p := enabled.entries[enabled.keys[i]];
      var instance := LegacyCall(p, ctx);
      LegacyActivateFrom(i + 1, enabled, ctx, FlatRun(run.plugins.Set(p.name, Entry(instance, p)), run.trace + [instance]))
  }

  /** One step of the activation loop, to the state `after` it leads to. */
  lemma LegacyUnfold(i: nat, enabled: InsertionMap<Manifest>, ctx: Context, run: FlatRun, after: FlatRun)
    requires ctx.HasDefault() && enabled.Valid() && run.plugins.Valid() && i < |enabled.keys|
    requires var p := enabled.entries[enabled.keys[i]];
      after == FlatRun(run.plugins.Set(p.name, Entry(LegacyCall(p, ctx), p)), run.trace + [LegacyCall(p, ctx)])
    ensures after.plugins.Valid()
    ensures LegacyActivateFrom(i, enabled, ctx, run) == LegacyActivateFrom(i + 1, enabled, ctx, after)
  {
  }

  /** The handler calls activating entries `i` and after, one per entry, in insertion order. */
  ghost function LegacyCalls(enabled: InsertionMap<Manifest>, i: nat, ctx: Context): (r: seq<Instance>)
    requires ctx.HasDefault() && enabled.Valid() && i <= |enabled.keys|
    ensures |r| == |enabled.keys| - i
    ensures forall j :: i <= j < |enabled.keys| ==> r[j - i] == LegacyCall(enabled.entries[enabled.keys[j]], ctx)
    decreases |enabled.keys| - i
  {
    if i == |enabled.keys| then [] else [LegacyCall(enabled.entries[enabled.keys[i]], ctx)] + LegacyCalls(enabled, i + 1, ctx)
  }

  /** Exactly one handler call per entry, in insertion order: call `j` activates entry `i + j`. */
  lemma {:induction false} LegacyTrace(i: nat, enabled: InsertionMap<Manifest>, ctx: Context, run: FlatRun)
    requires ctx.HasDefault() && enabled.Valid() && run.plugins.Valid() && i <= |enabled.keys|
    ensures LegacyActivateFrom(i, enabled, ctx, run).trace == run.trace + LegacyCalls(enabled, i, ctx)
    decreases |enabled.keys| - i
  {
    if i < |enabled.keys| {
      var p := enabled.entries[enabled.keys[i]];
      var next := FlatRun(run.plugins.Set(p.name, Entry(LegacyCall(p, ctx), p)), run.trace + [LegacyCall(p, ctx)]);
      LegacyUnfold(i, enabled, ctx, run, next);
      LegacyTrace(i + 1, enabled, ctx, next);
      var rest := LegacyCalls(enabled, i + 1, ctx);
      assert next.trace + rest == run.trace + ([LegacyCall(p, ctx)] + rest);
    }
  }

  /** `plugins` gains exactly the declared names of the entries, and each one
      holds the activation of the last entry declaring it. */
  lemma {:induction false} LegacyPlugins(i: nat, enabled: InsertionMap<Manifest>, ctx: Context, run: FlatRun)
    requires ctx.HasDefault() && enabled.Valid() && run.plugins.Valid() && i <= |enabled.keys|
    ensures var r := LegacyActivateFrom(i, enabled, ctx, run);
      && (forall n :: n in r.plugins.entries <==>
            n in run.plugins.entries || DeclaredFrom(enabled, i, n))
      && forall j :: i <= j < |enabled.keys| && LastOfName(enabled, j) ==>
           && enabled.entries[enabled.keys[j]].name in r.plugins.entries
           && r.plugins.entries[enabled.entries[enabled.keys[j]].name]
              == Entry(LegacyCall(enabled.entries[enabled.keys[j]], ctx), enabled.entries[enabled.keys[j]])
    decreases |enabled.keys| - i
  {
    if i < |enabled.keys| {
      var p := enabled.entries[enabled.keys[i]];
      var next := FlatRun(run.plugins.Set(p.name, Entry(LegacyCall(p, ctx), p)), run.trace + [LegacyCall(p, ctx)]);
      LegacyUnfold(i, enabled, ctx, run, next);
      LegacyPlugins(i + 1, enabled, ctx, next);
      if LastOfName(enabled, i) {
        LegacyKeeps(i + 1, enabled, ctx, next, p.name);
      }
    }
  }

  /** A name no entry from `i` on declares keeps its value. */
  lemma {:induction false} LegacyKeeps(i: nat, enabled: InsertionMap<Manifest>, ctx: Context, run: FlatRun, n: string)
    requires ctx.HasDefault() && enabled.Valid() && run.plugins.Valid() && i <= |enabled.keys|
    requires n in run.plugins.entries
    requires forall l :: i <= l < |enabled.keys| ==> enabled.entries[enabled.keys[l]].name != n
    ensures var r := LegacyActivateFrom(i, enabled, ctx, run);
      n in r.plugins.entries && r.plugins.entries[n] == run.plugins.entries[n]
    decreases |enabled.keys| - i
  {
    if i < |enabled.keys| {
      var p := enabled.entries[enabled.keys[i]];
      LegacyKeeps(i + 1, enabled, ctx, FlatRun(run.plugins.Set(p.name, Entry(LegacyCall(p, ctx), p)), run.trace + [LegacyCall(p, ctx)]), n);
    }
  }

  /** `Loader(pluginList, pluginPath, options)` of lib/PluginLoader.ts. */
  function LegacyLoaderSpec(pluginList: seq<string>, pluginPath: string, api: Option<Api>, handlers: map<string, HandlerId>,
                            store: Store, sat: Satisfies, trace: seq<Instance>, ghost rank: string -> nat): (r: FlatStep)
    requires Ranked(store, rank) && "default" in handlers
    ensures r.run.plugins.Valid()
  {
    var ctx := Context(handlers, pluginPath, Loader.DefaultApi(api));
    match Discover(pluginList, store)
    case Rejected(err) => FlatStep(FlatRun(Empty(), trace), Fail(err))
    case Discovered(enabled) =>
      DiscoverFromSpec(pluginList, 0, Empty(), store);
      AliasedConsistent(enabled, store);
      var checked := CheckAllFrom(0, enabled, Env(store, sat, ByEntry), rank);
      if checked.outcome.Fail? then FlatStep(FlatRun(Empty(), trace), checked.outcome)
      else FlatStep(LegacyActivateFrom(0, checked.enabled, ctx, FlatRun(Empty(), trace)), Ok)
  }

  /** A dependency of a requested plugin for which `satisfies` rejects the
      whole dependency entry rejects the run before any handler runs. */
  lemma LegacyRejectsUnmet(pluginList: seq<string>, pluginPath: string, api: Option<Api>, handlers: map<string, HandlerId>,
                           store: Store, sat: Satisfies, trace: seq<Instance>, rank: string -> nat, n: string, d: Dependency)
    requires Ranked(store, rank) && "default" in handlers
    requires n in pluginList && n in store && d in store[n].dependencies
    requires d.name in store && !sat(store[d.name].version, WholeEntry(d))
    ensures var r := LegacyLoaderSpec(pluginList, pluginPath, api, handlers, store, sat, trace, rank);
      r.outcome.Fail? && r.run.trace == trace
  {
    DiscoverSpec(pluginList, store);
    var dis := Discover(pluginList, store);
    if dis.Discovered? {
      DiscoverFromSpec(pluginList, 0, Empty(), store);
      AliasedConsistent(dis.enabled, store);
      ConsistentEntry(dis.enabled, store, n);
      UnmetRejects(dis.enabled, Env(store, sat, ByEntry), rank, n, d);
    }
  }

  /** Once discovery and the dependency check pass, the run succeeds: one
      handler call per entry of the checked map, and each entry's declared
      name, as the store has it, in `plugins`. */
  lemma LegacyLoaderSucceeds(pluginList: seq<string>, pluginPath: string, api: Option<Api>, handlers: map<string, HandlerId>,
                             store: Store, sat: Satisfies, trace: seq<Instance>, rank: string -> nat)
    requires Ranked(store, rank) && "default" in handlers
    requires forall n :: n in pluginList ==> n in store
    ensures var r := LegacyLoaderSpec(pluginList, pluginPath, api, handlers, store, sat, trace, rank);
      var dis := Discover(pluginList, store);
      && dis.Discovered?
      && var checked := CheckAllFrom(0, dis.enabled, Env(store, sat, ByEntry), rank);
         && r.outcome == checked.outcome
         && (r.outcome.Ok? ==>
               && |r.run.trace| == |trace| + |checked.enabled.keys|
               && forall n :: n in pluginList ==> store[n].name in r.run.plugins.entries)
  {
    DiscoverSpec(pluginList, store);
    var dis := Discover(pluginList, store);
    DiscoverFromSpec(pluginList, 0, Empty(), store);
    AliasedConsistent(dis.enabled, store);
    var checked := CheckAllFrom(0, dis.enabled, Env(store, sat, ByEntry), rank);
    if checked.outcome.Ok? {
      LegacyActivationCovers(checked.enabled, Context(handlers, pluginPath, Loader.DefaultApi(api)), store, FlatRun(Empty(), trace));
      assert forall n :: n in pluginList ==> n in dis.enabled.entries && n in checked.enabled.entries;
    }
  }

  /** The activation loop calls one handler per entry and leaves every entry's
      declared name, as the store has it, in `plugins`. */
  lemma LegacyActivationCovers(e: InsertionMap<Manifest>, ctx: Context, store: Store, run: FlatRun)
    requires ctx.HasDefault() && Consistent(e, store) && run.plugins.Valid()
    ensures var r := LegacyActivateFrom(0, e, ctx, run);
      && |r.trace| == |run.trace| + |e.keys|
      && forall k :: k in e.entries ==> k in store && store[k].name in r.plugins.entries
  {
    LegacyTrace(0, e, ctx, run);
    LegacyPlugins(0, e, ctx, run);
    forall k | k in e.entries
      ensures k in store && e.entries[k].name == store[k].name
      ensures DeclaredFrom(e, 0, e.entries[k].name)
    {
      assert Agrees(e.entries[k], store[k]);
      var j :| 0 <= j < |e.keys| && e.keys[j] == k;
      DeclaredAt(e, 0, j);
    }
  }

  /** The exported `Loader`: returns the `plugins` map on success, and no map
      when the run rejects. */
  method LoadPlugins(pluginList: seq<string>, pluginPath: string, options: LoaderOptions, store: Store, sat: Satisfies,
                     host: HandlerHost, ghost rank: string -> nat)
    returns (plugins: MutableMap?<Entry>, outcome: Outcome)
    requires Ranked(store, rank) && "default" in options.handlers
    modifies options, host
    ensures options.api == Some(Loader.DefaultApi(old(options.api)))
    ensures var spec := LegacyLoaderSpec(pluginList, pluginPath, old(options.api), options.handlers, store, sat, old(host.trace), rank);
      && outcome == spec.outcome && host.trace == spec.run.trace
      && (outcome.Ok? ==> plugins != null && plugins.Value() == spec.run.plugins)
      && (outcome.Fail? ==> plugins == null)
    ensures plugins != null ==> fresh(plugins)
  {
    if options.api.None? {
      options.api := Some(EmptyObject);
    }
    var ctx := Context(options.handlers, pluginPath, options.api.value);
    var enabledPlugins;
    enabledPlugins, outcome := DiscoverPlugins(pluginList, store);
    if outcome.Fail? {
      return null, outcome;
    }
    DiscoverFromSpec(pluginList, 0, Empty(), store);
    AliasedConsistent(enabledPlugins.Value(), store);
    outcome := CheckEnabled(enabledPlugins, Env(store, sat, ByEntry), rank);
    if outcome.Fail? {
      return null, outcome;
    }
    var activated := LegacyActivate(enabledPlugins, ctx, host);
    return activated, Ok;
  }

  /** The activation loop over `enabledPlugins`, into a fresh `plugins` map. */
  method LegacyActivate(enabledPlugins: MutableMap<Manifest>, ctx: Context, host: HandlerHost) returns (plugins: MutableMap<Entry>)
    requires ctx.HasDefault() && enabledPlugins.Value().Valid()
    modifies host
    ensures fresh(plugins)
    ensures FlatRun(plugins.Value(), host.trace) == LegacyActivateFrom(0, enabledPlugins.Value(), ctx, FlatRun(Empty(), old(host.trace)))
  {
    plugins := new MutableMap();
    ghost var enabled := enabledPlugins.Value();
    var i := 0;
    while i < |enabledPlugins.keys|
      invariant 0 <= i <= |enabledPlugins.keys| && plugins.Value().Valid() && enabledPlugins.Value() == enabled
      invariant LegacyActivateFrom(i, enabled, ctx, FlatRun(plugins.Value(), host.trace))
        == LegacyActivateFrom(0, enabled, ctx, FlatRun(Empty(), old(host.trace)))
    {
      ghost var before := FlatRun(plugins.Value(), host.trace);
      var plugin := enabledPlugins.entries[enabledPlugins.keys[i]];
      var handler := LegacyHandler(plugin, ctx);
      var instance := host.Invoke(Registered(handler), Positional(plugin, ctx.path, ctx.api));
      plugins.Set(plugin.name, Entry(instance, plugin));
      LegacyUnfold(i, enabled, ctx, before, FlatRun(plugins.Value(), host.trace));
      i := i + 1;
    }
  }
}
