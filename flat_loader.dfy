/** The plugin loader of index.ts, the predecessor of src/index.ts.

    Discovery and the dependency check are those of src/index.ts. Activation
    differs: every entry of `enabledPlugins` is activated, in insertion order,
    each by its own handler call, without loading dependencies first and
    without skipping names already activated; a later entry with the same
    declared name overwrites an earlier one in `plugins`. */
module FlatLoader {
  import opened Manifests
  import opened InsertionMaps
  import opened Resolution
  import opened Handlers
  import Loader

  /** A `plugins` entry: the handler's result and the manifest it was loaded from. */
  datatype Entry = Entry(plugin: Instance, manifest: Manifest)

  datatype FlatRun = FlatRun(plugins: InsertionMap<Entry>, trace: seq<Instance>)

  datatype FlatStep = FlatStep(run: FlatRun, outcome: Outcome)

  /** The activation loop from entry `i` of `enabled` on. */
  function ActivateEachFrom(i: nat, enabled: InsertionMap<Manifest>, ctx: Context, run: FlatRun): (r: FlatStep)
    requires ctx.HasDefault() && enabled.Valid() && run.plugins.Valid() && i <= |enabled.keys|
    ensures r.run.plugins.Valid() && run.trace <= r.run.trace
    decreases |enabled.keys| - i
  {
    if i == |enabled.keys| then FlatStep(run, Ok)
    else
      var p := enabled.entries[enabled.keys[i]];
      var s := Select(p, ctx);
      match s.choice
      case Refused(err) => FlatStep(FlatRun(run.plugins, run.trace + s.calls), Fail(err))
      case Chosen(callee) =>
        var instance := Activation(p, callee, ctx);
        ActivateEachFrom(i + 1, enabled, ctx,
                         FlatRun(run.plugins.Set(p.name, Entry(instance, p)), run.trace + s.calls + [instance]))
  }

  /** The handler calls activating `ps` one after the other, each
      selection's calls followed by the activation itself, up to the first
      manifest whose selection fails. */
  ghost function CallsOf(ps: seq<Manifest>, ctx: Context): seq<Instance>
    requires ctx.HasDefault()
  {
    if ps == [] then []
    else if Select(ps[0], ctx).choice.Refused? then Select(ps[0], ctx).calls
    else Select(ps[0], ctx).calls + [Loader.InstanceOf(ps[0], ctx)] + CallsOf(ps[1..], ctx)
  }

  /** The manifests of entries `i` and after, in insertion order. */
  ghost function ValuesFrom(enabled: InsertionMap<Manifest>, i: nat): (r: seq<Manifest>)
    requires enabled.Valid() && i <= |enabled.keys|
    ensures |r| == |enabled.keys| - i
    ensures forall j :: 0 <= j < |r| ==> r[j] == enabled.entries[enabled.keys[i + j]]
    decreases |enabled.keys| - i
  {
    if i == |enabled.keys| then [] else [enabled.entries[enabled.keys[i]]] + ValuesFrom(enabled, i + 1)
  }

  /** The entry at `j` is the last one among `i..` declaring its name. */
  ghost predicate LastOfName(enabled: InsertionMap<Manifest>, j: nat)
    requires enabled.Valid() && j < |enabled.keys|
  {
    forall l :: j < l < |enabled.keys| ==> enabled.entries[enabled.keys[l]].name != enabled.entries[enabled.keys[j]].name
  }

  /** The run after activating entry `i`, when its handler can be selected. */
  function ActivatedEntry(i: nat, enabled: InsertionMap<Manifest>, ctx: Context, run: FlatRun): (r: FlatRun)
    requires ctx.HasDefault() && enabled.Valid() && run.plugins.Valid() && i < |enabled.keys|
    requires Select(enabled.entries[enabled.keys[i]], ctx).choice.Chosen?
    ensures r.plugins.Valid()
  {
    var p := enabled.entries[enabled.keys[i]];
    FlatRun(run.plugins.Set(p.name, Entry(Loader.InstanceOf(p, ctx), p)), run.trace + Select(p, ctx).calls + [Loader.InstanceOf(p, ctx)])
  }

  /** One step of the activation loop. */
  lemma ActivateEachUnfold(i: nat, enabled: InsertionMap<Manifest>, ctx: Context, run: FlatRun)
    requires ctx.HasDefault() && enabled.Valid() && run.plugins.Valid() && i < |enabled.keys|
    ensures var s := Select(enabled.entries[enabled.keys[i]], ctx);
      && (s.choice.Chosen? ==>
            ActivateEachFrom(i, enabled, ctx, run) == ActivateEachFrom(i + 1, enabled, ctx, ActivatedEntry(i, enabled, ctx, run)))
      && (s.choice.Refused? ==>
            ActivateEachFrom(i, enabled, ctx, run) == FlatStep(FlatRun(run.plugins, run.trace + s.calls), Fail(s.choice.error)))
  {
  }

  /** Activation succeeds exactly when every entry's handler can be selected. */
  lemma {:induction false} ActivateEachSucceeds(i: nat, enabled: InsertionMap<Manifest>, ctx: Context, run: FlatRun)
    requires ctx.HasDefault() && enabled.Valid() && run.plugins.Valid() && i <= |enabled.keys|
    ensures ActivateEachFrom(i, enabled, ctx, run).outcome.Ok?
      <==> forall j :: i <= j < |enabled.keys| ==> Select(enabled.entries[enabled.keys[j]], ctx).choice.Chosen?
    decreases |enabled.keys| - i
  {
    if i < |enabled.keys| {
      var p := enabled.entries[enabled.keys[i]];
      ActivateEachUnfold(i, enabled, ctx, run);
      if Select(p, ctx).choice.Chosen? {
        ActivateEachSucceeds(i + 1, enabled, ctx, ActivatedEntry(i, enabled, ctx, run));
      }
    }
  }

  /** A failing activation fails with the error of the first entry whose handler cannot be selected. */
  lemma {:induction false} ActivateEachFailure(i: nat, enabled: InsertionMap<Manifest>, ctx: Context, run: FlatRun)
    requires ctx.HasDefault() && enabled.Valid() && run.plugins.Valid() && i <= |enabled.keys|
    ensures var r := ActivateEachFrom(i, enabled, ctx, run);
      r.outcome.Fail? ==>
        exists j :: i <= j < |enabled.keys| && Select(enabled.entries[enabled.keys[j]], ctx).choice == Refused(r.outcome.error)
          && forall l :: i <= l < j ==> Select(enabled.entries[enabled.keys[l]], ctx).choice.Chosen?
    decreases |enabled.keys| - i
  {
    if i < |enabled.keys| {
      var p := enabled.entries[enabled.keys[i]];
      ActivateEachUnfold(i, enabled, ctx, run);
      if Select(p, ctx).choice.Chosen? {
        var next := ActivatedEntry(i, enabled, ctx, run);
        ActivateEachFailure(i + 1, enabled, ctx, next);
        var r := ActivateEachFrom(i + 1, enabled, ctx, next);
        if r.outcome.Fail? {
          var j :| i + 1 <= j < |enabled.keys| && Select(enabled.entries[enabled.keys[j]], ctx).choice == Refused(r.outcome.error)
            && forall l :: i + 1 <= l < j ==> Select(enabled.entries[enabled.keys[l]], ctx).choice.Chosen?;
          assert forall l :: i <= l < j ==> Select(enabled.entries[enabled.keys[l]], ctx).choice.Chosen?;
        }
      }
    }
  }

  /** Activation succeeds exactly when every entry's handler can be
      selected, and otherwise fails with the first refusing entry's error. */
  lemma ActivateEachOutcome(i: nat, enabled: InsertionMap<Manifest>, ctx: Context, run: FlatRun)
    requires ctx.HasDefault() && enabled.Valid() && run.plugins.Valid() && i <= |enabled.keys|
    ensures var r := ActivateEachFrom(i, enabled, ctx, run);
      && (r.outcome.Ok? <==> forall j :: i <= j < |enabled.keys| ==> Select(enabled.entries[enabled.keys[j]], ctx).choice.Chosen?)
      && (r.outcome.Fail? ==>
            exists j :: i <= j < |enabled.keys| && Select(enabled.entries[enabled.keys[j]], ctx).choice == Refused(r.outcome.error)
              && forall l :: i <= l < j ==> Select(enabled.entries[enabled.keys[l]], ctx).choice.Chosen?)
  {
    ActivateEachSucceeds(i, enabled, ctx, run);
    ActivateEachFailure(i, enabled, ctx, run);
  }

  /** The handler calls are each entry's own, in insertion order, up to the
      first entry whose selection fails: no dependency order, no entry skipped. */
  lemma {:induction false} ActivateEachTrace(i: nat, enabled: InsertionMap<Manifest>, ctx: Context, run: FlatRun)
    requires ctx.HasDefault() && enabled.Valid() && run.plugins.Valid() && i <= |enabled.keys|
    ensures ActivateEachFrom(i, enabled, ctx, run).run.trace == run.trace + CallsOf(ValuesFrom(enabled, i), ctx)
    decreases |enabled.keys| - i
  {
    if i < |enabled.keys| {
      var p := enabled.entries[enabled.keys[i]];
      CallsOfStep(enabled, i, ctx);
      ActivateEachUnfold(i, enabled, ctx, run);
      if Select(p, ctx).choice.Chosen? {
        var next := ActivatedEntry(i, enabled, ctx, run);
        ActivateEachTrace(i + 1, enabled, ctx, next);
        var own := Select(p, ctx).calls + [Loader.InstanceOf(p, ctx)];
        assert next.trace == run.trace + own;
        AppendAssociates(run.trace, own, CallsOf(ValuesFrom(enabled, i + 1), ctx));
      }
    }
  }

  /** The calls activating the entries from `i` on: entry `i`'s own, then the rest's unless it is refused. */
  lemma CallsOfStep(enabled: InsertionMap<Manifest>, i: nat, ctx: Context)
    requires ctx.HasDefault() && enabled.Valid() && i < |enabled.keys|
    ensures var p := enabled.entries[enabled.keys[i]];
      CallsOf(ValuesFrom(enabled, i), ctx)
        == if Select(p, ctx).choice.Refused? then Select(p, ctx).calls
           else Select(p, ctx).calls + [Loader.InstanceOf(p, ctx)] + CallsOf(ValuesFrom(enabled, i + 1), ctx)
  {
    var vs := ValuesFrom(enabled, i);
    assert vs[0] == enabled.entries[enabled.keys[i]] && vs[1..] == ValuesFrom(enabled, i + 1);
  }

  lemma AppendAssociates<T>(a: seq<T>, b: seq<T>, c: seq<T>)
    ensures (a + b) + c == a + (b + c)
  {
  }

  /** Some entry from `i` on declares the name `n`. */
  ghost predicate DeclaredFrom(enabled: InsertionMap<Manifest>, i: nat, n: string)
    requires enabled.Valid() && i <= |enabled.keys|
    decreases |enabled.keys| - i
  {
    i < |enabled.keys| && (enabled.entries[enabled.keys[i]].name == n || DeclaredFrom(enabled, i + 1, n))
  }

  /** An entry at `j` declaring `n` makes `n` declared from any `i <= j`. */
  lemma {:induction false} DeclaredAt(enabled: InsertionMap<Manifest>, i: nat, j: nat)
    requires enabled.Valid() && i <= j < |enabled.keys|
    ensures DeclaredFrom(enabled, i, enabled.entries[enabled.keys[j]].name)
    decreases j - i
  {
    if i < j {
      DeclaredAt(enabled, i + 1, j);
    }
  }

  /** On success `plugins` gains exactly the declared names of the entries. */
  lemma {:induction false} ActivateEachNames(i: nat, enabled: InsertionMap<Manifest>, ctx: Context, run: FlatRun)
    requires ctx.HasDefault() && enabled.Valid() && run.plugins.Valid() && i <= |enabled.keys|
    ensures var r := ActivateEachFrom(i, enabled, ctx, run);
      r.outcome.Ok? ==> forall n :: n in r.run.plugins.entries <==> n in run.plugins.entries || DeclaredFrom(enabled, i, n)
    decreases |enabled.keys| - i
  {
    if i < |enabled.keys| && Select(enabled.entries[enabled.keys[i]], ctx).choice.Chosen? {
      ActivateEachUnfold(i, enabled, ctx, run);
      ActivateEachNames(i + 1, enabled, ctx, ActivatedEntry(i, enabled, ctx, run));
    }
  }

  /** On success each declared name holds the activation of the last entry declaring it. */
  lemma {:induction false} ActivateEachLastWins(i: nat, enabled: InsertionMap<Manifest>, ctx: Context, run: FlatRun)
    requires ctx.HasDefault() && enabled.Valid() && run.plugins.Valid() && i <= |enabled.keys|
    ensures var r := ActivateEachFrom(i, enabled, ctx, run);
      r.outcome.Ok? ==>
        forall j :: i <= j < |enabled.keys| && LastOfName(enabled, j) ==>
          && Select(enabled.entries[enabled.keys[j]], ctx).choice.Chosen?
          && enabled.entries[enabled.keys[j]].name in r.run.plugins.entries
          && r.run.plugins.entries[enabled.entries[enabled.keys[j]].name]
             == Entry(Loader.InstanceOf(enabled.entries[enabled.keys[j]], ctx), enabled.entries[enabled.keys[j]])
    decreases |enabled.keys| - i
  {
    if i < |enabled.keys| && Select(enabled.entries[enabled.keys[i]], ctx).choice.Chosen? {
      var p := enabled.entries[enabled.keys[i]];
      var next := ActivatedEntry(i, enabled, ctx, run);
      ActivateEachUnfold(i, enabled, ctx, run);
      ActivateEachLastWins(i + 1, enabled, ctx, next);
      if LastOfName(enabled, i) {
        ActivateEachKeeps(i + 1, enabled, ctx, next, p.name);
      }
    }
  }

  /** A name no entry from `i` on declares keeps its value. */
  lemma {:induction false} ActivateEachKeeps(i: nat, enabled: InsertionMap<Manifest>, ctx: Context, run: FlatRun, n: string)
    requires ctx.HasDefault() && enabled.Valid() && run.plugins.Valid() && i <= |enabled.keys|
    requires n in run.plugins.entries
    requires forall l :: i <= l < |enabled.keys| ==> enabled.entries[enabled.keys[l]].name != n
    ensures var r := ActivateEachFrom(i, enabled, ctx, run);
      n in r.run.plugins.entries && r.run.plugins.entries[n] == run.plugins.entries[n]
    decreases |enabled.keys| - i
  {
    if i < |enabled.keys| && Select(enabled.entries[enabled.keys[i]], ctx).choice.Chosen? {
      ActivateEachUnfold(i, enabled, ctx, run);
      ActivateEachKeeps(i + 1, enabled, ctx, ActivatedEntry(i, enabled, ctx, run), n);
    }
  }

  /** `Loader(pluginList, pluginPath, options)`: discovery and the dependency
      check of src/index.ts, then the flat activation loop. */
  function FlatLoaderSpec(pluginList: seq<string>, pluginPath: string, api: Option<Api>, handlers: map<string, HandlerId>,
                          store: Store, sat: Satisfies, trace: seq<Instance>, ghost rank: string -> nat): (r: FlatStep)
    requires Ranked(store, rank) && "default" in handlers
    ensures r.run.plugins.Valid()
  {
    var ctx := Context(handlers, pluginPath, Loader.DefaultApi(api));
    match Discover(pluginList, store)
    case Rejected(err) => FlatStep(FlatRun(Empty(), trace), Fail(err))
    case Discovered(enabled) =>
      DiscoverFromSpec(pluginList, 0, Empty(), store);
      AliasedConsistent(enabled, store);
      var checked := CheckAllFrom(0, enabled, Env(store, sat, ByRange), rank);
      if checked.outcome.Fail? then FlatStep(FlatRun(Empty(), trace), checked.outcome)
      else ActivateEachFrom(0, checked.enabled, ctx, FlatRun(Empty(), trace))
  }

  /** A successful run has activated every requested manifest: each one's
      declared name is a key of the returned `plugins`. */
  lemma FlatLoaderCoversRequests(pluginList: seq<string>, pluginPath: string, api: Option<Api>, handlers: map<string, HandlerId>,
                                 store: Store, sat: Satisfies, trace: seq<Instance>, rank: string -> nat)
    requires Ranked(store, rank) && "default" in handlers
    ensures var r := FlatLoaderSpec(pluginList, pluginPath, api, handlers, store, sat, trace, rank);
      r.outcome.Ok? ==> forall n :: n in pluginList ==> n in store && store[n].name in r.run.plugins.entries
  {
    DiscoverSpec(pluginList, store);
    var dis := Discover(pluginList, store);
    if dis.Discovered? {
      DiscoverFromSpec(pluginList, 0, Empty(), store);
      AliasedConsistent(dis.enabled, store);
      var checked := CheckAllFrom(0, dis.enabled, Env(store, sat, ByRange), rank);
      if checked.outcome.Ok? {
        ActivateEachCovers(checked.enabled, Context(handlers, pluginPath, Loader.DefaultApi(api)), store, FlatRun(Empty(), trace));
        assert forall n :: n in pluginList ==> n in dis.enabled.entries && n in checked.enabled.entries;
      }
    }
  }

  /** A successful activation loop leaves every entry's declared name, as the store has it, in `plugins`. */
  lemma ActivateEachCovers(enabled: InsertionMap<Manifest>, ctx: Context, store: Store, run: FlatRun)
    requires ctx.HasDefault() && Consistent(enabled, store) && run.plugins.Valid()
    ensures var r := ActivateEachFrom(0, enabled, ctx, run);
      r.outcome.Ok? ==> forall k :: k in enabled.entries ==> k in store && store[k].name in r.run.plugins.entries
  {
    ActivateEachNames(0, enabled, ctx, run);
    forall k | k in enabled.entries
      ensures k in store && enabled.entries[k].name == store[k].name
      ensures DeclaredFrom(enabled, 0, enabled.entries[k].name)
    {
      assert Agrees(enabled.entries[k], store[k]);
      var j :| 0 <= j < |enabled.keys| && enabled.keys[j] == k;
      DeclaredAt(enabled, 0, j);
    }
  }

  /** The options object of the older loaders (the base path is a separate
      argument); `Loader` writes the `api` default back into it. */
  class LoaderOptions {
    var api: Option<Api>
    const handlers: map<string, HandlerId>

    constructor (handlers: map<string, HandlerId>, api: Option<Api>)
      ensures this.handlers == handlers && this.api == api
    {
      this.handlers := handlers;
      this.api := api;
    }
  }

  /** The exported `Loader`: returns the `plugins` map on success, and no map
      when the run rejects. */
  method LoadPlugins(pluginList: seq<string>, pluginPath: string, options: LoaderOptions, store: Store, sat: Satisfies,
                     host: HandlerHost, ghost rank: string -> nat)
    returns (plugins: MutableMap?<Entry>, outcome: Outcome)
    requires Ranked(store, rank) && "default" in options.handlers
    modifies options, host
    ensures options.api == Some(Loader.DefaultApi(old(options.api)))
    ensures var spec := FlatLoaderSpec(pluginList, pluginPath, old(options.api), options.handlers, store, sat, old(host.trace), rank);
      && outcome == spec.outcome && host.trace == spec.run.trace
      && (outcome.Ok? ==> plugins != null && plugins.Value() == spec.run.plugins)
      && (outcome.Fail? ==> plugins == null)
    ensures plugins != null ==> fresh(plugins)
  {
    if options.api.None? {
      options.api := Some(EmptyObject);
    }
    var ctx := Context(options.handlers, pluginPath, options.api.value);
    var enabledPlugins;
    enabledPlugins, outcome := DiscoverPlugins(pluginList, store);
    if outcome.Fail? {
      return null, outcome;
    }
    DiscoverFromSpec(pluginList, 0, Empty(), store);
    AliasedConsistent(enabledPlugins.Value(), store);
    outcome := CheckEnabled(enabledPlugins, Env(store, sat, ByRange), rank);
    if outcome.Fail? {
      return null, outcome;
    }
    plugins, outcome := ActivateEach(enabledPlugins, ctx, host);
  }

  /** The activation loop over `enabledPlugins`, into a fresh `plugins` map. */
  method ActivateEach(enabledPlugins: MutableMap<Manifest>, ctx: Context, host: HandlerHost)
    returns (plugins: MutableMap?<Entry>, outcome: Outcome)
    requires ctx.HasDefault() && enabledPlugins.Value().Valid()
    modifies host
    ensures var spec := ActivateEachFrom(0, enabledPlugins.Value(), ctx, FlatRun(Empty(), old(host.trace)));
      && outcome == spec.outcome && host.trace == spec.run.trace
      && (outcome.Ok? ==> plugins != null && plugins.Value() == spec.run.plugins)
      && (outcome.Fail? ==> plugins == null)
    ensures plugins != null ==> fresh(plugins)
  {
    ghost var enabled := enabledPlugins.Value();
    plugins := new MutableMap();
    var i := 0;
    while i < |enabledPlugins.keys|
      invariant enabledPlugins.Value() == enabled
      invariant 0 <= i <= |enabled.keys| && plugins.Value().Valid()
      invariant ActivateEachFrom(i, enabled, ctx, FlatRun(plugins.Value(), host.trace))
        == ActivateEachFrom(0, enabled, ctx, FlatRun(Empty(), old(host.trace)))
    {
      ghost var before := FlatRun(plugins.Value(), host.trace);
      ActivateEachUnfold(i, enabled, ctx, before);
      var plugin := enabledPlugins.entries[enabledPlugins.keys[i]];
      var choice := SelectHandler(plugin, ctx, host);
      if choice.Refused? {
        return null, Fail(choice.error);
      }
      var instance := host.Invoke(choice.callee, Named(plugin, ctx.path, ctx.api, None));
      plugins.Set(plugin.name, Entry(instance, plugin));
      assert FlatRun(plugins.Value(), host.trace) == ActivatedEntry(i, enabled, ctx, before);
      i := i + 1;
    }
    return plugins, Ok;
  }
}
