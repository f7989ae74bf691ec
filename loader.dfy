/** The plugin loader of src/index.ts.

    `LoadPlugins` (the exported `Loader`) discovers the requested manifests,
    checks their dependencies, then activates them: for each entry of
    `enabledPlugins`, in insertion order, whose declared name is not yet in
    `plugins`, `load` first loads each dependency (depth first), then selects
    and calls a handler and records the result under the declared name.

    The source does not await the nested `load` calls. Here they run to
    completion in sequence: their handler calls and their writes to `plugins`
    take place, and their failures are dropped, as the caller never sees
    those rejections. */
module Loader {
  import opened Manifests
  import opened InsertionMaps
  import opened Resolution
  import opened Handlers

  /** A `plugins` entry: the handler's result, the manifest it was loaded
      from, and the name of the dependent that loaded it (none at top level). */
  datatype Record = Record(plugin: Instance, manifest: Manifest, dependent: Option<string>)

  /** What activation changes: the `plugins` map and the handler calls made. */
  datatype Run = Run(plugins: InsertionMap<Record>, trace: seq<Instance>)

  datatype Step = Step(run: Run, outcome: Outcome)

  /** `b` continues `a`: no key of `plugins` lost or moved, no handler call undone. */
  ghost predicate Grows(a: Run, b: Run)
  {
    && a.plugins.keys <= b.plugins.keys
    && (forall k :: k in a.plugins.entries ==> k in b.plugins.entries)
    && a.trace <= b.trace
  }

  /** No dependency cycle among the manifests of `available`. */
  ghost predicate RankedMap(available: InsertionMap<Manifest>, rank: string -> nat)
  {
    forall k, j :: k in available.entries && 0 <= j < |available.entries[k].dependencies|
      && available.entries[k].dependencies[j].name in available.entries
      ==> rank(available.entries[k].dependencies[j].name) < rank(k)
  }

  lemma RankedFromStore(e: InsertionMap<Manifest>, store: Store, rank: string -> nat)
    requires Ranked(store, rank) && Consistent(e, store)
    ensures RankedMap(e, rank)
  {
    forall k, j | k in e.entries && 0 <= j < |e.entries[k].dependencies| && e.entries[k].dependencies[j].name in e.entries
      ensures rank(e.entries[k].dependencies[j].name) < rank(k)
    {
      ConsistentEntry(e, store, k);
      ConsistentEntry(e, store, e.entries[k].dependencies[j].name);
    }
  }

  /** The end of `load`: select the handler, call it, and record the result
      under the manifest's declared name. */
  function Activate(p: Manifest, dependent: Option<string>, ctx: Context, run: Run): (r: Step)
    requires ctx.HasDefault() && run.plugins.Valid()
    ensures r.run.plugins.Valid() && Grows(run, r.run)
    ensures r.outcome.Ok? <==> Select(p, ctx).choice.Chosen?
    ensures r.outcome.Fail? ==> r.run.plugins == run.plugins && Select(p, ctx).choice == Refused(r.outcome.error)
    ensures r.outcome.Ok? ==>
      && p.name in r.run.plugins.entries
      && r.run.plugins.entries == run.plugins.entries[p.name := r.run.plugins.entries[p.name]]
      && r.run.plugins.entries[p.name].manifest == p && r.run.plugins.entries[p.name].dependent == dependent
  {
    var s := Select(p, ctx);
    match s.choice
    case Refused(err) => Step(Run(run.plugins, run.trace + s.calls), Fail(err))
    case Chosen(callee) =>
      var instance := Activation(p, callee, ctx);
      Step(Run(run.plugins.Set(p.name, Record(instance, p, dependent)), run.trace + s.calls + [instance]), Ok)
  }

  /** `load` of the manifest stored under `key`, from its `i`-th dependency on. */
  function LoadFrom(key: string, i: nat, dependent: Option<string>, available: InsertionMap<Manifest>, ctx: Context,
                    run: Run, ghost rank: string -> nat): (r: Step)
    requires ctx.HasDefault() && RankedMap(available, rank) && run.plugins.Valid()
    requires key in available.entries && i <= |available.entries[key].dependencies|
    ensures r.run.plugins.Valid() && Grows(run, r.run)
    decreases rank(key), |available.entries[key].dependencies| - i
  {
    var p := available.entries[key];
    if i == |p.dependencies| then Activate(p, dependent, ctx, run)
    else
      var d := p.dependencies[i];
      if d.name !in available.entries then Step(run, Fail(DependencyMissing(d.name, p.name)))
      else
        // Not awaited in the source: the nested load's effects stay, its failure is dropped.
        var nested := LoadFrom(d.name, 0, Some(p.name), available, ctx, run, rank);
        var rest := LoadFrom(key, i + 1, dependent, available, ctx, nested.run, rank);
        rest
  }

  /** The first dependency name `available` lacks, if any. */
  function FirstAbsent(deps: seq<Dependency>, available: InsertionMap<Manifest>): (r: Option<string>)
    ensures r.None? <==> forall d :: d in deps ==> d.name in available.entries
    ensures r.Some? ==> r.value !in available.entries && exists d :: d in deps && d.name == r.value
    ensures r.Some? ==>
      exists i :: 0 <= i < |deps| && deps[i].name == r.value && forall j :: 0 <= j < i ==> deps[j].name in available.entries
  {
    if deps == [] then None
    else if deps[0].name !in available.entries then Some(deps[0].name)
    else
      var rest := FirstAbsent(deps[1..], available);
      assert forall j :: 1 <= j < |deps| ==> deps[j] == deps[1..][j - 1];
      rest
  }

  /** Whether `load(p)` resolves once it has reached `deps`, stated without
      running it: every name in `deps` is available and a handler can be
      selected. The dependencies' own loads do not count, their failures
      being dropped. */
  function LoadVerdict(p: Manifest, deps: seq<Dependency>, available: InsertionMap<Manifest>, ctx: Context): (r: Outcome)
    requires ctx.HasDefault()
    ensures r == Ok <==> (forall d :: d in deps ==> d.name in available.entries) && Select(p, ctx).choice.Chosen?
    ensures r.Fail? && r.error.DependencyMissing? ==> r.error.dependent == p.name && r.error.dependency !in available.entries
  {
    match FirstAbsent(deps, available)
    case Some(name) => Fail(DependencyMissing(name, p.name))
    case None =>
      match Select(p, ctx).choice
      case Refused(err) => Fail(err)
      case Chosen(_) => Ok
  }

  /** `load(m)` succeeds. */
  ghost predicate Loads(m: Manifest, available: InsertionMap<Manifest>, ctx: Context)
    requires ctx.HasDefault()
  {
    LoadVerdict(m, m.dependencies, available, ctx) == Ok
  }

  /** The instance a successful `load(p)` records for `p`. */
  function InstanceOf(p: Manifest, ctx: Context): Instance
    requires ctx.HasDefault() && Select(p, ctx).choice.Chosen?
  {
    Activation(p, Select(p, ctx).choice.callee, ctx)
  }

  /** Among the handler calls `b` made beyond `a`, `x` comes before the last one. */
  ghost predicate CalledBefore(x: Instance, a: Run, b: Run)
  {
    exists t :: |a.trace| <= t < |b.trace| - 1 && b.trace[t] == x
  }

  /** The activation alone: it fails exactly when selection does, and on
      success its last call is `p`'s activation, recorded under `p.name`. */
  lemma ActivateSpec(p: Manifest, dependent: Option<string>, ctx: Context, run: Run)
    requires ctx.HasDefault() && run.plugins.Valid()
    ensures var r := Activate(p, dependent, ctx, run);
      && r.outcome == LoadVerdict(p, [], Empty(), ctx)
      && (r.outcome.Ok? ==>
            && |r.run.trace| > |run.trace|
            && r.run.trace[|r.run.trace| - 1] == InstanceOf(p, ctx)
            && p.name in r.run.plugins.entries
            && r.run.plugins.entries[p.name] == Record(InstanceOf(p, ctx), p, dependent))
  {
  }

  /** `load(p)` fails with "Error loading dependency" for the first dependency
      name that is not available, else with the selection's error, and
      succeeds otherwise. */
  lemma {:induction false} LoadFromOutcome(key: string, i: nat, dependent: Option<string>, available: InsertionMap<Manifest>,
                                           ctx: Context, run: Run, rank: string -> nat)
    requires ctx.HasDefault() && RankedMap(available, rank) && run.plugins.Valid()
    requires key in available.entries && i <= |available.entries[key].dependencies|
    ensures var p := available.entries[key];
      LoadFrom(key, i, dependent, available, ctx, run, rank).outcome == LoadVerdict(p, p.dependencies[i..], available, ctx)
    decreases |available.entries[key].dependencies| - i
  {
    var p := available.entries[key];
    if i == |p.dependencies| {
      ActivateSpec(p, dependent, ctx, run);
      assert p.dependencies[i..] == [];
    } else {
      var d := p.dependencies[i];
      assert p.dependencies[i..][0] == d;
      assert p.dependencies[i..][1..] == p.dependencies[i + 1..];
      if d.name in available.entries {
        var nested := LoadFrom(d.name, 0, Some(p.name), available, ctx, run, rank);
        LoadFromOutcome(key, i + 1, dependent, available, ctx, nested.run, rank);
      }
    }
  }

  /** When `r` succeeds, the handler for `p` was chosen, the last handler call
      after those of `base` is `p`'s activation, and its result is recorded
      under `p`'s declared name with the dependent. */
  ghost predicate RecordedLast(p: Manifest, dependent: Option<string>, ctx: Context, base: Run, r: Step)
    requires ctx.HasDefault()
  {
    r.outcome.Ok? ==>
      && Select(p, ctx).choice.Chosen?
      && |r.run.trace| > |base.trace|
      && r.run.trace[|r.run.trace| - 1] == InstanceOf(p, ctx)
      && p.name in r.run.plugins.entries
      && r.run.plugins.entries[p.name] == Record(InstanceOf(p, ctx), p, dependent)
  }

  /** `RecordedLast` measured from a later run holds from an earlier one. */
  lemma RecordedEarlier(p: Manifest, dependent: Option<string>, ctx: Context, base: Run, mid: Run, r: Step)
    requires ctx.HasDefault() && base.trace <= mid.trace && RecordedLast(p, dependent, ctx, mid, r)
    ensures RecordedLast(p, dependent, ctx, base, r)
  {
  }

  /** On success the last handler call of `load(p)` is `p`'s activation, whose
      result is recorded under `p`'s declared name with the dependent. */
  lemma {:induction false} LoadFromRecord(key: string, i: nat, dependent: Option<string>, available: InsertionMap<Manifest>,
                                          ctx: Context, run: Run, rank: string -> nat)
    requires ctx.HasDefault() && RankedMap(available, rank) && run.plugins.Valid()
    requires key in available.entries && i <= |available.entries[key].dependencies|
    ensures RecordedLast(available.entries[key], dependent, ctx, run, LoadFrom(key, i, dependent, available, ctx, run, rank))
    decreases |available.entries[key].dependencies| - i
  {
    var p := available.entries[key];
    if i == |p.dependencies| {
      LoadFromLast(key, dependent, available, ctx, run, rank);
      ActivateSpec(p, dependent, ctx, run);
    } else if p.dependencies[i].name in available.entries {
      LoadFromNext(key, i, dependent, available, ctx, run, rank);
      var nested := LoadFrom(p.dependencies[i].name, 0, Some(p.name), available, ctx, run, rank);
      LoadFromRecord(key, i + 1, dependent, available, ctx, nested.run, rank);
      RecordedEarlier(p, dependent, ctx, run, nested.run, LoadFrom(key, i + 1, dependent, available, ctx, nested.run, rank));
    }
  }

  /** Dependencies first: when `load(p)` succeeds, each direct dependency
      that loads has had its activation call before `p`'s. */
  lemma {:induction false} LoadFromOrder(key: string, i: nat, dependent: Option<string>, available: InsertionMap<Manifest>,
                                         ctx: Context, run: Run, rank: string -> nat)
    requires ctx.HasDefault() && RankedMap(available, rank) && run.plugins.Valid()
    requires key in available.entries && i <= |available.entries[key].dependencies|
    ensures var p := available.entries[key]; var r := LoadFrom(key, i, dependent, available, ctx, run, rank);
      r.outcome.Ok? ==>
        forall j :: i <= j < |p.dependencies| && p.dependencies[j].name in available.entries
          && Loads(available.entries[p.dependencies[j].name], available, ctx)
          ==> CalledBefore(InstanceOf(available.entries[p.dependencies[j].name], ctx), run, r.run)
    decreases |available.entries[key].dependencies| - i
  {
    var p := available.entries[key];
    if i < |p.dependencies| {
      var d := p.dependencies[i];
      if d.name in available.entries {
        var nested := LoadFrom(d.name, 0, Some(p.name), available, ctx, run, rank);
        var r := LoadFrom(key, i + 1, dependent, available, ctx, nested.run, rank);
        LoadFromNext(key, i, dependent, available, ctx, run, rank);
        LoadFromOrder(key, i + 1, dependent, available, ctx, nested.run, rank);
        if r.outcome.Ok? {
          LoadFromOutcome(d.name, 0, Some(p.name), available, ctx, run, rank);
          LoadFromRecord(d.name, 0, Some(p.name), available, ctx, run, rank);
          LoadFromRecord(key, i + 1, dependent, available, ctx, nested.run, rank);
          assert available.entries[d.name].dependencies[0..] == available.entries[d.name].dependencies;
          forall j | i <= j < |p.dependencies| && p.dependencies[j].name in available.entries
              && Loads(available.entries[p.dependencies[j].name], available, ctx)
            ensures CalledBefore(InstanceOf(available.entries[p.dependencies[j].name], ctx), run, r.run)
          {
            if j == i {
              var t := |nested.run.trace| - 1;
              assert r.run.trace[t] == nested.run.trace[t];
            } else {
              var t :| |nested.run.trace| <= t < |r.run.trace| - 1
                && r.run.trace[t] == InstanceOf(available.entries[p.dependencies[j].name], ctx);
            }
          }
        }
      }
    }
  }

  /** The activation loop of `Loader` from entry `i` of `enabledPlugins` on:
      an entry whose declared name is already in `plugins` is skipped,
      any other is loaded and a failure ends the loop. */
  function ActivateAllFrom(i: nat, available: InsertionMap<Manifest>, ctx: Context, run: Run, ghost rank: string -> nat): (r: Step)
    requires ctx.HasDefault() && available.Valid() && RankedMap(available, rank) && run.plugins.Valid()
    requires i <= |available.keys|
    ensures r.run.plugins.Valid() && Grows(run, r.run)
    decreases |available.keys| - i
  {
    if i == |available.keys| then Step(run, Ok)
    else
      var k := available.keys[i];
      if available.entries[k].name in run.plugins.entries then
        // Loaded earlier, by a dependent or under another requested name.
        ActivateAllFrom(i + 1, available, ctx, run, rank)
      else
        var s := LoadFrom(k, 0, None, available, ctx, run, rank);
        if s.outcome.Fail? then s else ActivateAllFrom(i + 1, available, ctx, s.run, rank)
  }

  /** The activation loop succeeds when every entry it reaches loads, and on
      success every entry's declared name is in `plugins`. */
  lemma {:induction false} ActivateAllSucceeds(i: nat, available: InsertionMap<Manifest>, ctx: Context, run: Run, rank: string -> nat)
    requires ctx.HasDefault() && available.Valid() && RankedMap(available, rank) && run.plugins.Valid()
    requires i <= |available.keys|
    ensures var r := ActivateAllFrom(i, available, ctx, run, rank);
      && ((forall j :: i <= j < |available.keys| ==> Loads(available.entries[available.keys[j]], available, ctx))
            ==> r.outcome == Ok)
      && (r.outcome.Ok? ==>
            forall j :: i <= j < |available.keys| ==> available.entries[available.keys[j]].name in r.run.plugins.entries)
    decreases |available.keys| - i
  {
    if i < |available.keys| {
      var k := available.keys[i];
      var p := available.entries[k];
      if p.name in run.plugins.entries {
        ActivateAllSkip(i, available, ctx, run, rank);
        ActivateAllSucceeds(i + 1, available, ctx, run, rank);
      } else {
        var s := LoadFrom(k, 0, None, available, ctx, run, rank);
        ActivateAllUnfold(i, available, ctx, run, s.run, s.outcome, rank);
        LoadFromOutcome(k, 0, None, available, ctx, run, rank);
        LoadFromRecord(k, 0, None, available, ctx, run, rank);
        assert p.dependencies[0..] == p.dependencies;
        if s.outcome.Ok? {
          ActivateAllSucceeds(i + 1, available, ctx, s.run, rank);
        }
      }
    }
  }

  /** A failure of the activation loop is the failure of loading one of the entries. */
  lemma {:induction false} ActivateAllFailure(i: nat, available: InsertionMap<Manifest>, ctx: Context, run: Run, rank: string -> nat)
    requires ctx.HasDefault() && available.Valid() && RankedMap(available, rank) && run.plugins.Valid()
    requires i <= |available.keys|
    ensures var r := ActivateAllFrom(i, available, ctx, run, rank);
      r.outcome.Fail? ==>
        exists j :: i <= j < |available.keys|
          && LoadVerdict(available.entries[available.keys[j]], available.entries[available.keys[j]].dependencies, available, ctx)
             == r.outcome
    decreases |available.keys| - i
  {
    if i < |available.keys| {
      var k := available.keys[i];
      var p := available.entries[k];
      if p.name in run.plugins.entries {
        ActivateAllSkip(i, available, ctx, run, rank);
        ActivateAllFailure(i + 1, available, ctx, run, rank);
      } else {
        var s := LoadFrom(k, 0, None, available, ctx, run, rank);
        ActivateAllUnfold(i, available, ctx, run, s.run, s.outcome, rank);
        if s.outcome.Ok? {
          ActivateAllFailure(i + 1, available, ctx, s.run, rank);
        } else {
          LoadFromOutcome(k, 0, None, available, ctx, run, rank);
          assert p.dependencies[0..] == p.dependencies;
          assert LoadVerdict(p, p.dependencies, available, ctx) == s.outcome;
        }
      }
    }
  }

  /** The activation loop succeeds when every entry it reaches loads, and on
      success every entry's declared name is in `plugins`; a failure is the
      failure of loading one of the entries. */
  lemma ActivateAllSpec(i: nat, available: InsertionMap<Manifest>, ctx: Context, run: Run, rank: string -> nat)
    requires ctx.HasDefault() && available.Valid() && RankedMap(available, rank) && run.plugins.Valid()
    requires i <= |available.keys|
    ensures var r := ActivateAllFrom(i, available, ctx, run, rank);
      && ((forall j :: i <= j < |available.keys| ==> Loads(available.entries[available.keys[j]], available, ctx))
            ==> r.outcome == Ok)
      && (r.outcome.Ok? ==>
            forall j :: i <= j < |available.keys| ==> available.entries[available.keys[j]].name in r.run.plugins.entries)
      && (r.outcome.Fail? ==>
            exists j :: i <= j < |available.keys|
              && LoadVerdict(available.entries[available.keys[j]], available.entries[available.keys[j]].dependencies, available, ctx)
                 == r.outcome)
  {
    ActivateAllSucceeds(i, available, ctx, run, rank);
    ActivateAllFailure(i, available, ctx, run, rank);
  }

  /** The activation loop skips an entry whose declared name is already in `plugins`. */
  lemma ActivateAllSkip(i: nat, available: InsertionMap<Manifest>, ctx: Context, run: Run, rank: string -> nat)
    requires ctx.HasDefault() && available.Valid() && RankedMap(available, rank) && run.plugins.Valid()
    requires i < |available.keys| && available.entries[available.keys[i]].name in run.plugins.entries
    ensures ActivateAllFrom(i, available, ctx, run, rank) == ActivateAllFrom(i + 1, available, ctx, run, rank)
  {
  }

  /** The activation loop past the last entry succeeds and changes nothing. */
  lemma ActivateAllEnd(available: InsertionMap<Manifest>, ctx: Context, run: Run, rank: string -> nat)
    requires ctx.HasDefault() && available.Valid() && RankedMap(available, rank) && run.plugins.Valid()
    ensures ActivateAllFrom(|available.keys|, available, ctx, run, rank) == Step(run, Ok)
  {
  }

  /** Once every entry's declared name is in `plugins`, the activation loop
      calls no handler and changes nothing. */
  lemma {:induction false} ActivateAllIdle(i: nat, available: InsertionMap<Manifest>, ctx: Context, run: Run, rank: string -> nat)
    requires ctx.HasDefault() && available.Valid() && RankedMap(available, rank) && run.plugins.Valid()
    requires i <= |available.keys|
    requires forall k :: k in available.entries ==> available.entries[k].name in run.plugins.entries
    ensures ActivateAllFrom(i, available, ctx, run, rank) == Step(run, Ok)
    decreases |available.keys| - i
  {
    if i < |available.keys| {
      var k := available.keys[i];
      assert k in available.keys;
      ActivateAllSkip(i, available, ctx, run, rank);
      ActivateAllIdle(i + 1, available, ctx, run, rank);
    }
  }

  /** `load`, run on the live maps: dependencies first, each loaded by a call
      whose result is not awaited, then the handler. */
  method Load(plugin: Manifest, ghost key: string, ctx: Context, availablePlugins: MutableMap<Manifest>,
              plugins: MutableMap<Record>, host: HandlerHost, dependent: Option<string>, ghost rank: string -> nat)
    returns (outcome: Outcome)
    requires ctx.HasDefault() && RankedMap(availablePlugins.Value(), rank) && plugins.Value().Valid()
    requires key in availablePlugins.entries && availablePlugins.entries[key] == plugin
    modifies plugins, host
    ensures Step(Run(plugins.Value(), host.trace), outcome)
      == LoadFrom(key, 0, dependent, availablePlugins.Value(), ctx, Run(old(plugins.Value()), old(host.trace)), rank)
    decreases rank(key)
  {
    var i := 0;
    while i < |plugin.dependencies|
      invariant 0 <= i <= |plugin.dependencies|
      invariant plugins.Value().Valid()
      invariant LoadFrom(key, i, dependent, availablePlugins.Value(), ctx, Run(plugins.Value(), host.trace), rank)
        == LoadFrom(key, 0, dependent, availablePlugins.Value(), ctx, Run(old(plugins.Value()), old(host.trace)), rank)
    {
      var depName := plugin.dependencies[i].name;
      if depName !in availablePlugins.entries {
        return Fail(DependencyMissing(depName, plugin.name));
      }
      // Not awaited: the outcome is dropped.
      var _ := Load(availablePlugins.entries[depName], depName, ctx, availablePlugins, plugins, host, Some(plugin.name), rank);
      i := i + 1;
    }
    var choice := SelectHandler(plugin, ctx, host);
    match choice {
      case Refused(err) =>
        return Fail(err);
      case Chosen(callee) =>
        var instance := host.Invoke(callee, Named(plugin, ctx.path, ctx.api, None));
        plugins.Set(plugin.name, Record(instance, plugin, dependent));
        return Ok;
    }
  }

  /** The `api` a loader run hands to handlers: the caller's, or `{}` when it gave none. */
  function DefaultApi(api: Option<Api>): (r: Api)
    ensures api.Some? ==> r == api.value
    ensures api.None? ==> r == EmptyObject
  {
    if api.None? then EmptyObject else api.value
  }

  /** What `Loader` returns or rejects with, and the handler calls it made. */
  datatype Loaded = Loaded(outcome: Outcome, plugins: InsertionMap<Record>, trace: seq<Instance>)

  /** `Loader(pluginList, options)` with `store` and `sat` standing for the
      manifests on disk and the semantic-version test: discovery, the
      dependency check, then activation. */
  function LoaderSpec(pluginList: seq<string>, api: Option<Api>, handlers: map<string, HandlerId>, path: string,
                      store: Store, sat: Satisfies, trace: seq<Instance>, ghost rank: string -> nat): (r: Loaded)
    requires Ranked(store, rank) && "default" in handlers
    ensures r.plugins.Valid()
  {
    var ctx := Context(handlers, path, DefaultApi(api));
    match Discover(pluginList, store)
    case Rejected(err) => Loaded(Fail(err), Empty(), trace)
    case Discovered(enabled) =>
      DiscoverFromSpec(pluginList, 0, Empty(), store);
      AliasedConsistent(enabled, store);
      var checked := CheckAllFrom(0, enabled, Env(store, sat, ByRange), rank);
      if checked.outcome.Fail? then Loaded(checked.outcome, Empty(), trace)
      else
        RankedFromStore(checked.enabled, store, rank);
        var s := ActivateAllFrom(0, checked.enabled, ctx, Run(Empty(), trace), rank);
        Loaded(s.outcome, s.run.plugins, s.run.trace)
  }

  /** A requested name whose manifest cannot be fetched rejects the run with
      "Invalid manifest" for the first such name, before any handler runs. */
  lemma LoaderRejectsUnfetchable(pluginList: seq<string>, api: Option<Api>, handlers: map<string, HandlerId>, path: string,
                                 store: Store, sat: Satisfies, trace: seq<Instance>, rank: string -> nat)
    requires Ranked(store, rank) && "default" in handlers
    requires exists n :: n in pluginList && n !in store
    ensures var r := LoaderSpec(pluginList, api, handlers, path, store, sat, trace, rank);
      r.outcome == Fail(InvalidManifest(FirstMissing(pluginList, store).value)) && r.trace == trace
  {
    DiscoverSpec(pluginList, store);
  }

  /** A dependency of a requested plugin whose version does not satisfy the
      declared range rejects the run before any handler runs. */
  lemma LoaderRejectsUnmet(pluginList: seq<string>, api: Option<Api>, handlers: map<string, HandlerId>, path: string,
                           store: Store, sat: Satisfies, trace: seq<Instance>, rank: string -> nat, n: string, d: Dependency)
    requires Ranked(store, rank) && "default" in handlers
    requires n in pluginList && n in store && d in store[n].dependencies
    requires d.name in store && !sat(store[d.name].version, RangeOf(d.range))
    ensures var r := LoaderSpec(pluginList, api, handlers, path, store, sat, trace, rank);
      r.outcome.Fail? && r.trace == trace
  {
    DiscoverSpec(pluginList, store);
    var dis := Discover(pluginList, store);
    if dis.Discovered? {
      DiscoverFromSpec(pluginList, 0, Empty(), store);
      AliasedConsistent(dis.enabled, store);
      ConsistentEntry(dis.enabled, store, n);
      UnmetRejects(dis.enabled, Env(store, sat, ByRange), rank, n, d);
    }
  }

  /** A successful run has handled every requested manifest: each one's
      declared name is a key of the returned `plugins`. */
  lemma LoaderCoversRequests(pluginList: seq<string>, api: Option<Api>, handlers: map<string, HandlerId>, path: string,
                             store: Store, sat: Satisfies, trace: seq<Instance>, rank: string -> nat)
    requires Ranked(store, rank) && "default" in handlers
    ensures var r := LoaderSpec(pluginList, api, handlers, path, store, sat, trace, rank);
      r.outcome.Ok? ==> trace <= r.trace && forall n :: n in pluginList ==> n in store && store[n].name in r.plugins.entries
  {
    DiscoverSpec(pluginList, store);
    var dis := Discover(pluginList, store);
    if dis.Discovered? {
      var env := Env(store, sat, ByRange);
      DiscoverFromSpec(pluginList, 0, Empty(), store);
      AliasedConsistent(dis.enabled, store);
      var checked := CheckAllFrom(0, dis.enabled, env, rank);
      if checked.outcome.Ok? {
        RankedFromStore(checked.enabled, store, rank);
        ActivationCovers(checked.enabled, Context(handlers, path, DefaultApi(api)), store, Run(Empty(), trace), rank);
        assert forall n :: n in pluginList ==> n in dis.enabled.entries && n in checked.enabled.entries;
      }
    }
  }

  /** A successful activation loop leaves every entry's declared name, as the store has it, in `plugins`. */
  lemma ActivationCovers(available: InsertionMap<Manifest>, ctx: Context, store: Store, run: Run, rank: string -> nat)
    requires ctx.HasDefault() && Consistent(available, store) && RankedMap(available, rank) && run.plugins.Valid()
    ensures var s := ActivateAllFrom(0, available, ctx, run, rank);
      s.outcome.Ok? ==> forall k :: k in available.entries ==> k in store && store[k].name in s.run.plugins.entries
  {
    ActivateAllSpec(0, available, ctx, run, rank);
    forall k | k in available.entries
      ensures k in store && available.entries[k].name == store[k].name
    {
      assert Agrees(available.entries[k], store[k]);
    }
    forall k | k in available.entries
      ensures exists j :: 0 <= j < |available.keys| && available.keys[j] == k
    {
    }
  }

  // Two plugins for the examples below: `b` depends on `a`, both use the default handler.

  function ExampleA(): Manifest { Manifest("a", "1.0.0", [], None, Untyped) }

  function ExampleB(): Manifest { Manifest("b", "1.0.0", [Dependency("a", "^1.0.0", false)], None, Untyped) }

  function ExampleContext(): Context { Context(map["default" := 0], "plugins", EmptyObject) }

  function ExampleRank(n: string): nat { if n == "b" then 1 else 0 }

  function ExampleCall(m: Manifest): Instance { Call(Registered(0), Named(m, "plugins", EmptyObject, None)) }

  /** `enabledPlugins` holding both, requested in the order `keys`. */
  function ExampleMap(keys: seq<string>): InsertionMap<Manifest>
  {
    InsertionMap(keys, map["a" := ExampleA(), "b" := ExampleB()])
  }

  lemma ExampleWellFormed(keys: seq<string>)
    requires keys == ["a", "b"] || keys == ["b", "a"]
    ensures ExampleMap(keys).Valid() && RankedMap(ExampleMap(keys), ExampleRank)
  {
    var e := ExampleMap(keys);
    assert "a" != "b";
    forall k, j | k in e.entries && 0 <= j < |e.entries[k].dependencies| && e.entries[k].dependencies[j].name in e.entries
      ensures ExampleRank(e.entries[k].dependencies[j].name) < ExampleRank(k)
    {
      assert k == "b";
    }
  }

  /** `load` past its last dependency is the activation. */
  lemma LoadFromLast(key: string, dependent: Option<string>, available: InsertionMap<Manifest>, ctx: Context,
                     run: Run, rank: string -> nat)
    requires ctx.HasDefault() && RankedMap(available, rank) && run.plugins.Valid() && key in available.entries
    ensures LoadFrom(key, |available.entries[key].dependencies|, dependent, available, ctx, run, rank)
      == Activate(available.entries[key], dependent, ctx, run)
  {
  }

  /** `load` at its next dependency, when that dependency is available: the nested load, then the rest. */
  lemma LoadFromNext(key: string, i: nat, dependent: Option<string>, available: InsertionMap<Manifest>, ctx: Context,
                     run: Run, rank: string -> nat)
    requires ctx.HasDefault() && RankedMap(available, rank) && run.plugins.Valid()
    requires key in available.entries && i < |available.entries[key].dependencies|
    requires available.entries[key].dependencies[i].name in available.entries
    ensures var p := available.entries[key];
      var nested := LoadFrom(p.dependencies[i].name, 0, Some(p.name), available, ctx, run, rank);
      LoadFrom(key, i, dependent, available, ctx, run, rank) == LoadFrom(key, i + 1, dependent, available, ctx, nested.run, rank)
  {
  }

  /** Activating either example plugin calls the default handler once and records the call. */
  lemma ExampleActivate(p: Manifest, dependent: Option<string>, run: Run)
    requires p == ExampleA() || p == ExampleB()
    requires run.plugins.Valid()
    ensures Activate(p, dependent, ExampleContext(), run)
      == Step(Run(run.plugins.Set(p.name, Record(ExampleCall(p), p, dependent)), run.trace + [ExampleCall(p)]), Ok)
  {
    assert Select(p, ExampleContext()) == Selected([], Chosen(Registered(0)));
    assert run.trace + [] + [ExampleCall(p)] == run.trace + [ExampleCall(p)];
  }

  /** Loading `a` calls the default handler once and records the call. */
  lemma ExampleLoadA(keys: seq<string>, dependent: Option<string>, run: Run)
    requires keys == ["a", "b"] || keys == ["b", "a"]
    requires run.plugins.Valid()
    ensures ExampleMap(keys).Valid() && RankedMap(ExampleMap(keys), ExampleRank)
    ensures LoadFrom("a", 0, dependent, ExampleMap(keys), ExampleContext(), run, ExampleRank)
      == Step(Run(run.plugins.Set("a", Record(ExampleCall(ExampleA()), ExampleA(), dependent)), run.trace + [ExampleCall(ExampleA())]), Ok)
  {
    ExampleWellFormed(keys);
    LoadFromLast("a", dependent, ExampleMap(keys), ExampleContext(), run, ExampleRank);
    ExampleActivate(ExampleA(), dependent, run);
  }

  /** Loading `b` loads `a` on its behalf, then calls the default handler for `b`. */
  lemma ExampleLoadB(keys: seq<string>, run: Run)
    requires keys == ["a", "b"] || keys == ["b", "a"]
    requires run.plugins.Valid()
    ensures ExampleMap(keys).Valid() && RankedMap(ExampleMap(keys), ExampleRank)
    ensures var ia := ExampleCall(ExampleA()); var ib := ExampleCall(ExampleB());
      LoadFrom("b", 0, None, ExampleMap(keys), ExampleContext(), run, ExampleRank)
        == Step(Run(run.plugins.Set("a", Record(ia, ExampleA(), Some("b"))).Set("b", Record(ib, ExampleB(), None)),
                    run.trace + [ia] + [ib]), Ok)
  {
    var e := ExampleMap(keys);
    var ctx := ExampleContext();
    ExampleWellFormed(keys);
    ExampleLoadA(keys, Some("b"), run);
    LoadFromNext("b", 0, None, e, ctx, run, ExampleRank);
    var nested := LoadFrom("a", 0, Some("b"), e, ctx, run, ExampleRank);
    LoadFromLast("b", None, e, ctx, nested.run, ExampleRank);
    ExampleActivate(ExampleB(), None, nested.run);
  }

  /** The skip rule guards only the top level: nested loads do not consult
      `plugins`. With `a` requested before `b`, which depends on it, `a`'s
      handler runs twice, and the second record overwrites the first, naming
      `b` as the dependent of a top-level request. */
  lemma DependencyReloaded(run: Run)
    requires run.plugins == Empty()
    ensures ExampleMap(["a", "b"]).Valid() && RankedMap(ExampleMap(["a", "b"]), ExampleRank)
    ensures var r := ActivateAllFrom(0, ExampleMap(["a", "b"]), ExampleContext(), run, ExampleRank);
      && r.outcome == Ok
      && r.run.trace == run.trace + [ExampleCall(ExampleA()), ExampleCall(ExampleA()), ExampleCall(ExampleB())]
      && r.run.plugins.entries["a"] == Record(ExampleCall(ExampleA()), ExampleA(), Some("b"))
  {
    var keys := ["a", "b"];
    var e := ExampleMap(keys);
    var ctx := ExampleContext();
    ExampleLoadA(keys, None, run);
    var s1 := LoadFrom("a", 0, None, e, ctx, run, ExampleRank);
    ExampleLoadB(keys, s1.run);
    var s2 := LoadFrom("b", 0, None, e, ctx, s1.run, ExampleRank);
    var ia := ExampleCall(ExampleA());
    assert s1.run.plugins.entries == map["a" := Record(ia, ExampleA(), None)];
    assert s2.run.trace == run.trace + [ia, ia, ExampleCall(ExampleB())];
    assert e.keys[0] == "a" && e.keys[1] == "b";
    ActivateAllUnfold(0, e, ctx, run, s1.run, s1.outcome, ExampleRank);
    ActivateAllUnfold(1, e, ctx, s1.run, s2.run, s2.outcome, ExampleRank);
    ActivateAllEnd(e, ctx, s2.run, ExampleRank);
  }

  /** Requested in the order `[b, a]`, `a` is loaded once, by `b`, and then skipped. */
  lemma DependencyLoadedOnce(run: Run)
    requires run.plugins == Empty()
    ensures ExampleMap(["b", "a"]).Valid() && RankedMap(ExampleMap(["b", "a"]), ExampleRank)
    ensures var r := ActivateAllFrom(0, ExampleMap(["b", "a"]), ExampleContext(), run, ExampleRank);
      && r.outcome == Ok
      && r.run.trace == run.trace + [ExampleCall(ExampleA()), ExampleCall(ExampleB())]
      && r.run.plugins.entries["a"] == Record(ExampleCall(ExampleA()), ExampleA(), Some("b"))
  {
    var keys := ["b", "a"];
    var e := ExampleMap(keys);
    var ctx := ExampleContext();
    ExampleLoadB(keys, run);
    var t1 := LoadFrom("b", 0, None, e, ctx, run, ExampleRank);
    assert t1.run.trace == run.trace + [ExampleCall(ExampleA()), ExampleCall(ExampleB())];
    assert e.keys[0] == "b" && e.keys[1] == "a";
    ActivateAllUnfold(0, e, ctx, run, t1.run, t1.outcome, ExampleRank);
    ActivateAllSkip(1, e, ctx, t1.run, ExampleRank);
    ActivateAllEnd(e, ctx, t1.run, ExampleRank);
  }

  /** The options object `Loader` is called with; it writes the `api` default back into it. */
  class LoaderOptions {
    var api: Option<Api>
    const path: string
    const handlers: map<string, HandlerId>

    constructor (path: string, handlers: map<string, HandlerId>, api: Option<Api>)
      ensures this.path == path && this.handlers == handlers && this.api == api
    {
      this.path := path;
      this.handlers := handlers;
      this.api := api;
    }
  }

  /** The exported `Loader`: returns the `plugins` map on success, and no map
      when the run rejects. */
  method LoadPlugins(pluginList: seq<string>, options: LoaderOptions, store: Store, sat: Satisfies, host: HandlerHost,
                     ghost rank: string -> nat)
    returns (plugins: MutableMap?<Record>, outcome: Outcome)
    requires Ranked(store, rank) && "default" in options.handlers
    modifies options, host
    ensures options.api == Some(DefaultApi(old(options.api)))
    ensures var spec := LoaderSpec(pluginList, old(options.api), options.handlers, options.path, store, sat, old(host.trace), rank);
      && outcome == spec.outcome && host.trace == spec.trace
      && (outcome.Ok? ==> plugins != null && plugins.Value() == spec.plugins)
      && (outcome.Fail? ==> plugins == null)
    ensures plugins != null ==> fresh(plugins)
  {
    if options.api.None? {
      options.api := Some(EmptyObject);
    }
    var ctx := Context(options.handlers, options.path, options.api.value);
    var enabledPlugins;
    enabledPlugins, outcome := DiscoverPlugins(pluginList, store);
    if outcome.Fail? {
      return null, outcome;
    }
    DiscoverFromSpec(pluginList, 0, Empty(), store);
    AliasedConsistent(enabledPlugins.Value(), store);
    outcome := CheckEnabled(enabledPlugins, Env(store, sat, ByRange), rank);
    if outcome.Fail? {
      return null, outcome;
    }
    RankedFromStore(enabledPlugins.Value(), store, rank);
    plugins, outcome := ActivateEnabled(enabledPlugins, ctx, host, rank);
  }

  /** One turn of the activation loop, to the state `after` and outcome the load of entry `i` leads to. */
  lemma ActivateAllUnfold(i: nat, available: InsertionMap<Manifest>, ctx: Context, run: Run, after: Run, outcome: Outcome,
                          rank: string -> nat)
    requires ctx.HasDefault() && available.Valid() && RankedMap(available, rank) && run.plugins.Valid()
    requires i < |available.keys| && available.entries[available.keys[i]].name !in run.plugins.entries
    requires Step(after, outcome) == LoadFrom(available.keys[i], 0, None, available, ctx, run, rank)
    ensures after.plugins.Valid()
    ensures outcome.Fail? ==> ActivateAllFrom(i, available, ctx, run, rank) == Step(after, outcome)
    ensures outcome.Ok? ==> ActivateAllFrom(i, available, ctx, run, rank) == ActivateAllFrom(i + 1, available, ctx, after, rank)
  {
  }

  /** The activation loop of `Loader` over `enabledPlugins`, into a fresh `plugins` map. */
  method ActivateEnabled(enabledPlugins: MutableMap<Manifest>, ctx: Context, host: HandlerHost, ghost rank: string -> nat)
    returns (plugins: MutableMap?<Record>, outcome: Outcome)
    requires ctx.HasDefault() && enabledPlugins.Value().Valid() && RankedMap(enabledPlugins.Value(), rank)
    modifies host
    ensures var spec := ActivateAllFrom(0, enabledPlugins.Value(), ctx, Run(Empty(), old(host.trace)), rank);
      && outcome == spec.outcome && host.trace == spec.run.trace
      && (outcome.Ok? ==> plugins != null && plugins.Value() == spec.run.plugins)
      && (outcome.Fail? ==> plugins == null)
    ensures plugins != null ==> fresh(plugins)
  {
    ghost var available := enabledPlugins.Value();
    plugins := new MutableMap();
    var i := 0;
    while i < |enabledPlugins.keys|
      invariant enabledPlugins.Value() == available
      invariant 0 <= i <= |available.keys| && plugins.Value().Valid()
      invariant ActivateAllFrom(i, available, ctx, Run(plugins.Value(), host.trace), rank)
        == ActivateAllFrom(0, available, ctx, Run(Empty(), old(host.trace)), rank)
    {
      ghost var before := Run(plugins.Value(), host.trace);
      var key := enabledPlugins.keys[i];
      var pluginManifest := enabledPlugins.entries[key];
      if pluginManifest.name !in plugins.entries {
        outcome := Load(pluginManifest, key, ctx, enabledPlugins, plugins, host, None, rank);
        ActivateAllUnfold(i, available, ctx, before, Run(plugins.Value(), host.trace), outcome, rank);
        if outcome.Fail? {
          return null, outcome;
        }
      }
      i := i + 1;
    }
    return plugins, Ok;
  }
}
