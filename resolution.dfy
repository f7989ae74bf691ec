/** The first two phases every loader variant runs, written identically in
    src/index.ts, index.ts and lib/PluginLoader.ts:

    1. discovery: fetch a manifest for each requested name into the
       `enabledPlugins` map, keyed by the requested name;
    2. dependency check: walk each entry's dependencies, fetching missing
       ones into the same map and failing on a version that does not satisfy
       its requirement.

    The variants differ only in what they hand to `satisfies` (`CheckStyle`). */
module Resolution {
  import opened Manifests
  import opened InsertionMaps

  /** How `satisfies` is called: with the entry's `version` field, or (the
      oldest loader) with the whole dependency entry. */
  datatype CheckStyle = ByRange | ByEntry

  function RequirementOf(style: CheckStyle, d: Dependency): Requirement
  {
    match style
    case ByRange => RangeOf(d.range)
    case ByEntry => WholeEntry(d)
  }

  /** What the dependency check needs from outside: manifest fetching,
      version satisfaction, and the variant's calling style. */
  datatype Env = Env(store: Store, sat: Satisfies, style: CheckStyle)

  /** Every entry is the store's manifest under the same key, except perhaps for `pluginPath`. */
  ghost predicate Consistent(e: InsertionMap<Manifest>, store: Store)
  {
    && e.Valid()
    && forall k :: k in e.entries ==> k in store && Agrees(e.entries[k], store[k])
  }

  lemma ConsistentEntry(e: InsertionMap<Manifest>, store: Store, k: string)
    requires Consistent(e, store) && k in e.entries
    ensures k in store
    ensures e.entries[k].dependencies == store[k].dependencies && e.entries[k].version == store[k].version
  {
    assert Agrees(e.entries[k], store[k]);
  }

  /** A consistent map has no more keys than the store has names. */
  lemma ConsistentBound(e: InsertionMap<Manifest>, store: Store)
    requires Consistent(e, store)
    ensures |e.keys| <= |store|
  {
    forall i | 0 <= i < |e.keys| ensures e.keys[i] in store.Keys {
      assert e.keys[i] in e.entries;
    }
    DistinctBound(e.keys, store.Keys);
  }

  /** Every key `b` has beyond `a` holds the store's manifest for that key, untouched. */
  ghost predicate GrownFromStore(a: InsertionMap<Manifest>, b: InsertionMap<Manifest>, store: Store)
  {
    forall k :: k in b.entries && k !in a.entries ==> k in store && b.entries[k] == store[k]
  }

  // ---------------------------------------------------------------------
  // Phase 1: discovery
  // ---------------------------------------------------------------------

  datatype Discovered = Discovered(enabled: InsertionMap<Manifest>) | Rejected(error: LoadError)

  /** The first requested name the store cannot produce, if any. */
  function FirstMissing(names: seq<string>, store: Store): (r: Option<string>)
    ensures r.None? <==> forall n :: n in names ==> n in store
    ensures r.Some? ==> r.value in names && r.value !in store
    ensures r.Some? ==> exists i :: 0 <= i < |names| && names[i] == r.value && forall j :: 0 <= j < i ==> names[j] in store
  {
    if names == [] then None
    else if names[0] !in store then Some(names[0])
    else
      var rest := FirstMissing(names[1..], store);
      assert forall j :: 1 <= j < |names| ==> names[j] == names[1..][j - 1];
      rest
  }

  /** The discovery loop from the `i`-th requested name on. */
  function DiscoverFrom(names: seq<string>, i: nat, e: InsertionMap<Manifest>, store: Store): (r: Discovered)
    requires i <= |names| && e.Valid()
    ensures r.Discovered? ==> r.enabled.Valid()
    ensures r.Discovered? ==> forall k :: k in e.entries ==> k in r.enabled.entries
    ensures r.Discovered? ==> forall j :: i <= j < |names| ==> names[j] in r.enabled.entries
    ensures r.Rejected? ==> exists j :: i <= j < |names| && names[j] !in store && r.error == InvalidManifest(names[j])
    decreases |names| - i
  {
    if i == |names| then Discovered(e)
    else if names[i] !in store then Rejected(InvalidManifest(names[i]))
    else DiscoverFrom(names, i + 1, e.Set(names[i], Aliased(store[names[i]], names[i])), store)
  }

  /** The discovery phase: every requested name becomes a key, or the run is
      rejected naming a request the store cannot produce. */
  function Discover(names: seq<string>, store: Store): (r: Discovered)
    ensures r.Discovered? ==> r.enabled.Valid() && forall n :: n in names ==> n in r.enabled.entries
    ensures r.Rejected? ==> exists n :: n in names && n !in store && r.error == InvalidManifest(n)
  {
    DiscoverFrom(names, 0, Empty(), store)
  }

  /** Each entry is the store's manifest for its key, with the request recorded as alias. */
  ghost predicate AllAliased(e: InsertionMap<Manifest>, store: Store)
  {
    forall k :: k in e.entries ==> k in store && e.entries[k] == Aliased(store[k], k)
  }

  lemma {:induction false} DiscoverFromSpec(names: seq<string>, i: nat, e: InsertionMap<Manifest>, store: Store)
    requires i <= |names| && e.Valid() && AllAliased(e, store)
    ensures var r := DiscoverFrom(names, i, e, store);
      && (r.Rejected? <==> FirstMissing(names[i..], store).Some?)
      && (r.Rejected? ==> r.error == InvalidManifest(FirstMissing(names[i..], store).value))
      && (r.Discovered? ==>
            && AllAliased(r.enabled, store)
            && forall k :: k in r.enabled.entries <==> k in e.entries || k in names[i..])
    decreases |names| - i
  {
    if i < |names| {
      FirstMissingStep(names, i, store);
      if names[i] in store {
        var e' := e.Set(names[i], Aliased(store[names[i]], names[i]));
        DiscoverFromSpec(names, i + 1, e', store);
      }
    }
  }

  /** Discovery sets the remaining requested names in order, so the keys are
      the old ones followed by each new request at its first occurrence. */
  lemma {:induction false} DiscoverFromOrder(names: seq<string>, i: nat, e: InsertionMap<Manifest>, store: Store)
    requires i <= |names| && e.Valid()
    ensures var r := DiscoverFrom(names, i, e, store);
      r.Discovered? ==> r.enabled.keys == AppendNew(e.keys, names[i..])
    decreases |names| - i
  {
    if i < |names| {
      assert names[i..][0] == names[i];
      assert names[i..][1..] == names[i + 1..];
      if names[i] in store {
        var e' := e.Set(names[i], Aliased(store[names[i]], names[i]));
        DiscoverFromOrder(names, i + 1, e', store);
      }
    }
  }

  /** `FirstMissing` over the names from `i` on, one name at a time. */
  lemma FirstMissingStep(names: seq<string>, i: nat, store: Store)
    requires i < |names|
    ensures FirstMissing(names[i..], store)
      == if names[i] !in store then Some(names[i]) else FirstMissing(names[i + 1..], store)
    ensures forall k :: k in names[i..] <==> k == names[i] || k in names[i + 1..]
  {
    assert names[i..][0] == names[i];
    assert names[i..][1..] == names[i + 1..];
    assert names[i..] == [names[i]] + names[i + 1..];
  }

  /** Discovery fails with "Invalid manifest: <name>" for the first requested
      name whose manifest cannot be fetched; otherwise every requested name is
      a key, in order of first request (exactly the request order when no name
      is requested twice), holding its manifest with `pluginPath` set to the
      name exactly when the declared name differs from it. */
  lemma DiscoverSpec(names: seq<string>, store: Store)
    ensures var r := Discover(names, store);
      && (r.Rejected? <==> exists n :: n in names && n !in store)
      && (r.Rejected? ==> r.error == InvalidManifest(FirstMissing(names, store).value))
      && (r.Discovered? ==> r.enabled.keys == AppendNew([], names))
      && (r.Discovered? && (forall i, j :: 0 <= i < j < |names| ==> names[i] != names[j]) ==> r.enabled.keys == names)
      && (r.Discovered? ==>
            && (forall k :: k in r.enabled.entries <==> k in names)
            && forall n :: n in names ==>
                 && r.enabled.entries[n] == store[n].(pluginPath := r.enabled.entries[n].pluginPath)
                 && r.enabled.entries[n].pluginPath
                    == (if store[n].name != n then Some(n) else store[n].pluginPath))
  {
    DiscoverFromSpec(names, 0, Empty(), store);
    DiscoverOrder(names, store);
    assert names[0..] == names;
  }

  /** The key order discovery leaves: first occurrences of the requests, in order. */
  lemma DiscoverOrder(names: seq<string>, store: Store)
    ensures var r := Discover(names, store);
      && (r.Discovered? ==> r.enabled.keys == AppendNew([], names))
      && (r.Discovered? && (forall i, j :: 0 <= i < j < |names| ==> names[i] != names[j]) ==> r.enabled.keys == names)
  {
    DiscoverFromOrder(names, 0, Empty(), store);
    assert names[0..] == names;
    if forall i, j :: 0 <= i < j < |names| ==> names[i] != names[j] {
      AppendNewDistinct([], names);
    }
  }

  lemma AliasedConsistent(e: InsertionMap<Manifest>, store: Store)
    requires e.Valid() && AllAliased(e, store)
    ensures Consistent(e, store)
  {
  }

  // ---------------------------------------------------------------------
  // Phase 2: dependency check
  // ---------------------------------------------------------------------

  /** The verdict on one dependency, stated on the store alone: fetchable, and
      its version satisfies the requirement. */
  function DependencyVerdict(d: Dependency, env: Env): (r: Outcome)
    ensures r == Ok <==> d.name in env.store && env.sat(env.store[d.name].version, RequirementOf(env.style, d))
    ensures r.Fail? ==> r.error == FetchFailed(d.name) || r.error.DependencyNotMet?
    ensures r.Fail? && r.error.DependencyNotMet? ==>
      && d.name in env.store
      && r.error == DependencyNotMet(d.name, RequirementOf(env.style, d), env.store[d.name].version)
  {
    if d.name !in env.store then Fail(FetchFailed(d.name))
    else
      var req := RequirementOf(env.style, d);
      var got := env.store[d.name].version;
      if !env.sat(got, req) then Fail(DependencyNotMet(d.name, req, got)) else Ok
  }

  /** The verdict on the first failing dependency in order, or `Ok`. */
  function FirstUnmet(deps: seq<Dependency>, env: Env): (r: Outcome)
    ensures r == Ok <==> forall j :: 0 <= j < |deps| ==> DependencyVerdict(deps[j], env) == Ok
    ensures r.Fail? ==>
      exists i :: 0 <= i < |deps| && DependencyVerdict(deps[i], env) == r && forall j :: 0 <= j < i ==> DependencyVerdict(deps[j], env) == Ok
  {
    if deps == [] then Ok
    else if DependencyVerdict(deps[0], env).Fail? then DependencyVerdict(deps[0], env)
    else
      var rest := FirstUnmet(deps[1..], env);
      assert forall j :: 1 <= j < |deps| ==> deps[j] == deps[1..][j - 1];
      rest
  }

  datatype Checked = Checked(enabled: InsertionMap<Manifest>, outcome: Outcome)

  /** `checkDependencies(owner)` from its `i`-th dependency on, starting from
      map `e`. `key` is the key the owner's manifest is stored under; it and
      `rank` only serve the termination argument. */
  function CheckFrom(owner: Manifest, i: nat, ghost key: string, e: InsertionMap<Manifest>, env: Env, ghost rank: string -> nat)
    : (r: Checked)
    requires Ranked(env.store, rank) && Consistent(e, env.store)
    requires key in env.store && owner.dependencies == env.store[key].dependencies
    requires i <= |owner.dependencies|
    ensures Consistent(r.enabled, env.store)
    ensures Extends(e, r.enabled) && GrownFromStore(e, r.enabled, env.store)
    ensures r.outcome == FirstUnmet(owner.dependencies[i..], env)
    decreases rank(key), |owner.dependencies| - i
  {
    var deps := owner.dependencies;
    if i == |deps| then Checked(e, Ok)
    else
      var d := deps[i];
      assert deps[i..][0] == d && deps[i..][1..] == deps[i + 1..];
      if d.name !in e.entries && d.name !in env.store then Checked(e, Fail(FetchFailed(d.name)))
      else
        var e1 := if d.name in e.entries then e else e.Set(d.name, env.store[d.name]);
        var dep := e1.entries[d.name];
        var req := RequirementOf(env.style, d);
        if !env.sat(dep.version, req) then Checked(e1, Fail(DependencyNotMet(d.name, req, dep.version)))
        else
          assert d == env.store[key].dependencies[i];
          // The nested call is not awaited in the source: what it adds to the
          // map stays, but its rejection never reaches this caller.
          var nested := CheckFrom(dep, 0, d.name, e1, env, rank);
          assert deps[0..] == deps;
          ExtendsTransitive(e, e1, nested.enabled);
          var rest := CheckFrom(owner, i + 1, key, nested.enabled, env, rank);
          ExtendsTransitive(e, nested.enabled, rest.enabled);
          rest
  }

  /** When the check passes, every dependency from the `i`-th on is a key of the map. */
  lemma {:induction false} CheckFromPresent(owner: Manifest, i: nat, key: string, e: InsertionMap<Manifest>, env: Env, rank: string -> nat)
    requires Ranked(env.store, rank) && Consistent(e, env.store)
    requires key in env.store && owner.dependencies == env.store[key].dependencies
    requires i <= |owner.dependencies|
    ensures var r := CheckFrom(owner, i, key, e, env, rank);
      r.outcome.Ok? ==> forall j :: i <= j < |owner.dependencies| ==> owner.dependencies[j].name in r.enabled.entries
    decreases |owner.dependencies| - i
  {
    var deps := owner.dependencies;
    if i < |deps| {
      var d := deps[i];
      if d.name in e.entries || d.name in env.store {
        var e1 := if d.name in e.entries then e else e.Set(d.name, env.store[d.name]);
        var dep := e1.entries[d.name];
        if env.sat(dep.version, RequirementOf(env.style, d)) {
          assert d == env.store[key].dependencies[i];
          var nested := CheckFrom(dep, 0, d.name, e1, env, rank);
          CheckFromPresent(owner, i + 1, key, nested.enabled, env, rank);
          var rest := CheckFrom(owner, i + 1, key, nested.enabled, env, rank);
          ExtendsTransitive(e1, nested.enabled, rest.enabled);
        }
      }
    }
  }

  /** The `for (const manifest of enabledPlugins.values())` loop from its
      `i`-th entry on. Iterating a `Map` visits entries appended while the
      loop runs, so the entries the check fetches are checked in turn. */
  function CheckAllFrom(i: nat, e: InsertionMap<Manifest>, env: Env, ghost rank: string -> nat): (r: Checked)
    requires Ranked(env.store, rank) && Consistent(e, env.store) && i <= |e.keys|
    ensures Consistent(r.enabled, env.store)
    ensures Extends(e, r.enabled) && GrownFromStore(e, r.enabled, env.store)
    decreases |env.store| - i
  {
    DistinctBound(e.keys, env.store.Keys);
    if i == |e.keys| then Checked(e, Ok)
    else
      var k := e.keys[i];
      var c := CheckFrom(e.entries[k], 0, k, e, env, rank);
      if c.outcome.Fail? then c
      else
        var rest := CheckAllFrom(i + 1, c.enabled, env, rank);
        ExtendsTransitive(e, c.enabled, rest.enabled);
        rest
  }

  /** The entry under `k` has every dependency fetchable and satisfied, and present in `e`. */
  ghost predicate EntryMet(e: InsertionMap<Manifest>, k: string, env: Env)
  {
    && k in e.entries
    && FirstUnmet(e.entries[k].dependencies, env) == Ok
    && forall d :: d in e.entries[k].dependencies ==> d.name in e.entries
  }

  lemma CheckFromAll(m: Manifest, key: string, e: InsertionMap<Manifest>, env: Env, rank: string -> nat)
    requires Ranked(env.store, rank) && Consistent(e, env.store)
    requires key in env.store && m.dependencies == env.store[key].dependencies
    ensures var c := CheckFrom(m, 0, key, e, env, rank);
      && c.outcome == FirstUnmet(m.dependencies, env)
      && (c.outcome.Ok? ==> forall d :: d in m.dependencies ==> d.name in c.enabled.entries)
  {
    CheckFromOutcome(m, key, e, env, rank);
    CheckFromPresent(m, 0, key, e, env, rank);
    NamesPresent(m.dependencies, CheckFrom(m, 0, key, e, env, rank).enabled);
  }

  lemma CheckFromOutcome(m: Manifest, key: string, e: InsertionMap<Manifest>, env: Env, rank: string -> nat)
    requires Ranked(env.store, rank) && Consistent(e, env.store)
    requires key in env.store && m.dependencies == env.store[key].dependencies
    ensures CheckFrom(m, 0, key, e, env, rank).outcome == FirstUnmet(m.dependencies, env)
  {
    assert m.dependencies[0..] == m.dependencies;
  }

  lemma NamesPresent(deps: seq<Dependency>, e: InsertionMap<Manifest>)
    ensures (forall j :: 0 <= j < |deps| ==> deps[j].name in e.entries) ==> forall d :: d in deps ==> d.name in e.entries
  {
    if forall j :: 0 <= j < |deps| ==> deps[j].name in e.entries {
      forall d | d in deps ensures d.name in e.entries {
        var j :| 0 <= j < |deps| && deps[j] == d;
      }
    }
  }

  /** An entry present before an extension keeps its position and its value. */
  lemma ExtendsAt<V>(a: InsertionMap<V>, b: InsertionMap<V>, i: nat)
    requires a.Valid() && Extends(a, b) && i < |a.keys|
    ensures i < |b.keys| && b.keys[i] == a.keys[i]
    ensures a.keys[i] in b.entries && b.entries[a.keys[i]] == a.entries[a.keys[i]]
  {
    assert a.keys[i] in a.entries;
  }

  /** One turn of the dependency-phase loop: check entry `i`, then go on or stop. */
  lemma CheckAllFromUnfold(i: nat, e: InsertionMap<Manifest>, env: Env, rank: string -> nat)
    requires Ranked(env.store, rank) && Consistent(e, env.store) && i < |e.keys|
    ensures var k := e.keys[i]; var c := CheckFrom(e.entries[k], 0, k, e, env, rank);
      && Consistent(c.enabled, env.store) && Extends(e, c.enabled)
      && i < |c.enabled.keys| && c.enabled.keys[i] == k
      && k in c.enabled.entries && c.enabled.entries[k] == e.entries[k]
      && CheckAllFrom(i, e, env, rank) == (if c.outcome.Fail? then c else CheckAllFrom(i + 1, c.enabled, env, rank))
  {
    var k := e.keys[i];
    var c := CheckFrom(e.entries[k], 0, k, e, env, rank);
    ExtendsAt(e, c.enabled, i);
  }

  /** Entry `i` of `a` is met, and so is every entry after it in `b`, which extends `a`. */
  lemma EntryMetFrom(a: InsertionMap<Manifest>, b: InsertionMap<Manifest>, i: nat, env: Env)
    requires a.Valid() && Extends(a, b) && i < |a.keys|
    requires FirstUnmet(a.entries[a.keys[i]].dependencies, env) == Ok
    requires forall d :: d in a.entries[a.keys[i]].dependencies ==> d.name in a.entries
    requires forall j :: i + 1 <= j < |b.keys| ==> EntryMet(b, b.keys[j], env)
    ensures forall j :: i <= j < |b.keys| ==> EntryMet(b, b.keys[j], env)
  {
    ExtendsAt(a, b, i);
    assert EntryMet(b, a.keys[i], env);
  }

  /** On success every entry from the `i`-th on, including those the loop
      appended, has its dependencies met and present. */
  lemma {:induction false} CheckAllFromSucceeds(i: nat, e: InsertionMap<Manifest>, env: Env, rank: string -> nat)
    requires Ranked(env.store, rank) && Consistent(e, env.store) && i <= |e.keys|
    ensures var r := CheckAllFrom(i, e, env, rank);
      r.outcome.Ok? ==> forall j :: i <= j < |r.enabled.keys| ==> EntryMet(r.enabled, r.enabled.keys[j], env)
    decreases |env.store| - i
  {
    ConsistentBound(e, env.store);
    if i < |e.keys| {
      var k := e.keys[i];
      var m := e.entries[k];
      var c := CheckFrom(m, 0, k, e, env, rank);
      CheckAllFromUnfold(i, e, env, rank);
      if c.outcome.Ok? {
        CheckFromAll(m, k, e, env, rank);
        CheckAllFromSucceeds(i + 1, c.enabled, env, rank);
        var r := CheckAllFrom(i + 1, c.enabled, env, rank);
        if r.outcome.Ok? {
          EntryMetFrom(c.enabled, r.enabled, i, env);
        }
      }
    }
  }

  /** When entry `i` passes its check, the loop goes on with the next entry of the grown map. */
  lemma CheckAllFromNext(i: nat, e: InsertionMap<Manifest>, env: Env, rank: string -> nat)
    requires Ranked(env.store, rank) && Consistent(e, env.store) && i < |e.keys|
    requires CheckFrom(e.entries[e.keys[i]], 0, e.keys[i], e, env, rank).outcome.Ok?
    ensures var c := CheckFrom(e.entries[e.keys[i]], 0, e.keys[i], e, env, rank);
      && Consistent(c.enabled, env.store) && i + 1 <= |c.enabled.keys|
      && CheckAllFrom(i, e, env, rank) == CheckAllFrom(i + 1, c.enabled, env, rank)
  {
    CheckAllFromUnfold(i, e, env, rank);
  }

  /** When entry `i` fails its check, the loop stops with that entry's first unmet dependency. */
  lemma CheckAllFromFailsAt(i: nat, e: InsertionMap<Manifest>, env: Env, rank: string -> nat)
    requires Ranked(env.store, rank) && Consistent(e, env.store) && i < |e.keys|
    requires CheckFrom(e.entries[e.keys[i]], 0, e.keys[i], e, env, rank).outcome.Fail?
    ensures var r := CheckAllFrom(i, e, env, rank);
      i < |r.enabled.keys| && FirstUnmet(r.enabled.entries[r.enabled.keys[i]].dependencies, env) == r.outcome
  {
    var k := e.keys[i];
    CheckAllFromUnfold(i, e, env, rank);
    CheckFromAll(e.entries[k], k, e, env, rank);
  }

  /** A failure is the first unmet dependency of some entry from the `i`-th on. */
  lemma {:induction false} CheckAllFromFailure(i: nat, e: InsertionMap<Manifest>, env: Env, rank: string -> nat)
    requires Ranked(env.store, rank) && Consistent(e, env.store) && i <= |e.keys|
    ensures var r := CheckAllFrom(i, e, env, rank);
      r.outcome.Fail? ==>
        exists j :: i <= j < |r.enabled.keys| && FirstUnmet(r.enabled.entries[r.enabled.keys[j]].dependencies, env) == r.outcome
    decreases |env.store| - i
  {
    ConsistentBound(e, env.store);
    if i < |e.keys| {
      var k := e.keys[i];
      var c := CheckFrom(e.entries[k], 0, k, e, env, rank);
      if c.outcome.Ok? {
        CheckAllFromNext(i, e, env, rank);
        CheckAllFromFailure(i + 1, c.enabled, env, rank);
      } else {
        CheckAllFromFailsAt(i, e, env, rank);
      }
    }
  }

  lemma CheckAllFromSpec(i: nat, e: InsertionMap<Manifest>, env: Env, rank: string -> nat)
    requires Ranked(env.store, rank) && Consistent(e, env.store) && i <= |e.keys|
    ensures var r := CheckAllFrom(i, e, env, rank);
      && (r.outcome.Ok? ==> forall j :: i <= j < |r.enabled.keys| ==> EntryMet(r.enabled, r.enabled.keys[j], env))
      && (r.outcome.Fail? ==>
            exists j :: i <= j < |r.enabled.keys|
              && FirstUnmet(r.enabled.entries[r.enabled.keys[j]].dependencies, env) == r.outcome)
  {
    CheckAllFromSucceeds(i, e, env, rank);
    CheckAllFromFailure(i, e, env, rank);
  }

  /** The dependency phase succeeds exactly when every manifest in the map it
      leaves behind, requested or fetched, has all of its dependencies
      fetchable and satisfied. On success the map is closed under
      dependencies, and each dependency's stored version satisfies what its
      dependent requires. Nothing requested is dropped or overwritten. */
  lemma ValidatedClosure(e: InsertionMap<Manifest>, env: Env, rank: string -> nat)
    requires Ranked(env.store, rank) && Consistent(e, env.store)
    ensures var r := CheckAllFrom(0, e, env, rank);
      && Extends(e, r.enabled)
      && (r.outcome.Ok? <==>
            forall k :: k in r.enabled.entries ==> FirstUnmet(r.enabled.entries[k].dependencies, env) == Ok)
      && (r.outcome.Ok? ==>
            forall k, d :: k in r.enabled.entries && d in r.enabled.entries[k].dependencies ==>
              && d.name in r.enabled.entries
              && env.sat(r.enabled.entries[d.name].version, RequirementOf(env.style, d)))
  {
    CheckAllFromSpec(0, e, env, rank);
    ClosureFromEntries(CheckAllFrom(0, e, env, rank), env);
  }

  /** A dependency of an entry whose stored version fails its requirement
      makes the dependency phase fail. */
  lemma UnmetRejects(e: InsertionMap<Manifest>, env: Env, rank: string -> nat, n: string, d: Dependency)
    requires Ranked(env.store, rank) && Consistent(e, env.store)
    requires n in e.entries && d in e.entries[n].dependencies
    requires d.name in env.store && !env.sat(env.store[d.name].version, RequirementOf(env.style, d))
    ensures CheckAllFrom(0, e, env, rank).outcome.Fail?
  {
    ValidatedClosure(e, env, rank);
    var r := CheckAllFrom(0, e, env, rank);
    assert n in r.enabled.entries && r.enabled.entries[n] == e.entries[n];
    assert d.name in r.enabled.entries ==> Agrees(r.enabled.entries[d.name], env.store[d.name]);
  }

  lemma ClosureFromEntries(r: Checked, env: Env)
    requires Consistent(r.enabled, env.store)
    requires r.outcome.Ok? ==> forall j :: 0 <= j < |r.enabled.keys| ==> EntryMet(r.enabled, r.enabled.keys[j], env)
    requires r.outcome.Fail? ==>
      exists j :: 0 <= j < |r.enabled.keys| && FirstUnmet(r.enabled.entries[r.enabled.keys[j]].dependencies, env) == r.outcome
    ensures r.outcome.Ok? <==>
      forall k :: k in r.enabled.entries ==> FirstUnmet(r.enabled.entries[k].dependencies, env) == Ok
    ensures r.outcome.Ok? ==>
      forall k, d :: k in r.enabled.entries && d in r.enabled.entries[k].dependencies ==>
        && d.name in r.enabled.entries
        && env.sat(r.enabled.entries[d.name].version, RequirementOf(env.style, d))
  {
    if r.outcome.Ok? {
      forall k | k in r.enabled.entries ensures EntryMet(r.enabled, k, env) {
        var j :| 0 <= j < |r.enabled.keys| && r.enabled.keys[j] == k;
      }
      forall k, d | k in r.enabled.entries && d in r.enabled.entries[k].dependencies
        ensures d.name in r.enabled.entries
        ensures env.sat(r.enabled.entries[d.name].version, RequirementOf(env.style, d))
      {
        assert EntryMet(r.enabled, k, env);
        var deps := r.enabled.entries[k].dependencies;
        var j :| 0 <= j < |deps| && deps[j] == d;
        assert DependencyVerdict(deps[j], env) == Ok;
        assert Agrees(r.enabled.entries[d.name], env.store[d.name]);
      }
    } else {
      var j :| 0 <= j < |r.enabled.keys|
        && FirstUnmet(r.enabled.entries[r.enabled.keys[j]].dependencies, env) == r.outcome;
      assert r.enabled.keys[j] in r.enabled.entries;
    }
  }

  // ---------------------------------------------------------------------
  // The same two phases, run in place on a `Map` object.
  // ---------------------------------------------------------------------

  /** `checkDependencies(manifest, path, enabledPlugins)`. */
  method CheckDependencies(manifest: Manifest, ghost key: string, enabledPlugins: MutableMap<Manifest>, env: Env,
                           ghost rank: string -> nat)
    returns (outcome: Outcome)
    requires Ranked(env.store, rank) && Consistent(enabledPlugins.Value(), env.store)
    requires key in env.store && manifest.dependencies == env.store[key].dependencies
    modifies enabledPlugins
    ensures Checked(enabledPlugins.Value(), outcome) == CheckFrom(manifest, 0, key, old(enabledPlugins.Value()), env, rank)
    decreases rank(key)
  {
    var i := 0;
    while i < |manifest.dependencies|
      invariant 0 <= i <= |manifest.dependencies|
      invariant Consistent(enabledPlugins.Value(), env.store)
      invariant CheckFrom(manifest, i, key, enabledPlugins.Value(), env, rank)
             == CheckFrom(manifest, 0, key, old(enabledPlugins.Value()), env, rank)
    {
      var d := manifest.dependencies[i];
      var dep: Manifest;
      if d.name in enabledPlugins.entries {
        dep := enabledPlugins.entries[d.name];
      } else {
        if d.name !in env.store {
          return Fail(FetchFailed(d.name));
        }
        dep := env.store[d.name];
        enabledPlugins.Set(d.name, dep);
      }
      var req := RequirementOf(env.style, d);
      if !env.sat(dep.version, req) {
        return Fail(DependencyNotMet(d.name, req, dep.version));
      }
      assert d == env.store[key].dependencies[i];
      // Not awaited in the source: the nested call's changes to the map stay,
      // its rejection is dropped.
      var _ := CheckDependencies(dep, d.name, enabledPlugins, env, rank);
      i := i + 1;
    }
    return Ok;
  }

  /** One turn of the dependency-phase loop, unfolded. */
  lemma CheckAllStep(i: nat, e: InsertionMap<Manifest>, after: InsertionMap<Manifest>, outcome: Outcome, env: Env,
                     rank: string -> nat)
    requires Ranked(env.store, rank) && Consistent(e, env.store) && i < |e.keys|
    requires Checked(after, outcome) == CheckFrom(e.entries[e.keys[i]], 0, e.keys[i], e, env, rank)
    ensures Consistent(after, env.store) && i + 1 <= |after.keys|
    ensures outcome.Fail? ==> CheckAllFrom(i, e, env, rank) == Checked(after, outcome)
    ensures outcome.Ok? ==> CheckAllFrom(i, e, env, rank) == CheckAllFrom(i + 1, after, env, rank)
  {
  }

  /** The discovery loop: a fresh `enabledPlugins` map filled from the request list. */
  method DiscoverPlugins(pluginList: seq<string>, store: Store) returns (enabledPlugins: MutableMap<Manifest>, outcome: Outcome)
    ensures fresh(enabledPlugins)
    ensures outcome == Ok <==> Discover(pluginList, store).Discovered?
    ensures outcome == Ok ==> Discover(pluginList, store).enabled == enabledPlugins.Value()
    ensures outcome.Fail? ==> outcome.error == Discover(pluginList, store).error
  {
    enabledPlugins := new MutableMap();
    var i := 0;
    while i < |pluginList|
      invariant 0 <= i <= |pluginList|
      invariant enabledPlugins.Value().Valid()
      invariant DiscoverFrom(pluginList, i, enabledPlugins.Value(), store) == Discover(pluginList, store)
    {
      var pluginName := pluginList[i];
      if pluginName !in store {
        return enabledPlugins, Fail(InvalidManifest(pluginName));
      }
      var manifest := store[pluginName];
      if manifest.name != pluginName {
        manifest := manifest.(pluginPath := Some(pluginName));
      }
      assert manifest == Aliased(store[pluginName], pluginName);
      enabledPlugins.Set(pluginName, manifest);
      i := i + 1;
    }
    return enabledPlugins, Ok;
  }

  /** The dependency-phase loop over the live `enabledPlugins` map. */
  method CheckEnabled(enabledPlugins: MutableMap<Manifest>, env: Env, ghost rank: string -> nat) returns (outcome: Outcome)
    requires Ranked(env.store, rank) && Consistent(enabledPlugins.Value(), env.store)
    modifies enabledPlugins
    ensures Checked(enabledPlugins.Value(), outcome) == CheckAllFrom(0, old(enabledPlugins.Value()), env, rank)
  {
    ConsistentBound(enabledPlugins.Value(), env.store);
    var i := 0;
    while i < |enabledPlugins.keys|
      invariant 0 <= i <= |enabledPlugins.keys|
      invariant Consistent(enabledPlugins.Value(), env.store)
      invariant CheckAllFrom(i, enabledPlugins.Value(), env, rank) == CheckAllFrom(0, old(enabledPlugins.Value()), env, rank)
      invariant |enabledPlugins.keys| <= |env.store|
      decreases |env.store| - i
    {
      ghost var before := enabledPlugins.Value();
      var key := enabledPlugins.keys[i];
      ConsistentEntry(before, env.store, key);
      outcome := CheckDependencies(enabledPlugins.entries[key], key, enabledPlugins, env, rank);
      CheckAllStep(i, before, enabledPlugins.Value(), outcome, env, rank);
      ConsistentBound(enabledPlugins.Value(), env.store);
      if outcome.Fail? {
        return;
      }
      i := i + 1;
    }
    return Ok;
  }
}
