/** Handler selection and invocation, as src/index.ts and index.ts write it.

    A manifest's `type` picks the handler that activates it: a registered
    non-empty tag selects its handler, anything else the mandatory default. An
    array of tags builds a chain: the first tag's handler is called, each later
    tag's handler is called with the previous result, and the last result is
    the handler. Handlers are opaque; a call returns the symbolic `Instance`
    naming who was called with what, and every call is appended to a trace. */
module Handlers {
  import opened Manifests

  /** What a loader hands to handlers: the `handlers` option, the base path and the `api` value. */
  datatype Context = Context(handlers: map<string, HandlerId>, path: string, api: Api)
  {
    ghost predicate HasDefault()
    {
      "default" in handlers
    }
  }

  /** The handler a plain string `type` selects: the `type && handlers[type]` test. */
  function HandlerFor(tag: string, ctx: Context): (r: HandlerId)
    requires ctx.HasDefault()
    ensures r in ctx.handlers.Values
    ensures r == ctx.handlers["default"] || (tag != "" && tag in ctx.handlers && r == ctx.handlers[tag])
  {
    if tag != "" && tag in ctx.handlers then ctx.handlers[tag] else ctx.handlers["default"]
  }

  datatype Choice = Chosen(callee: Callee) | Refused(error: LoadError)

  /** The handler calls selection made, and what it chose. */
  datatype Selected = Selected(calls: seq<Instance>, choice: Choice)

  /** The `reduce` over the tags after the first, from tag `j` on, with `acc`
      the last result and `calls` the calls made so far. */
  function ChainFrom(p: Manifest, tags: seq<string>, j: nat, acc: Instance, ctx: Context, calls: seq<Instance>): (r: Selected)
    ensures |calls| <= |r.calls| && r.calls[..|calls|] == calls
    ensures j <= |tags| ==> |r.calls| <= |calls| + (|tags| - j)
    ensures j >= |tags| ==> r.calls == calls
    ensures r.choice.Refused? ==> exists l :: j <= l < |tags| && tags[l] !in ctx.handlers && r.choice.error == HandlerNotFound(tags[l])
    ensures r.choice.Chosen? ==> r.choice.callee == Returned(if |r.calls| == |calls| then acc else r.calls[|r.calls| - 1])
    decreases |tags| - j
  {
    if j >= |tags| then Selected(calls, Chosen(Returned(acc)))
    else if tags[j] !in ctx.handlers then Selected(calls, Refused(HandlerNotFound(tags[j])))
    else
      var next := Call(Registered(ctx.handlers[tags[j]]), Named(p, ctx.path, ctx.api, Some(acc)));
      ChainFrom(p, tags, j + 1, next, ctx, calls + [next])
  }

  /** Handler selection for manifest `p`. For an array type the first element
      is looked up with no check, so an unregistered one (or the `undefined`
      of an empty array) is called as a non-function. */
  function Select(p: Manifest, ctx: Context): (r: Selected)
    requires ctx.HasDefault()
    ensures !p.pluginType.Chain? ==>
      r.calls == [] && r.choice.Chosen? && r.choice.callee.Registered? && r.choice.callee.id in ctx.handlers.Values
    ensures p.pluginType.Chain? ==> |r.calls| <= if p.pluginType.tags == [] then 1 else |p.pluginType.tags|
    ensures p.pluginType.Chain? && r.choice.Chosen? ==> |r.calls| > 0 && r.choice.callee == Returned(r.calls[|r.calls| - 1])
  {
    match p.pluginType
    case Untyped => Selected([], Chosen(Registered(ctx.handlers["default"])))
    case Single(tag) => Selected([], Chosen(Registered(HandlerFor(tag, ctx))))
    case Chain(tags) =>
      var first := if |tags| == 0 then "undefined" else tags[0];
      if first !in ctx.handlers then Selected([], Refused(NotAFunction(first)))
      else
        var acc := Call(Registered(ctx.handlers[first]), Named(p, ctx.path, ctx.api, None));
        ChainFrom(p, tags, 1, acc, ctx, [acc])
  }

  /** The call a handler makes to activate `p` once it has been chosen. */
  function Activation(p: Manifest, callee: Callee, ctx: Context): Instance
  {
    Call(callee, Named(p, ctx.path, ctx.api, None))
  }

  /** `calls` are the first `n` calls of the chain for `tags`: each tag's
      handler, given the previous call's result. */
  ghost predicate ChainCalls(p: Manifest, tags: seq<string>, n: nat, calls: seq<Instance>, ctx: Context)
  {
    && n <= |tags| && |calls| == n
    && forall j :: 0 <= j < n ==> ChainCall(p, tags, j, calls, ctx)
  }

  /** Call `j` of the chain is tag `j`'s handler, given the previous result after the first. */
  ghost predicate ChainCall(p: Manifest, tags: seq<string>, j: nat, calls: seq<Instance>, ctx: Context)
    requires j < |tags| && j < |calls|
  {
    && tags[j] in ctx.handlers
    && calls[j] == Call(Registered(ctx.handlers[tags[j]]),
                        Named(p, ctx.path, ctx.api, if j == 0 then None else Some(calls[j - 1])))
  }

  /** One more step of the chain keeps `ChainCalls`. */
  lemma ChainStep(p: Manifest, tags: seq<string>, j: nat, calls: seq<Instance>, ctx: Context)
    requires 1 <= j < |tags| && ChainCalls(p, tags, j, calls, ctx) && tags[j] in ctx.handlers
    ensures ChainCalls(p, tags, j + 1,
                       calls + [Call(Registered(ctx.handlers[tags[j]]), Named(p, ctx.path, ctx.api, Some(calls[j - 1])))], ctx)
  {
    var calls' := calls + [Call(Registered(ctx.handlers[tags[j]]), Named(p, ctx.path, ctx.api, Some(calls[j - 1])))];
    forall i | 0 <= i < j + 1 ensures ChainCall(p, tags, i, calls', ctx) {
      if i < j {
        assert ChainCall(p, tags, i, calls, ctx);
        assert calls'[i] == calls[i];
        if i > 0 { assert calls'[i - 1] == calls[i - 1]; }
      } else {
        assert calls'[i - 1] == calls[j - 1];
      }
    }
  }

  lemma {:induction false} ChainFromRegistered(p: Manifest, tags: seq<string>, j: nat, ctx: Context, calls: seq<Instance>)
    requires 1 <= j <= |tags| && ChainCalls(p, tags, j, calls, ctx)
    requires forall l :: j <= l < |tags| ==> tags[l] in ctx.handlers
    ensures var r := ChainFrom(p, tags, j, calls[j - 1], ctx, calls);
      ChainCalls(p, tags, |tags|, r.calls, ctx) && r.choice == Chosen(Returned(r.calls[|tags| - 1]))
    decreases |tags| - j
  {
    if j < |tags| {
      ChainStep(p, tags, j, calls, ctx);
      var next := Call(Registered(ctx.handlers[tags[j]]), Named(p, ctx.path, ctx.api, Some(calls[j - 1])));
      ChainFromRegistered(p, tags, j + 1, ctx, calls + [next]);
      assert (calls + [next])[j] == next;
    }
  }

  lemma {:induction false} ChainFromStops(p: Manifest, tags: seq<string>, j: nat, ctx: Context, calls: seq<Instance>, l: nat)
    requires 1 <= j <= l < |tags| && ChainCalls(p, tags, j, calls, ctx)
    requires tags[l] !in ctx.handlers && forall m :: j <= m < l ==> tags[m] in ctx.handlers
    ensures var r := ChainFrom(p, tags, j, calls[j - 1], ctx, calls);
      ChainCalls(p, tags, l, r.calls, ctx) && r.choice == Refused(HandlerNotFound(tags[l]))
    decreases |tags| - j
  {
    if j < l {
      ChainStep(p, tags, j, calls, ctx);
      var next := Call(Registered(ctx.handlers[tags[j]]), Named(p, ctx.path, ctx.api, Some(calls[j - 1])));
      ChainFromStops(p, tags, j + 1, ctx, calls + [next], l);
      assert (calls + [next])[j] == next;
    }
  }

  /** An array type calls the handler of each of its tags in order, each one
      after the first given the previous result, and chooses the last result.
      It fails with a type error when the first tag is not registered, and with
      'Handler "x" not found' at the first later tag x that is not, after the
      calls for the tags before x have been made. */
  lemma ChainSelection(p: Manifest, ctx: Context)
    requires ctx.HasDefault() && p.pluginType.Chain? && |p.pluginType.tags| > 0
    ensures var tags := p.pluginType.tags; var r := Select(p, ctx);
      && (tags[0] !in ctx.handlers ==> r == Selected([], Refused(NotAFunction(tags[0]))))
      && ((forall l :: 0 <= l < |tags| ==> tags[l] in ctx.handlers) ==>
            && ChainCalls(p, tags, |tags|, r.calls, ctx)
            && r.choice == Chosen(Returned(r.calls[|tags| - 1])))
      && (forall l :: 1 <= l < |tags| && tags[l] !in ctx.handlers && (forall m :: 0 <= m < l ==> tags[m] in ctx.handlers) ==>
            && ChainCalls(p, tags, l, r.calls, ctx)
            && r.choice == Refused(HandlerNotFound(tags[l])))
  {
    var tags := p.pluginType.tags;
    if tags[0] in ctx.handlers {
      var acc := Call(Registered(ctx.handlers[tags[0]]), Named(p, ctx.path, ctx.api, None));
      assert ChainCall(p, tags, 0, [acc], ctx);
      assert ChainCalls(p, tags, 1, [acc], ctx);
      if forall l :: 0 <= l < |tags| ==> tags[l] in ctx.handlers {
        ChainFromRegistered(p, tags, 1, ctx, [acc]);
      }
      forall l | 1 <= l < |tags| && tags[l] !in ctx.handlers && (forall m :: 0 <= m < l ==> tags[m] in ctx.handlers)
        ensures ChainCalls(p, tags, l, Select(p, ctx).calls, ctx)
        ensures Select(p, ctx).choice == Refused(HandlerNotFound(tags[l]))
      {
        ChainFromStops(p, tags, 1, ctx, [acc], l);
      }
    }
  }

  /** A string type that is registered (and non-empty) selects its handler; an
      absent, empty or unregistered type selects the default. No handler runs
      during the selection. */
  lemma StringSelection(p: Manifest, ctx: Context)
    requires ctx.HasDefault() && !p.pluginType.Chain?
    ensures Select(p, ctx).calls == []
    ensures Select(p, ctx).choice.Chosen?
    ensures p.pluginType.Single? && p.pluginType.tag != "" && p.pluginType.tag in ctx.handlers
      ==> Select(p, ctx).choice.callee == Registered(ctx.handlers[p.pluginType.tag])
    ensures !(p.pluginType.Single? && p.pluginType.tag != "" && p.pluginType.tag in ctx.handlers)
      ==> Select(p, ctx).choice.callee == Registered(ctx.handlers["default"])
  {
  }

  /** Where handler calls go: each call returns its symbolic result and is logged. */
  class HandlerHost {
    var trace: seq<Instance>

    constructor ()
      ensures trace == []
    {
      trace := [];
    }

    method Invoke(callee: Callee, arg: HandlerArg) returns (r: Instance)
      modifies this
      ensures r == Call(callee, arg)
      ensures trace == old(trace) + [r]
    {
      r := Call(callee, arg);
      trace := trace + [r];
    }
  }

  /** Handler selection as the loaders run it, calling the chain's handlers through `host`. */
  method SelectHandler(plugin: Manifest, ctx: Context, host: HandlerHost) returns (choice: Choice)
    requires ctx.HasDefault()
    modifies host
    ensures host.trace == old(host.trace) + Select(plugin, ctx).calls
    ensures choice == Select(plugin, ctx).choice
  {
    match plugin.pluginType {
      case Untyped =>
        choice := Chosen(Registered(ctx.handlers["default"]));
      case Single(tag) =>
        if tag != "" && tag in ctx.handlers {
          choice := Chosen(Registered(ctx.handlers[tag]));
        } else {
          choice := Chosen(Registered(ctx.handlers["default"]));
        }
      case Chain(tags) =>
        var first := if |tags| == 0 then "undefined" else tags[0];
        if first !in ctx.handlers {
          return Refused(NotAFunction(first));
        }
        var acc := host.Invoke(Registered(ctx.handlers[first]), Named(plugin, ctx.path, ctx.api, None));
        ghost var calls := [acc];
        var j := 1;
        while j < |tags|
          invariant 1 <= j
          invariant host.trace == old(host.trace) + calls
          invariant ChainFrom(plugin, tags, j, acc, ctx, calls) == Select(plugin, ctx)
          decreases |tags| - j
        {
          if tags[j] !in ctx.handlers {
            return Refused(HandlerNotFound(tags[j]));
          }
          acc := host.Invoke(Registered(ctx.handlers[tags[j]]), Named(plugin, ctx.path, ctx.api, Some(acc)));
          calls := calls + [acc];
          j := j + 1;
        }
        choice := Chosen(Returned(acc));
    }
  }
}
