/**
 * The front-end service and bundle registry (BundleContext).
 *
 * The JavaScript class keeps three dictionaries shared by every context (the static
 * `Bundles`, `ServiceReferences` and `ServiceListeners`), here the fields of one
 * `Registry` object that every `BundleContext` points to. Each context also owns its
 * `childContexts` and its cache of service instances. A service reference is an
 * object whose `usage` counter changes; its `getService` and `applyFilter` closures
 * are its methods.
 *
 * Listeners, activators, bundle callbacks and service factories are foreign code: the
 * model records each call into them as an `Event` in the registry's `trace`.
 */
module BundleContexts {
  import opened Wrappers

  type ClassName = string
  type PropKey = string
  type PropValue = string
  type EventName = string
  type BundlePath = string
  type Props = map<PropKey, PropValue>

  /** A filter object, as the (key, value) pairs its `for...in` loop visits, in that order. */
  type Filter = seq<(PropKey, PropValue)>

  datatype Listener = Listener(handle: nat)
  datatype Activator = Activator(handle: nat)
  datatype Instance = Instance(handle: nat)
  datatype Exports = Exports(handle: nat)
  datatype Callback = Callback(handle: nat)

  const ServiceRegistered: EventName := "osgi:service:registered"
  const ServiceUnregistered: EventName := "osgi:service:unregistered"

  /** A call from the registry into foreign code. */
  datatype Event =
    | ListenerCalled(listener: Listener, reference: ServiceReference)
    | ActivatorStarted(activator: Activator, context: BundleContext)
    | ActivatorStopped(activator: Activator, context: BundleContext)
    | InstallCallbackCalled(callback: Callback, context: BundleContext, exports: Exports)
    | ModuleRequested(path: BundlePath)
    | RemoveCallbackCalled(callback: Callback)

  /** An entry of `Bundles`: the bundle's own context and the module's exports. */
  datatype Bundle = Bundle(context: BundleContext, exports: Exports)

  /** An entry of `ServiceReferences`: the `lastIndex` counter and the references by index. */
  datatype ServiceDict = ServiceDict(lastIndex: nat, entries: map<nat, ServiceReference>)

  /** `ServiceReferences[cls] || {lastIndex: 0}`. */
  function DictOf(refs: map<ClassName, ServiceDict>, cls: ClassName): ServiceDict {
    if cls in refs then refs[cls] else ServiceDict(0, map[])
  }

  /** `ServiceListeners[event] || []`. */
  function ListenersOf(listeners: map<EventName, seq<Listener>>, event: EventName): seq<Listener> {
    if event in listeners then listeners[event] else []
  }

  /** `serviceInstances[cls] || {}`. */
  function ClassCache(instances: map<ClassName, map<nat, Instance>>, cls: ClassName): map<nat, Instance> {
    if cls in instances then instances[cls] else map[]
  }

  /** The instance a context has cached for the reference `cls`/`index`, if any. */
  function CachedInstance(instances: map<ClassName, map<nat, Instance>>, cls: ClassName, index: nat): Option<Instance> {
    var cache := ClassCache(instances, cls);
    if index in cache then Some(cache[index]) else None
  }

  /** `Object.assign({cls: cls}, props)`: the given properties win over the class name. */
  function ServiceProps(cls: ClassName, props: Props): (r: Props)
    ensures "cls" in r
    ensures "cls" !in props ==> r["cls"] == cls
    ensures forall k | k in props :: k in r && r[k] == props[k]
    ensures forall k | k in r && k != "cls" :: k in props
  {
    map["cls" := cls] + props
  }

  // ---------------------------------------------------------------------------
  // Filters
  // ---------------------------------------------------------------------------

  /** One step of `applyFilter`'s loop: does the property hold the filter's value? */
  predicate PairMatches(props: Props, pair: (PropKey, PropValue)) {
    pair.0 in props && props[pair.0] == pair.1
  }

  /** `applyFilter`'s loop from verdict `acc` on: each key replaces the verdict of the keys before it. */
  function FilterLoop(props: Props, filter: Filter, acc: bool): bool
    decreases |filter|
  {
    if filter == [] then acc else FilterLoop(props, filter[1..], PairMatches(props, filter[0]))
  }

  predicate FilterMatches(props: Props, filter: Filter) {
    FilterLoop(props, filter, true)
  }

  /** Only the last filter key decides: the loop's verdict is its last pair's match. */
  lemma {:induction false} FilterLoopLastKey(props: Props, filter: Filter, acc: bool)
    ensures FilterLoop(props, filter, acc) == if filter == [] then acc else PairMatches(props, filter[|filter| - 1])
    decreases |filter|
  {
    if filter != [] {
      FilterLoopLastKey(props, filter[1..], PairMatches(props, filter[0]));
      if |filter| > 1 {
        assert filter[1..][|filter[1..]| - 1] == filter[|filter| - 1];
      }
    }
  }

  /** Two filters that end in the same pair select the same references, whatever comes before. */
  lemma OnlyLastKeyDecides(props: Props, f: Filter, g: Filter)
    requires f != [] && g != [] && f[|f| - 1] == g[|g| - 1]
    ensures FilterMatches(props, f) == FilterMatches(props, g)
  {
    FilterLoopLastKey(props, f, true);
    FilterLoopLastKey(props, g, true);
  }

  /** A filter whose first key is missing from the properties still matches when its last key does. */
  lemma EarlierMismatchIgnored()
    ensures var props := ServiceProps("menu", map[]);
            FilterMatches(props, [("role", "admin"), ("cls", "menu")])
  {
    FilterLoopLastKey(ServiceProps("menu", map[]), [("role", "admin"), ("cls", "menu")], true);
  }

  // ---------------------------------------------------------------------------
  // Listing references
  // ---------------------------------------------------------------------------

  /**
   * The references stored under the indices `lo` up to `hi` (exclusive) that pass the
   * filter, by increasing index: `Object.keys` lists integer keys in ascending order.
   */
  function RefsFrom(entries: map<nat, ServiceReference>, filter: Filter, lo: nat, hi: nat): seq<ServiceReference>
    decreases hi - lo
  {
    if hi <= lo then []
    else (if lo in entries && FilterMatches(entries[lo].props, filter) then [entries[lo]] else [])
         + RefsFrom(entries, filter, lo + 1, hi)
  }

  /** Every entry is stored under its own index. */
  ghost predicate IndexedByOwnIndex(entries: map<nat, ServiceReference>) {
    forall k | k in entries :: entries[k].serviceIndex == k
  }

  /**
   * `rs` holds exactly the references stored under the indices `lo` up to `hi` that pass
   * the filter, each once, by strictly increasing index.
   */
  ghost predicate ExactListing(rs: seq<ServiceReference>, entries: map<nat, ServiceReference>, filter: Filter, lo: nat, hi: nat) {
    && SoundListing(rs, entries, filter, lo, hi)
    && (forall k | lo <= k < hi && k in entries && FilterMatches(entries[k].props, filter) :: entries[k] in rs)
  }

  /** Every reference in `rs` is stored under its index in `lo` up to `hi` and passes the filter; indices increase. */
  ghost predicate SoundListing(rs: seq<ServiceReference>, entries: map<nat, ServiceReference>, filter: Filter, lo: nat, hi: nat) {
    && (forall i | 0 <= i < |rs| ::
          && lo <= rs[i].serviceIndex < hi
          && rs[i].serviceIndex in entries && entries[rs[i].serviceIndex] == rs[i]
          && FilterMatches(rs[i].props, filter))
    && (forall i, j | 0 <= i < j < |rs| :: rs[i].serviceIndex < rs[j].serviceIndex)
  }

  lemma RefsFromExact(entries: map<nat, ServiceReference>, filter: Filter, lo: nat, hi: nat)
    requires IndexedByOwnIndex(entries)
    ensures ExactListing(RefsFrom(entries, filter, lo, hi), entries, filter, lo, hi)
  {
    RefsFromSound(entries, filter, lo, hi);
    RefsFromComplete(entries, filter, lo, hi);
  }

  /** Every listed reference is a stored one that passes the filter, listed by increasing index. */
  lemma {:induction false} RefsFromSound(entries: map<nat, ServiceReference>, filter: Filter, lo: nat, hi: nat)
    requires IndexedByOwnIndex(entries)
    ensures SoundListing(RefsFrom(entries, filter, lo, hi), entries, filter, lo, hi)
    decreases hi - lo
  {
    if lo < hi {
      RefsFromSound(entries, filter, lo + 1, hi);
      var rest := RefsFrom(entries, filter, lo + 1, hi);
      var head := if lo in entries && FilterMatches(entries[lo].props, filter) then [entries[lo]] else [];
      var rs := RefsFrom(entries, filter, lo, hi);
      assert rs == head + rest;
      forall i | 0 <= i < |rs|
        ensures lo <= rs[i].serviceIndex < hi
        ensures rs[i].serviceIndex in entries && entries[rs[i].serviceIndex] == rs[i]
        ensures FilterMatches(rs[i].props, filter)
      {
        if i >= |head| {
          assert rs[i] == rest[i - |head|];
        } else {
          assert rs[i] == entries[lo] && entries[lo].serviceIndex == lo;
        }
      }
      forall i, j | 0 <= i < j < |rs|
        ensures rs[i].serviceIndex < rs[j].serviceIndex
      {
        assert rs[j] == rest[j - |head|];
        if i >= |head| {
          assert rs[i] == rest[i - |head|];
        }
      }
    }
  }

  /** Every stored reference in the range that passes the filter is listed. */
  lemma {:induction false} RefsFromComplete(entries: map<nat, ServiceReference>, filter: Filter, lo: nat, hi: nat)
    ensures forall k | lo <= k < hi && k in entries && FilterMatches(entries[k].props, filter) ::
              entries[k] in RefsFrom(entries, filter, lo, hi)
    decreases hi - lo
  {
    if lo < hi {
      RefsFromComplete(entries, filter, lo + 1, hi);
      var rest := RefsFrom(entries, filter, lo + 1, hi);
      var head := if lo in entries && FilterMatches(entries[lo].props, filter) then [entries[lo]] else [];
      assert RefsFrom(entries, filter, lo, hi) == head + rest;
    }
  }

  // ---------------------------------------------------------------------------
  // Calls into foreign code, in order
  // ---------------------------------------------------------------------------

  /** The calls `triggerServiceEvent` makes: each listener once, in list order. */
  function Notify(ls: seq<Listener>, ref: ServiceReference): seq<Event>
    decreases |ls|
  {
    if ls == [] then [] else Notify(ls[..|ls| - 1], ref) + [ListenerCalled(ls[|ls| - 1], ref)]
  }

  lemma {:induction false} NotifyInOrder(ls: seq<Listener>, ref: ServiceReference)
    ensures |Notify(ls, ref)| == |ls|
    ensures forall k | 0 <= k < |ls| :: Notify(ls, ref)[k] == ListenerCalled(ls[k], ref)
    decreases |ls|
  {
    if ls != [] {
      NotifyInOrder(ls[..|ls| - 1], ref);
    }
  }

  /** The calls `activate` (starting) or `deactivate` makes: each activator once, in list order. */
  function ActivatorCalls(acts: seq<Activator>, ctx: BundleContext, starting: bool): seq<Event>
    decreases |acts|
  {
    if acts == [] then []
    else
      var a := acts[|acts| - 1];
      ActivatorCalls(acts[..|acts| - 1], ctx, starting)
      + [if starting then ActivatorStarted(a, ctx) else ActivatorStopped(a, ctx)]
  }

  lemma {:induction false} ActivatorCallsInOrder(acts: seq<Activator>, ctx: BundleContext, starting: bool)
    ensures |ActivatorCalls(acts, ctx, starting)| == |acts|
    ensures forall k | 0 <= k < |acts| ::
              ActivatorCalls(acts, ctx, starting)[k]
              == if starting then ActivatorStarted(acts[k], ctx) else ActivatorStopped(acts[k], ctx)
    decreases |acts|
  {
    if acts != [] {
      ActivatorCallsInOrder(acts[..|acts| - 1], ctx, starting);
    }
  }

  // ---------------------------------------------------------------------------
  // Listener lists
  // ---------------------------------------------------------------------------

  /** `Array.prototype.indexOf`: the first position of `l`, or -1. */
  function IndexOf(ls: seq<Listener>, l: Listener): (r: int)
    ensures -1 <= r < |ls|
    ensures r == -1 <==> l !in ls
    ensures r >= 0 ==> ls[r] == l && l !in ls[..r]
    decreases |ls|
  {
    if ls == [] then -1
    else if ls[0] == l then 0
    else
      var rest := IndexOf(ls[1..], l);
      if rest < 0 then -1 else rest + 1
  }

  /** The list after `removeServiceListener`: the first occurrence of `l` spliced out, if there is one. */
  function WithoutFirst(ls: seq<Listener>, l: Listener): (r: seq<Listener>)
    ensures multiset(r) == multiset(ls) - multiset{l}
    ensures l !in ls ==> r == ls
    ensures l in ls ==>
      var i := IndexOf(ls, l);
      |r| == |ls| - 1 && r[..i] == ls[..i] && r[i..] == ls[i + 1..]
  {
    var i := IndexOf(ls, l);
    if i < 0 then ls
    else
      assert ls == ls[..i] + [ls[i]] + ls[i + 1..];
      ls[..i] + ls[i + 1..]
  }

  // ---------------------------------------------------------------------------
  // Objects
  // ---------------------------------------------------------------------------

  /** The dictionaries every context shares (the static fields of BundleContext). */
  class Registry {
    var bundles: map<BundlePath, Bundle>
    var serviceReferences: map<ClassName, ServiceDict>
    var serviceListeners: map<EventName, seq<Listener>>
    /** Every call made into listeners, activators and callbacks, in order. */
    ghost var trace: seq<Event>

    /**
     * Each class's references are filed under their own index, which lies between 1
     * and the class's `lastIndex`; every installed bundle's context shares this registry.
     */
    ghost predicate Valid()
      reads this`serviceReferences, this`bundles
    {
      && (forall cls | cls in serviceReferences ::
            var d := serviceReferences[cls];
            forall k | k in d.entries :: 1 <= k <= d.lastIndex && d.entries[k].serviceIndex == k && d.entries[k].cls == cls)
      && (forall p | p in bundles :: bundles[p].context.registry == this)
    }

    constructor ()
      ensures Valid()
      ensures bundles == map[] && serviceReferences == map[] && serviceListeners == map[] && trace == []
    {
      bundles, serviceReferences, serviceListeners := map[], map[], map[];
      trace := [];
    }
  }

  class ServiceReference {
    const context: BundleContext
    const cls: ClassName
    const props: Props
    const instance: Instance
    const serviceIndex: nat
    var usage: int

    constructor (context: BundleContext, cls: ClassName, props: Props, instance: Instance, serviceIndex: nat)
      ensures this.context == context && this.cls == cls && this.props == props
      ensures this.instance == instance && this.serviceIndex == serviceIndex && usage == 0
    {
      this.context := context;
      this.cls := cls;
      this.props := props;
      this.instance := instance;
      this.serviceIndex := serviceIndex;
      usage := 0;
    }

    /**
     * `getService(context)`: the first call for a context caches the instance and counts
     * one more use; later calls return the cached instance and change nothing.
     */
    method GetService(ctx: BundleContext) returns (inst: Instance)
      modifies ctx`serviceInstances, this`usage
      ensures CachedInstance(ctx.serviceInstances, cls, serviceIndex) == Some(inst)
      ensures var cached := CachedInstance(old(ctx.serviceInstances), cls, serviceIndex);
              && (cached.Some? ==>
                    inst == cached.value && usage == old(usage) && ctx.serviceInstances == old(ctx.serviceInstances))
              && (cached.None? ==>
                    && inst == instance && usage == old(usage) + 1
                    && ctx.serviceInstances
                       == old(ctx.serviceInstances)[cls := ClassCache(old(ctx.serviceInstances), cls)[serviceIndex := instance]])
    {
      var cache: map<nat, Instance> := ClassCache(ctx.serviceInstances, cls);
      ctx.serviceInstances := ctx.serviceInstances[cls := cache];
      if serviceIndex in cache {
        return cache[serviceIndex];
      }
      usage := usage + 1;
      inst := instance;
      ctx.serviceInstances := ctx.serviceInstances[cls := cache[serviceIndex := inst]];
    }

    /** `applyFilter(filter)`: an empty filter matches; otherwise the last key alone decides. */
    method ApplyFilter(filter: Filter) returns (matched: bool)
      ensures matched == FilterMatches(props, filter)
      ensures filter == [] ==> matched
      ensures filter != [] ==> (matched <==> PairMatches(props, filter[|filter| - 1]))
    {
      matched := true;
      var i := 0;
      while i < |filter|
        invariant 0 <= i <= |filter|
        invariant FilterLoop(props, filter[i..], matched) == FilterMatches(props, filter)
      {
        assert filter[i..][1..] == filter[i + 1..];
        matched := filter[i].0 in props && props[filter[i].0] == filter[i].1;
        i := i + 1;
      }
      assert filter[i..] == [];
      FilterLoopLastKey(props, filter, true);
    }
  }

  class BundleContext {
    /** The parent context (`this.context`); the root context has none. */
    const parent: BundleContext?
    const registry: Registry
    const activators: seq<Activator>
    var childContexts: map<BundlePath, BundleContext>
    var serviceInstances: map<ClassName, map<nat, Instance>>

    constructor (parent: BundleContext?, registry: Registry, activators: seq<Activator>)
      ensures this.parent == parent && this.registry == registry && this.activators == activators
      ensures childContexts == map[] && serviceInstances == map[]
    {
      this.parent := parent;
      this.registry := registry;
      this.activators := activators;
      childContexts := map[];
      serviceInstances := map[];
    }

    method AddServiceListener(event: EventName, listener: Listener)
      requires registry.Valid()
      modifies registry`serviceListeners
      ensures registry.Valid()
      ensures registry.serviceListeners
              == old(registry.serviceListeners)[event := ListenersOf(old(registry.serviceListeners), event) + [listener]]
    {
      var ls := ListenersOf(registry.serviceListeners, event);
      registry.serviceListeners := registry.serviceListeners[event := ls + [listener]];
    }

    /**
     * `removeServiceListener(event, listener)`: the event's list, created empty if
     * missing, loses the first occurrence of the listener. The creation and the splice
     * are one write of the resulting list.
     */
    method RemoveServiceListener(event: EventName, listener: Listener)
      requires registry.Valid()
      modifies registry`serviceListeners
      ensures registry.Valid()
      ensures registry.serviceListeners
              == old(registry.serviceListeners)[event := WithoutFirst(ListenersOf(old(registry.serviceListeners), event), listener)]
    {
      var ls := ListenersOf(registry.serviceListeners, event);
      registry.serviceListeners := registry.serviceListeners[event := WithoutFirst(ls, listener)];
    }

    /** `triggerServiceEvent(event, reference)`: calls every listener of the event, in list order. */
    method TriggerServiceEvent(event: EventName, ref: ServiceReference)
      requires registry.Valid()
      modifies registry`serviceListeners, registry`trace
      ensures registry.Valid()
      ensures registry.serviceListeners
              == old(registry.serviceListeners)[event := ListenersOf(old(registry.serviceListeners), event)]
      ensures registry.trace == old(registry.trace) + Notify(ListenersOf(old(registry.serviceListeners), event), ref)
    {
      var ls := ListenersOf(registry.serviceListeners, event);
      registry.serviceListeners := registry.serviceListeners[event := ls];
      for i := 0 to |ls|
        invariant registry.serviceListeners == old(registry.serviceListeners)[event := ls]
        invariant registry.trace == old(registry.trace) + Notify(ls[..i], ref)
      {
        assert ls[..i + 1][..i] == ls[..i];
        registry.trace := registry.trace + [ListenerCalled(ls[i], ref)];
      }
      assert ls[..|ls|] == ls;
    }

    /** `activate()`: starts each activator, in list order. */
    method Activate()
      requires registry.Valid()
      modifies registry`trace
      ensures registry.Valid()
      ensures registry.trace == old(registry.trace) + ActivatorCalls(activators, this, true)
    {
      for i := 0 to |activators|
        invariant registry.trace == old(registry.trace) + ActivatorCalls(activators[..i], this, true)
      {
        assert activators[..i + 1][..i] == activators[..i];
        registry.trace := registry.trace + [ActivatorStarted(activators[i], this)];
      }
      assert activators[..|activators|] == activators;
    }

    /** `deactivate()`: stops each activator, in list order. */
    method Deactivate()
      requires registry.Valid()
      modifies registry`trace
      ensures registry.Valid()
      ensures registry.trace == old(registry.trace) + ActivatorCalls(activators, this, false)
    {
      for i := 0 to |activators|
        invariant registry.trace == old(registry.trace) + ActivatorCalls(activators[..i], this, false)
      {
        assert activators[..i + 1][..i] == activators[..i];
        registry.trace := registry.trace + [ActivatorStopped(activators[i], this)];
      }
      assert activators[..|activators|] == activators;
    }

    /**
     * `installBundle(path, callback)`: an installed path calls back at once with the
     * existing context and exports; any other path only asks the module loader.
     */
    method InstallBundle(path: BundlePath, callback: Callback)
      requires registry.Valid()
      modifies registry`trace
      ensures registry.Valid()
      ensures path in registry.bundles ==>
        var b := registry.bundles[path];
        registry.trace == old(registry.trace) + [InstallCallbackCalled(callback, b.context, b.exports)]
      ensures path !in registry.bundles ==> registry.trace == old(registry.trace) + [ModuleRequested(path)]
    {
      if path in registry.bundles {
        var b := registry.bundles[path];
        registry.trace := registry.trace + [InstallCallbackCalled(callback, b.context, b.exports)];
        return;
      }
      registry.trace := registry.trace + [ModuleRequested(path)];
    }

    /**
     * The loader's answer to `installBundle`: a child context with the module's activator,
     * filed under the path in this context and in `Bundles`, activated, then the callback.
     */
    method ModuleLoaded(path: BundlePath, activator: Option<Activator>, exports: Exports, callback: Callback)
      returns (child: BundleContext)
      requires registry.Valid()
      modifies this`childContexts, registry`bundles, registry`trace
      ensures registry.Valid()
      ensures fresh(child) && child.parent == this && child.registry == registry
      ensures child.activators == if activator.Some? then [activator.value] else []
      ensures childContexts == old(childContexts)[path := child]
      ensures registry.bundles == old(registry.bundles)[path := Bundle(child, exports)]
      ensures registry.trace
              == old(registry.trace) + ActivatorCalls(child.activators, child, true)
                 + [InstallCallbackCalled(callback, child, exports)]
    {
      child := new BundleContext(this, registry, if activator.Some? then [activator.value] else []);
      childContexts := childContexts[path := child];
      registry.bundles := registry.bundles[path := Bundle(child, exports)];
      child.Activate();
      registry.trace := registry.trace + [InstallCallbackCalled(callback, child, exports)];
    }

    /**
     * `removeBundle(path, callback)`: an installed bundle is deactivated and forgotten by
     * this context and by `Bundles`; the callback runs in every case.
     */
    method RemoveBundle(path: BundlePath, callback: Callback)
      requires registry.Valid()
      modifies this`childContexts, registry`bundles, registry`trace
      ensures registry.Valid()
      ensures path in old(registry.bundles) ==>
        var b := old(registry.bundles)[path];
        && registry.bundles == old(registry.bundles) - {path}
        && childContexts == old(childContexts) - {path}
        && registry.trace
           == old(registry.trace) + ActivatorCalls(b.context.activators, b.context, false) + [RemoveCallbackCalled(callback)]
      ensures path !in old(registry.bundles) ==>
        && registry.bundles == old(registry.bundles)
        && childContexts == old(childContexts)
        && registry.trace == old(registry.trace) + [RemoveCallbackCalled(callback)]
    {
      if path in registry.bundles {
        var b := registry.bundles[path];
        b.context.Deactivate();
        childContexts := childContexts - {path};
        registry.bundles := registry.bundles - {path};
      }
      registry.trace := registry.trace + [RemoveCallbackCalled(callback)];
    }

    /**
     * `registerService(cls, instance, props)`: the new reference gets the class's
     * `lastIndex` plus one, above every index in use, is filed under it, and the
     * registered event goes to the listeners.
     */
    method RegisterService(cls: ClassName, instance: Instance, props: Props) returns (ref: ServiceReference)
      requires registry.Valid()
      modifies registry`serviceReferences, registry`serviceListeners, registry`trace
      ensures registry.Valid()
      ensures fresh(ref)
      ensures ref.context == this && ref.cls == cls && ref.instance == instance && ref.usage == 0
      ensures ref.props == ServiceProps(cls, props)
      ensures var before := DictOf(old(registry.serviceReferences), cls);
              && ref.serviceIndex == before.lastIndex + 1
              && (forall k | k in before.entries :: k < ref.serviceIndex)
              && registry.serviceReferences
                 == old(registry.serviceReferences)[cls := ServiceDict(ref.serviceIndex, before.entries[ref.serviceIndex := ref])]
      ensures registry.serviceListeners
              == old(registry.serviceListeners)[ServiceRegistered := ListenersOf(old(registry.serviceListeners), ServiceRegistered)]
      ensures registry.trace
              == old(registry.trace) + Notify(ListenersOf(old(registry.serviceListeners), ServiceRegistered), ref)
    {
      var dict := DictOf(registry.serviceReferences, cls);
      var index := dict.lastIndex + 1;
      ref := new ServiceReference(this, cls, ServiceProps(cls, props), instance, index);
      registry.serviceReferences := registry.serviceReferences[cls := ServiceDict(index, dict.entries[index := ref])];
      TriggerServiceEvent(ServiceRegistered, ref);
    }

    /**
     * The `unregister()` of a registration: deletes only that reference's index from its
     * class's dictionary, keeps `lastIndex`, and sends the unregistered event.
     */
    method Unregister(ref: ServiceReference)
      requires registry.Valid()
      modifies registry`serviceReferences, registry`serviceListeners, registry`trace
      ensures registry.Valid()
      ensures ref.cls in old(registry.serviceReferences) ==>
        var d := old(registry.serviceReferences)[ref.cls];
        registry.serviceReferences
        == old(registry.serviceReferences)[ref.cls := ServiceDict(d.lastIndex, d.entries - {ref.serviceIndex})]
      ensures ref.cls !in old(registry.serviceReferences) ==> registry.serviceReferences == old(registry.serviceReferences)
      ensures registry.serviceListeners
              == old(registry.serviceListeners)[ServiceUnregistered := ListenersOf(old(registry.serviceListeners), ServiceUnregistered)]
      ensures registry.trace
              == old(registry.trace) + Notify(ListenersOf(old(registry.serviceListeners), ServiceUnregistered), ref)
    {
      if ref.cls in registry.serviceReferences {
        var d := registry.serviceReferences[ref.cls];
        registry.serviceReferences := registry.serviceReferences[ref.cls := ServiceDict(d.lastIndex, d.entries - {ref.serviceIndex})];
      }
      TriggerServiceEvent(ServiceUnregistered, ref);
    }

    /**
     * `ungetService(reference)`: drops this context's cached instance and counts one use
     * less; with nothing cached it changes no count, so a second call is a no-op.
     */
    method UngetService(ref: ServiceReference)
      modifies this`serviceInstances, ref`usage
      ensures CachedInstance(serviceInstances, ref.cls, ref.serviceIndex) == None
      ensures serviceInstances
              == old(serviceInstances)[ref.cls := ClassCache(old(serviceInstances), ref.cls) - {ref.serviceIndex}]
      ensures ref.usage == old(ref.usage) - if CachedInstance(old(serviceInstances), ref.cls, ref.serviceIndex).Some? then 1 else 0
    {
      var cache: map<nat, Instance> := ClassCache(serviceInstances, ref.cls);
      serviceInstances := serviceInstances[ref.cls := cache];
      if ref.serviceIndex in cache {
        serviceInstances := serviceInstances[ref.cls := cache - {ref.serviceIndex}];
        ref.usage := ref.usage - 1;
      } else {
        assert cache - {ref.serviceIndex} == cache;
      }
    }

    /**
     * `getServiceReferences(cls, filter)`: exactly the stored references of the class
     * that pass the filter, by increasing index; never the `lastIndex` counter.
     */
    function GetServiceReferences(cls: ClassName, filter: Filter): (rs: seq<ServiceReference>)
      reads registry
      requires registry.Valid()
      ensures cls !in registry.serviceReferences ==> rs == []
      ensures forall i | 0 <= i < |rs| ::
                && cls in registry.serviceReferences
                && rs[i].serviceIndex in registry.serviceReferences[cls].entries
                && registry.serviceReferences[cls].entries[rs[i].serviceIndex] == rs[i]
                && FilterMatches(rs[i].props, filter)
      ensures forall k | cls in registry.serviceReferences && k in registry.serviceReferences[cls].entries
                         && FilterMatches(registry.serviceReferences[cls].entries[k].props, filter) ::
                registry.serviceReferences[cls].entries[k] in rs
      ensures forall i, j | 0 <= i < j < |rs| :: rs[i].serviceIndex < rs[j].serviceIndex
    {
      if cls in registry.serviceReferences then
        var d := registry.serviceReferences[cls];
        RefsFromExact(d.entries, filter, 0, d.lastIndex + 1);
        RefsFrom(d.entries, filter, 0, d.lastIndex + 1)
      else []
    }
  }
}
