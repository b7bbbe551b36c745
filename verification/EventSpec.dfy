/**
 The orchestration client as a state machine: informer events and queue work in any interleaving, each
 step atomic.
 */
module EventSpec {
  import opened Types
  import opened GroupSpec
  import opened HostSlice

  /** What the handlers and syncResource read of a ConfigMap or an Ingress: the watch annotation, the
      group annotation, the network annotations when both are there, and the host names, if any. */
  datatype Resource = Resource(watched: bool, group: string, net: Option<Net>, hosts: Option<seq<Host>>)

  /** The client: its groups, the informers' cache, the two queues, the two flags, and every snapshot it
      has written to the controller. */
  datatype Client = Client(
    groups: Groups,
    cache: map<ResourceKey, Resource>,
    queue: set<ResourceKey>,
    nsPending: nat,
    updated: bool,
    initialState: bool,
    sent: seq<Groups>)

  const INITIAL := Client(map[], map[], {}, 0, false, false, [])

  /** Only an Ingress can be in a named group. */
  function GroupName(key: ResourceKey, res: Resource): string {
    if key.kind == Ingress then res.group else ""
  }

  function KeyFor(key: ResourceKey, res: Resource): GroupKey
    requires res.net.Some?
  {
    GroupKey(GroupName(key, res), res.net.value.netview, res.net.value.cidr)
  }

  function HostsNow(res: Resource): seq<Host> {
    if res.hosts.Some? then res.hosts.value else []
  }

  /** writeIPGroups: the first snapshot waits for both queues to be empty. */
  function Write(k: Client): Client {
    if (k.queue == {} && k.nsPending == 0) || k.initialState then
      k.(sent := k.sent + [k.groups], initialState := true, updated := false)
    else k
  }

  ghost function Holder(groups: Groups, key: ResourceKey): GroupKey
    requires exists gk :: Holds(groups, gk, key)
    ensures Holds(groups, Holder(groups, key), key)
  {
    var gk :| Holds(groups, gk, key); gk
  }

  ghost predicate Held(groups: Groups, key: ResourceKey) {
    exists gk :: Holds(groups, gk, key)
  }

  /** removeFromIPGroup. */
  ghost function Cut(groups: Groups, key: ResourceKey): Groups {
    if Held(groups, key) then CutSpec(groups, Holder(groups, key), FirstKey(groups[Holder(groups, key)], key))
    else groups
  }

  /** The hosts left by the aliased loop over the spec's hosts. */
  function Pruned(hosts: seq<Host>, keep: seq<Host>): seq<Host> {
    List(Prune(Slice(hosts, |hosts|), 0, keep))
  }

  function OnAdd(k: Client, key: ResourceKey, res: Resource): Client {
    k.(cache := k.cache[key := res], queue := if res.watched then k.queue + {key} else k.queue)
  }

  /** updateIngress and updateConfigMap. */
  ghost function OnUpdate(k: Client, key: ResourceKey, cur: Resource): Client
    requires key in k.cache
  {
    var k1 := k.(cache := k.cache[key := cur]);
    if k.cache[key].watched && cur.watched then
      OnStillWatched(k1, key, cur).(queue := k.queue + {key})
    else if k.cache[key].watched then
      if Held(k.groups, key) then Write(k1.(groups := Cut(k.groups, key))) else k1
    else if cur.watched then
      k1.(queue := k.queue + {key})
    else k1
  }

  /** Hosts that are gone are removed from the spec, and an Ingress that changed its group loses it. */
  ghost function OnStillWatched(k: Client, key: ResourceKey, cur: Resource): Client {
    if Held(k.groups, key) then
      var gk := Holder(k.groups, key);
      var i := FirstKey(k.groups[gk], key);
      var hosts := k.groups[gk][i].hosts;
      var pruned := Pruned(hosts, HostsNow(cur));
      var groups := SetHosts(k.groups, gk, i, pruned);
      k.(groups := if key.kind == Ingress && cur.group != gk.name then Cut(groups, key) else groups,
         updated := k.updated || (key.kind == Ingress && pruned != hosts))
    else k
  }

  ghost function OnDelete(k: Client, key: ResourceKey): Client
    requires key in k.cache
  {
    var k1 := k.(cache := k.cache - {key});
    if k.cache[key].watched && Held(k.groups, key) then Write(k1.(groups := Cut(k.groups, key))) else k1
  }

  /** syncResource of a key taken from the queue.  It does not look at the watch annotation. */
  function OnSync(k: Client, key: ResourceKey): Client {
    var k1 := k.(queue := k.queue - {key});
    if key !in k.cache then Settle(k1)
    else
      var res := k.cache[key];
      if res.net.None? || (key.kind == ConfigMap && res.hosts.None?) then k1
      else if res.hosts.None? then Settle(k1)
      else
        var groups := AddSpec(k.groups, KeyFor(key, res), key, res.hosts.value);
        Settle(k1.(groups := groups, updated := k.updated || groups != k.groups))
  }

  function Settle(k: Client): Client {
    if k.updated then Write(k) else k
  }

  /** The delayed check at startup: nothing is queued, so the groups are written even if empty. */
  function OnTimer(k: Client): Client {
    if k.queue == {} && k.nsPending == 0 then Write(k) else k
  }

  datatype Event =
    | Added(key: ResourceKey, res: Resource)
    | Updated(key: ResourceKey, res: Resource)
    | Deleted(key: ResourceKey)
    | Sync(key: ResourceKey)
    | Timer
    | NsQueue(pending: nat)

  /** What an informer can deliver and the queue can hold. */
  ghost predicate Enabled(k: Client, e: Event) {
    match e
    case Added(key, _) => key !in k.cache && key.kind != NoKind
    case Updated(key, _) => key in k.cache
    case Deleted(key) => key in k.cache
    case Sync(key) => key in k.queue
    case Timer => true
    case NsQueue(_) => true
  }

  ghost function Next(k: Client, e: Event): Client
    requires Enabled(k, e)
  {
    match e
    case Added(key, res) => OnAdd(k, key, res)
    case Updated(key, res) => OnUpdate(k, key, res)
    case Deleted(key) => OnDelete(k, key)
    case Sync(key) => OnSync(k, key)
    case Timer => OnTimer(k)
    case NsQueue(n) => k.(nsPending := n)
  }

  /** The client after a run; an event that is not enabled does not happen. */
  ghost function RunEvents(k: Client, events: seq<Event>): Client {
    if events == [] then k
    else
      var mid := RunEvents(k, events[..|events| - 1]);
      if Enabled(mid, events[|events| - 1]) then Next(mid, events[|events| - 1]) else mid
  }

  // ---------- the invariant ----------

  /** The resource carries everything syncResource needs to list it. */
  predicate Complete(res: Resource) {
    res.net.Some? && res.hosts.Some?
  }

  /** A listed resource is cached, watched, and under its current group and network. */
  ghost predicate Current(k: Client, reg: Registry) {
    forall key :: key in reg ==>
      key in k.cache && k.cache[key].watched && k.cache[key].net.Some? && reg[key].gk == KeyFor(key, k.cache[key])
  }

  /** A watched, complete resource is still queued or listed with all its hosts. */
  ghost predicate Served(k: Client, reg: Registry, key: ResourceKey)
    requires key in k.cache
  {
    k.cache[key].watched && Complete(k.cache[key]) ==>
      key in k.queue || (key in reg && forall h :: h in k.cache[key].hosts.value ==> h in reg[key].hosts)
  }

  ghost predicate Inv(k: Client, reg: Registry) {
    && Lists(k.groups, reg) && Current(k, reg)
    && (forall key :: key in k.cache ==> key.kind != NoKind && Served(k, reg, key))
    && (k.initialState <==> k.sent != [])
  }

  /** The assumption on a run: a resource's netview and cidr never change, and no queued key is synced
      after its resource has lost the watch annotation. */
  ghost predicate Regular(k: Client, e: Event) {
    match e
    case Updated(key, res) => key in k.cache && res.net == k.cache[key].net
    case Sync(key) => key in k.cache && Complete(k.cache[key]) ==> k.cache[key].watched
    case _ => true
  }

  lemma WriteInv(k: Client, reg: Registry)
    requires Inv(k, reg)
    ensures Inv(Write(k), reg)
  {
    hide Lists;
    forall key | key in k.cache ensures Served(Write(k), reg, key) {
      assert Served(k, reg, key);
    }
  }

  lemma HeldListed(groups: Groups, reg: Registry, key: ResourceKey)
    requires Lists(groups, reg)
    ensures Held(groups, key) <==> key in reg
    ensures Held(groups, key) ==> Holder(groups, key) == reg[key].gk
  {
    if key in reg {
      ListedAt(groups, reg, key);
      assert Holds(groups, reg[key].gk, key);
      var gk := Holder(groups, key);
      assert groups[gk][FirstKey(groups[gk], key)].key == key;
      assert HasKey(groups[gk], key);
    } else if gk :| Holds(groups, gk, key) {
      NotListed(groups, reg, key, gk);
    }
  }

  lemma UniqueHolder(groups: Groups, reg: Registry, key: ResourceKey, gk: GroupKey)
    requires Lists(groups, reg) && Holds(groups, gk, key)
    ensures Held(groups, key) && gk == Holder(groups, key) && key in reg && reg[key].gk == gk
    ensures groups[gk][FirstKey(groups[gk], key)] == NewSpec(gk, key, reg[key].hosts)
  {
    HeldListed(groups, reg, key);
    ListedAt(groups, reg, key);
    assert HasKey(groups[gk], key) by { assert groups[gk][FirstKey(groups[gk], key)].key == key; }
  }

  lemma CutLists(groups: Groups, reg: Registry, key: ResourceKey)
    requires Lists(groups, reg)
    ensures Lists(Cut(groups, key), reg - {key})
  {
    HeldListed(groups, reg, key);
    if key in reg {
      CutListed(groups, reg, key);
    } else {
      assert reg - {key} == reg;
    }
  }

  lemma AddInv(k: Client, reg: Registry, key: ResourceKey, res: Resource)
    requires Inv(k, reg) && key !in k.cache && key.kind != NoKind
    ensures Inv(OnAdd(k, key, res), reg)
  {
    hide Lists;
    var k' := OnAdd(k, key, res);
    forall x | x in k'.cache ensures Served(k', reg, x) {
      if x != key { assert Served(k, reg, x); }
    }
  }

  /** The registry after an update of a resource that stays watched. */
  function StillWatched(reg: Registry, key: ResourceKey, cur: Resource): Registry {
    if key !in reg then reg
    else if key.kind == Ingress && cur.group != reg[key].gk.name then reg - {key}
    else reg[key := Entry(reg[key].gk, Pruned(reg[key].hosts, HostsNow(cur)))]
  }

  lemma StillWatchedLists(k: Client, reg: Registry, key: ResourceKey, cur: Resource)
    requires Lists(k.groups, reg)
    ensures Lists(OnStillWatched(k, key, cur).groups, StillWatched(reg, key, cur))
  {
    hide Lists, Pruned, SetHosts;
    HeldListed(k.groups, reg, key);
    if key in reg {
      ListedAt(k.groups, reg, key);
      var pruned := Pruned(reg[key].hosts, HostsNow(cur));
      SetListed(k.groups, reg, key, pruned);
      var gk := reg[key].gk;
      var groups := SetHosts(k.groups, gk, FirstKey(k.groups[gk], key), pruned);
      var reg1 := reg[key := Entry(gk, pruned)];
      CutLists(groups, reg1, key);
      assert reg1 - {key} == reg - {key};
    }
  }

  /** Only one key's cache entry and listing have changed. */
  lemma ServedOthers(k: Client, reg: Registry, k': Client, reg': Registry, key: ResourceKey)
    requires forall x :: x in k.cache ==> Served(k, reg, x)
    requires k'.cache.Keys <= k.cache.Keys + {key} && k.queue - {key} <= k'.queue
    requires forall x :: x in k'.cache && x != key ==> x in k.cache && k'.cache[x] == k.cache[x]
    requires forall x :: x in reg && x != key ==> x in reg' && reg'[x] == reg[x]
    ensures forall x :: x in k'.cache && x != key ==> Served(k', reg', x)
  {
    forall x | x in k'.cache && x != key ensures Served(k', reg', x) {
      assert Served(k, reg, x);
    }
  }

  /** The listing of one key fits its cache entry. */
  ghost predicate FitsCache(k: Client, reg: Registry, key: ResourceKey) {
    && (key in reg ==>
      key in k.cache && k.cache[key].watched && k.cache[key].net.Some? && reg[key].gk == KeyFor(key, k.cache[key]))
    && (key in k.cache ==> key.kind != NoKind && Served(k, reg, key))
  }

  /** A step that touches one key keeps the invariant when the groups list the new registry and the key's
      entry fits. */
  lemma OneKeyInv(k: Client, reg: Registry, k': Client, reg': Registry, key: ResourceKey)
    requires Inv(k, reg) && Lists(k'.groups, reg') && FitsCache(k', reg', key)
    requires k'.cache.Keys <= k.cache.Keys + {key} && k.cache.Keys - {key} <= k'.cache.Keys &&
      k.queue - {key} <= k'.queue
    requires forall x :: x in k'.cache && x != key ==> x in k.cache && k'.cache[x] == k.cache[x]
    requires reg' - {key} == reg - {key}
    requires k'.initialState == k.initialState && k'.sent == k.sent
    ensures Inv(k', reg')
  {
    hide Lists, Served, KeyFor;
    forall x | x in reg && x != key ensures x in reg' && reg'[x] == reg[x] {
      assert x in reg - {key};
    }
    forall x | x in reg' && x != key ensures x in reg && reg'[x] == reg[x] {
      assert x in reg' - {key};
    }
    ServedOthers(k, reg, k', reg', key);
  }

  lemma StillWatchedShape(k: Client, key: ResourceKey, cur: Resource)
    ensures var k' := OnStillWatched(k, key, cur); k' == k.(groups := k'.groups, updated := k'.updated)
  {
  }

  lemma UpdateStillWatched(k: Client, reg: Registry, key: ResourceKey, cur: Resource)
    requires Inv(k, reg) && key in k.cache && cur.net == k.cache[key].net && k.cache[key].watched && cur.watched
    ensures Inv(OnUpdate(k, key, cur), StillWatched(reg, key, cur))
  {
    hide Lists, Pruned, Served, OnStillWatched;
    StillWatchedShape(k.(cache := k.cache[key := cur]), key, cur);
    var k1, k', reg' := k.(cache := k.cache[key := cur]), OnUpdate(k, key, cur), StillWatched(reg, key, cur);
    StillWatchedLists(k1, reg, key, cur);
    QueuedServed(k', reg', key);
    OneKeyInv(k, reg, k', reg', key);
  }

  lemma QueuedServed(k: Client, reg: Registry, key: ResourceKey)
    requires key in k.cache && (key in k.queue || !k.cache[key].watched)
    ensures Served(k, reg, key)
  {
  }

  lemma CutNotHeld(groups: Groups, key: ResourceKey)
    requires !Held(groups, key)
    ensures Cut(groups, key) == groups
  {
  }

  lemma UpdateLost(k: Client, reg: Registry, key: ResourceKey, cur: Resource)
    requires Inv(k, reg) && key in k.cache && cur.net == k.cache[key].net && k.cache[key].watched && !cur.watched
    ensures Inv(OnUpdate(k, key, cur), reg - {key})
  {
    hide Lists, Served, Cut, Held, Write;
    var k2 := k.(cache := k.cache[key := cur], groups := Cut(k.groups, key));
    CutLists(k.groups, reg, key);
    QueuedServed(k2, reg - {key}, key);
    OneKeyInv(k, reg, k2, reg - {key}, key);
    if Held(k.groups, key) {
      WriteInv(k2, reg - {key});
    } else {
      CutNotHeld(k.groups, key);
    }
  }

  lemma UpdateUnwatched(k: Client, reg: Registry, key: ResourceKey, cur: Resource)
    requires Inv(k, reg) && key in k.cache && !k.cache[key].watched
    ensures Inv(OnUpdate(k, key, cur), reg)
  {
    hide Lists, Served;
    var k' := OnUpdate(k, key, cur);
    QueuedServed(k', reg, key);
    OneKeyInv(k, reg, k', reg, key);
  }

  lemma DeleteInv(k: Client, reg: Registry, key: ResourceKey)
    requires Inv(k, reg) && key in k.cache
    ensures Inv(OnDelete(k, key), reg - {key})
  {
    hide Lists, Cut, Served, Held, Write;
    HeldListed(k.groups, reg, key);
    CutLists(k.groups, reg, key);
    var k1 := k.(cache := k.cache - {key});
    var k2 := k1.(groups := Cut(k.groups, key));
    OneKeyInv(k, reg, k2, reg - {key}, key);
    if Held(k.groups, key) {
      WriteInv(k2, reg - {key});
    } else {
      CutNotHeld(k.groups, key);
    }
  }

  /** The registry after a sync. */
  function Synced(k: Client, reg: Registry, key: ResourceKey): Registry {
    if key in k.cache && Complete(k.cache[key]) then
      var res := k.cache[key];
      reg[key :=
        Entry(KeyFor(key, res), if key in reg then Merge(reg[key].hosts, res.hosts.value) else res.hosts.value)]
    else reg
  }

  lemma SyncListed(k: Client, reg: Registry, key: ResourceKey)
    requires Inv(k, reg) && key in k.cache && Complete(k.cache[key])
    ensures Lists(AddSpec(k.groups, KeyFor(key, k.cache[key]), key, k.cache[key].hosts.value), Synced(k, reg, key))
  {
    hide Lists, AddSpec, Merge;
    var res := k.cache[key];
    if key in reg {
      AddMore(k.groups, reg, KeyFor(key, res), key, res.hosts.value);
    } else {
      AddNew(k.groups, reg, KeyFor(key, res), key, res.hosts.value);
    }
  }

  lemma SyncServes(k: Client, reg: Registry, key: ResourceKey, k': Client)
    requires key in k.cache && Complete(k.cache[key]) && k'.cache == k.cache
    ensures Served(k', Synced(k, reg, key), key)
  {
    if key in reg { MergeHas(reg[key].hosts, k.cache[key].hosts.value); }
  }

  lemma SyncInv(k: Client, reg: Registry, key: ResourceKey)
    requires Inv(k, reg) && Regular(k, Sync(key))
    ensures Inv(OnSync(k, key), Synced(k, reg, key))
  {
    hide Lists, AddSpec, Served, Merge, KeyFor, Write;
    var k1, reg' := k.(queue := k.queue - {key}), Synced(k, reg, key);
    if key in k.cache && Complete(k.cache[key]) {
      SyncListed(k, reg, key);
      var groups := AddSpec(k.groups, KeyFor(key, k.cache[key]), key, k.cache[key].hosts.value);
      var k2 := k1.(groups := groups, updated := k.updated || groups != k.groups);
      SyncServes(k, reg, key, k2);
      OneKeyInv(k, reg, k2, reg', key);
      WriteInv(k2, reg');
    } else {
      if key in k.cache { IncompleteServed(k1, reg, key); }
      OneKeyInv(k, reg, k1, reg, key);
      WriteInv(k1, reg);
    }
  }

  lemma IncompleteServed(k: Client, reg: Registry, key: ResourceKey)
    requires key in k.cache && !Complete(k.cache[key])
    ensures Served(k, reg, key)
  {
  }

  function NextReg(k: Client, reg: Registry, e: Event): Registry
    requires e.Updated? ==> e.key in k.cache
  {
    match e
    case Added(_, _) => reg
    case Updated(key, cur) =>
      if !k.cache[key].watched then reg else if cur.watched then StillWatched(reg, key, cur) else reg - {key}
    case Deleted(key) => reg - {key}
    case Sync(key) => Synced(k, reg, key)
    case Timer => reg
    case NsQueue(_) => reg
  }

  /** Every step keeps the invariant, whatever the interleaving of informers and queue. */
  lemma StepInv(k: Client, reg: Registry, e: Event)
    requires Inv(k, reg) && Enabled(k, e) && Regular(k, e)
    ensures Inv(Next(k, e), NextReg(k, reg, e))
  {
    hide Lists, Served, OnUpdate, OnDelete, OnSync, OnAdd, Synced, StillWatched;
    match e {
      case Added(key, res) => AddInv(k, reg, key, res);
      case Updated(key, cur) =>
        if !k.cache[key].watched { UpdateUnwatched(k, reg, key, cur); }
        else if cur.watched { UpdateStillWatched(k, reg, key, cur); }
        else { UpdateLost(k, reg, key, cur); }
      case Deleted(key) => DeleteInv(k, reg, key);
      case Sync(key) => SyncInv(k, reg, key);
      case Timer => WriteInv(k, reg);
      case NsQueue(n) => ServedOtherQueue(k, reg, n);
    }
  }

  lemma ServedOtherQueue(k: Client, reg: Registry, n: nat)
    requires Inv(k, reg)
    ensures Inv(k.(nsPending := n), reg)
  {
    hide Lists;
    forall key | key in k.cache ensures Served(k.(nsPending := n), reg, key) {
      assert Served(k, reg, key);
    }
  }

  // ---------- runs ----------

  ghost predicate RegularRun(k: Client, events: seq<Event>) {
    events != [] ==>
      var mid := RunEvents(k, events[..|events| - 1]);
      RegularRun(k, events[..|events| - 1]) && Regular(mid, events[|events| - 1])
  }

  lemma {:induction false} RunInv(k: Client, reg: Registry, events: seq<Event>)
    requires Inv(k, reg) && RegularRun(k, events)
    ensures exists reg' :: Inv(RunEvents(k, events), reg')
  {
    hide Inv, Regular, Enabled, Next;
    if events == [] {
      assert Inv(RunEvents(k, events), reg);
    } else {
      var init, e := events[..|events| - 1], events[|events| - 1];
      RunInv(k, reg, init);
      var mid := RunEvents(k, init);
      var reg1 :| Inv(mid, reg1);
      if Enabled(mid, e) {
        EnabledCached(mid, e);
        StepInv(mid, reg1, e);
        assert Inv(RunEvents(k, events), NextReg(mid, reg1, e));
      } else {
        assert Inv(RunEvents(k, events), reg1);
      }
    }
  }

  lemma EnabledCached(k: Client, e: Event)
    requires Enabled(k, e)
    ensures e.Updated? ==> e.key in k.cache
  {
  }

  /** Every listed resource is present, watched, listed once, and under its current group. */
  ghost predicate Orderly(k: Client) {
    && WellGrouped(k.groups)
    && (forall gk, s :: In(k.groups, gk, s) ==>
      s.key in k.cache && k.cache[s.key].watched && k.cache[s.key].net.Some? && gk == KeyFor(s.key, k.cache[s.key]))
    && (forall gk, s, gk', s' :: In(k.groups, gk, s) && In(k.groups, gk', s') && s.key == s'.key ==>
      gk == gk' && s == s')
  }

  lemma InvMeans(k: Client, reg: Registry)
    requires Inv(k, reg)
    ensures Orderly(k)
  {
    hide WellFormed, Served;
    forall gk, s, gk', s' | In(k.groups, gk, s) && In(k.groups, gk', s') && s.key == s'.key
      ensures gk == gk' && s == s'
    {
      SpecFromEntry(k.groups, reg, gk, s);
      SpecFromEntry(k.groups, reg, gk', s');
    }
  }

  lemma SpecFromEntry(groups: Groups, reg: Registry, gk: GroupKey, s: Spec)
    requires Lists(groups, reg) && In(groups, gk, s)
    ensures s.key in reg && reg[s.key].gk == gk && s == NewSpec(gk, s.key, reg[s.key].hosts)
  {
    assert WellFormed(gk, groups[gk]);
  }

  lemma StartInv()
    ensures Inv(INITIAL, map[])
  {
  }

  /** Over every run from the start in which networks never change and no unwatched resource is synced,
      each resource has at most one spec, under its current group, and none once it is unwatched or gone. */
  lemma RunOrderly(events: seq<Event>)
    requires RegularRun(INITIAL, events)
    ensures Orderly(RunEvents(INITIAL, events))
  {
    hide Inv, Orderly, RegularRun;
    StartInv();
    RunInv(INITIAL, map[], events);
    var reg :| Inv(RunEvents(INITIAL, events), reg);
    InvMeans(RunEvents(INITIAL, events), reg);
  }

  // ---------- handlers with the sync they ask for ----------

  /** The key a handler has queued. */
  predicate Asks(k: Client, e: Event) {
    (e.Added? || e.Updated? || e.Deleted?) && e.key in k.queue
  }

  /** A handler followed at once by the sync of the key it has queued; the timer and the namespace queue
      stand alone. */
  ghost function Atomic(k: Client, e: Event): Client
    requires Enabled(k, e)
  {
    var k1 := Next(k, e);
    if Asks(k1, e) then OnSync(k1, e.key) else k1
  }

  ghost function AtomicRun(k: Client, events: seq<Event>): Client {
    if events == [] then k
    else
      var mid, e := AtomicRun(k, events[..|events| - 1]), events[|events| - 1];
      if Enabled(mid, e) && !e.Sync? then Atomic(mid, e) else mid
  }

  predicate KeepsNet(k: Client, e: Event) {
    e.Updated? ==> e.key in k.cache && e.res.net == k.cache[e.key].net
  }

  /** No event changes the network of a resource. */
  ghost predicate KeepsNets(k: Client, events: seq<Event>) {
    events != [] ==>
      && KeepsNets(k, events[..|events| - 1])
      && (Enabled(AtomicRun(k, events[..|events| - 1]), events[|events| - 1]) ==>
          KeepsNet(AtomicRun(k, events[..|events| - 1]), events[|events| - 1]))
  }

  /** What a handler queues is its own key, for a resource it has left watched. */
  lemma AsksWatched(k: Client, e: Event)
    requires Enabled(k, e) && !e.Sync? && k.queue == {}
    ensures var k1 := Next(k, e);
      && (Asks(k1, e) ==> k1.queue == {e.key} && e.key in k1.cache && k1.cache[e.key].watched)
      && (!Asks(k1, e) ==> k1.queue == {})
  {
    hide Cut, Pruned, SetHosts, Holder, Held, Holds;
  }

  lemma AtomicInv(k: Client, reg: Registry, e: Event) returns (reg': Registry)
    requires Inv(k, reg) && k.queue == {} && Enabled(k, e) && !e.Sync? && KeepsNet(k, e)
    ensures Inv(Atomic(k, e), reg') && Atomic(k, e).queue == {}
  {
    hide Inv, Next, OnSync, Synced;
    EnabledCached(k, e);
    StepInv(k, reg, e);
    AsksWatched(k, e);
    var k1 := Next(k, e);
    reg' := NextReg(k, reg, e);
    if Asks(k1, e) {
      SyncInv(k1, reg', e.key);
      SyncDrains(k1, e.key);
      reg' := Synced(k1, reg', e.key);
    }
  }

  lemma SyncDrains(k: Client, key: ResourceKey)
    ensures OnSync(k, key).queue == k.queue - {key} && OnSync(k, key).cache == k.cache
  {
    hide AddSpec;
  }

  lemma {:induction false} AtomicRunInv(events: seq<Event>) returns (reg: Registry)
    requires KeepsNets(INITIAL, events)
    ensures Inv(AtomicRun(INITIAL, events), reg) && AtomicRun(INITIAL, events).queue == {}
  {
    hide Inv, Enabled, Atomic, KeepsNet;
    if events == [] {
      StartInv();
      reg := map[];
    } else {
      var init, e := events[..|events| - 1], events[|events| - 1];
      reg := AtomicRunInv(init);
      var mid := AtomicRun(INITIAL, init);
      if Enabled(mid, e) && !e.Sync? {
        reg := AtomicInv(mid, reg, e);
      }
    }
  }

  /** Over every run of handlers with their syncs in which networks never change, each resource has at most
      one spec across all groups, under its current group, and none once it is unwatched or deleted. */
  lemma AtomicRunOrderly(events: seq<Event>)
    requires KeepsNets(INITIAL, events)
    ensures Orderly(AtomicRun(INITIAL, events)) && AtomicRun(INITIAL, events).queue == {}
  {
    hide Inv, Orderly, KeepsNets, AtomicRun;
    var reg := AtomicRunInv(events);
    InvMeans(AtomicRun(INITIAL, events), reg);
  }

  /** syncResource does not check the watch annotation: syncing a key keeps the client orderly if and only
      if the key's resource is gone, still watched, or incomplete. */
  lemma SyncOrderlyIff(k: Client, reg: Registry, key: ResourceKey)
    requires Inv(k, reg) && key in k.queue
    ensures Orderly(OnSync(k, key)) <==> (key in k.cache ==> k.cache[key].watched || !Complete(k.cache[key]))
  {
    hide Lists, AddSpec, WellGrouped, Served;
    if Regular(k, Sync(key)) {
      SyncInv(k, reg, key);
      InvMeans(OnSync(k, key), Synced(k, reg, key));
    } else {
      SyncListed(k, reg, key);
      var res := k.cache[key];
      var groups := AddSpec(k.groups, KeyFor(key, res), key, res.hosts.value);
      assert OnSync(k, key).groups == groups;
      ListsEntry(groups, Synced(k, reg, key), key);
    }
  }

  lemma ListsEntry(groups: Groups, reg: Registry, key: ResourceKey)
    requires Lists(groups, reg) && key in reg
    ensures In(groups, reg[key].gk, NewSpec(reg[key].gk, key, reg[key].hosts))
  {
  }

  /** A run that ends disorderly: a resource is queued, loses the watch annotation, and is synced. */
  lemma UnwatchedSyncLists(key: ResourceKey, group: string, net: Net, hosts: seq<Host>)
    requires key.kind != NoKind
    ensures var res := Resource(true, group, Some(net), Some(hosts));
      !Orderly(RunEvents(INITIAL, [Added(key, res), Updated(key, res.(watched := false)), Sync(key)]))
  {
    var res := Resource(true, group, Some(net), Some(hosts));
    var e1, e2, e3 := Added(key, res), Updated(key, res.(watched := false)), Sync(key);
    assert [e1, e2, e3][..2] == [e1, e2] && [e1, e2][..1] == [e1] && [e1][..0] == [];
    var k1 := OnAdd(INITIAL, key, res);
    assert RunEvents(INITIAL, []) == INITIAL;
    assert RunEvents(INITIAL, [e1]) == k1;
    StartInv();
    AddInv(INITIAL, map[], key, res);
    UpdateInv2(k1, key, res.(watched := false));
    var k2 := OnUpdate(k1, key, res.(watched := false));
    assert RunEvents(INITIAL, [e1, e2]) == k2;
    assert RunEvents(INITIAL, [e1, e2, e3]) == OnSync(k2, key);
    SyncOrderlyIff(k2, map[], key);
  }

  lemma UpdateInv2(k: Client, key: ResourceKey, cur: Resource)
    requires Inv(k, map[]) && key in k.cache && cur.net == k.cache[key].net && k.cache[key].watched && !cur.watched
    ensures Inv(OnUpdate(k, key, cur), map[])
    ensures OnUpdate(k, key, cur) == k.(cache := k.cache[key := cur])
  {
    hide Lists, Served;
    HeldListed(k.groups, map[], key);
    UpdateLost(k, map[], key, cur);
    var empty: Registry := map[];
    assert empty - {key} == empty;
  }

  // ---------- the startup gate ----------

  /** The snapshot lists the resource, with all its hosts. */
  ghost predicate ListedIn(snapshot: Groups, key: ResourceKey, res: Resource)
    requires Complete(res)
  {
    exists s :: In(snapshot, KeyFor(key, res), s) && s.key == key && forall h :: h in res.hosts.value ==> h in s.hosts
  }

  lemma GateOpens(k: Client, e: Event)
    requires Enabled(k, e) && !k.initialState && k.sent == []
    ensures var k' := Next(k, e);
      k'.initialState ==> k'.queue == {} && k'.nsPending == 0 && k'.sent == [k'.groups]
  {
    hide Cut, AddSpec, Pruned, SetHosts, Holder, Held, Holds;
  }

  /** The first snapshot is sent only with both queues empty, and lists every watched complete resource
      there is, with all its hosts. */
  lemma FirstSnapshotComplete(k: Client, reg: Registry, e: Event)
    requires Inv(k, reg) && Enabled(k, e) && Regular(k, e)
    requires k.sent == [] && Next(k, e).sent != []
    ensures var k' := Next(k, e);
      && k'.queue == {} && k'.nsPending == 0 && k'.sent == [k'.groups]
      && forall key :: key in k'.cache && k'.cache[key].watched && Complete(k'.cache[key]) ==>
        ListedIn(k'.sent[0], key, k'.cache[key])
  {
    hide Next, Enabled, Regular, Lists, Served;
    EnabledCached(k, e);
    StepInv(k, reg, e);
    GateOpens(k, e);
    var k', reg' := Next(k, e), NextReg(k, reg, e);
    forall key | key in k'.cache && k'.cache[key].watched && Complete(k'.cache[key])
      ensures ListedIn(k'.groups, key, k'.cache[key])
    {
      ServedListed(k', reg', key);
    }
  }

  lemma ServedListed(k: Client, reg: Registry, key: ResourceKey)
    requires Inv(k, reg) && key in k.cache && key !in k.queue && k.cache[key].watched && Complete(k.cache[key])
    ensures ListedIn(k.groups, key, k.cache[key])
  {
    hide WellGrouped;
    assert Served(k, reg, key);
    var s := NewSpec(reg[key].gk, key, reg[key].hosts);
    assert In(k.groups, KeyFor(key, k.cache[key]), s);
  }

  // ---------- specs without hosts ----------

  /** Every spec has hosts exactly when every entry has. */
  lemma HaveHostsIff(groups: Groups, reg: Registry)
    requires Lists(groups, reg)
    ensures HaveHosts(groups) <==> Filled(reg)
  {
    hide WellGrouped;
    forall key | key in reg ensures In(groups, reg[key].gk, NewSpec(reg[key].gk, key, reg[key].hosts)) {
    }
  }

  ghost function HostsAt(groups: Groups, key: ResourceKey): seq<Host>
    requires Held(groups, key)
  {
    groups[Holder(groups, key)][FirstKey(groups[Holder(groups, key)], key)].hosts
  }

  /** What a step must not do: leave an updated resource in its group with no host, or list one without hosts. */
  ghost predicate Fills(k: Client, e: Event) {
    match e
    case Updated(key, cur) =>
      key in k.cache && k.cache[key].watched && cur.watched && Held(k.groups, key) ==>
        || Pruned(HostsAt(k.groups, key), HostsNow(cur)) != []
        || (key.kind == Ingress && cur.group != Holder(k.groups, key).name)
    case Sync(key) =>
      key in k.cache && Complete(k.cache[key]) ==> Held(k.groups, key) || k.cache[key].hosts.value != []
    case _ => true
  }

  /** Every entry has hosts. */
  ghost predicate Filled(reg: Registry) {
    forall key :: key in reg ==> reg[key].hosts != []
  }

  lemma FilledAt(reg: Registry, key: ResourceKey, entry: Entry)
    requires Filled(reg)
    ensures Filled(reg[key := entry]) <==> entry.hosts != []
  {
    if Filled(reg[key := entry]) { assert key in reg[key := entry]; }
  }

  lemma FilledLess(reg: Registry, key: ResourceKey)
    requires Filled(reg)
    ensures Filled(reg - {key})
  {
  }

  lemma UpdateFills(k: Client, reg: Registry, key: ResourceKey, cur: Resource)
    requires Lists(k.groups, reg) && Filled(reg) && key in k.cache
    ensures Filled(NextReg(k, reg, Updated(key, cur))) <==> Fills(k, Updated(key, cur))
  {
    hide Lists, Pruned, Filled;
    HeldListed(k.groups, reg, key);
    FilledLess(reg, key);
    if key in reg {
      ListedAt(k.groups, reg, key);
      assert HostsAt(k.groups, key) == reg[key].hosts;
      var pruned := Pruned(reg[key].hosts, HostsNow(cur));
      FilledAt(reg, key, Entry(reg[key].gk, pruned));
    }
  }

  lemma SyncFills(k: Client, reg: Registry, key: ResourceKey)
    requires Lists(k.groups, reg) && Filled(reg)
    ensures Filled(Synced(k, reg, key)) <==> Fills(k, Sync(key))
  {
    hide Lists, Merge, Filled, KeyFor;
    HeldListed(k.groups, reg, key);
    if key in k.cache && Complete(k.cache[key]) {
      var hosts := k.cache[key].hosts.value;
      if key in reg {
        assert reg[key].hosts != [] by { FilledHas(reg, key); }
        MergeFills(reg[key].hosts, hosts);
      }
      FilledAt(reg, key, Synced(k, reg, key)[key]);
    }
  }

  lemma FilledHas(reg: Registry, key: ResourceKey)
    requires Filled(reg) && key in reg
    ensures reg[key].hosts != []
  {
  }

  lemma MergeFills(have: seq<Host>, hosts: seq<Host>)
    requires have != []
    ensures Merge(have, hosts) != []
  {
    MergeHas(have, hosts);
    assert have[0] in Merge(have, hosts);
  }

  lemma FillsEntry(k: Client, reg: Registry, e: Event)
    requires Inv(k, reg) && Filled(reg) && (e.Updated? ==> e.key in k.cache)
    ensures Filled(NextReg(k, reg, e)) <==> Fills(k, e)
  {
    hide Lists, Filled, Served, Current, StillWatched, Synced;
    match e {
      case Updated(key, cur) => UpdateFills(k, reg, key, cur);
      case Sync(key) => SyncFills(k, reg, key);
      case Deleted(key) => FilledLess(reg, key);
      case _ =>
    }
  }

  /** Exactly when a step leaves every spec with hosts. */
  lemma StepFillsIff(k: Client, reg: Registry, e: Event)
    requires Inv(k, reg) && Enabled(k, e) && Regular(k, e) && HaveHosts(k.groups)
    ensures HaveHosts(Next(k, e).groups) <==> Fills(k, e)
  {
    hide Lists, Next, Fills, Filled, HaveHosts, NextReg, Served, Current, Enabled;
    EnabledCached(k, e);
    HaveHostsIff(k.groups, reg);
    StepInv(k, reg, e);
    FillsEntry(k, reg, e);
    HaveHostsIff(Next(k, e).groups, NextReg(k, reg, e));
  }

  lemma {:induction false} SkippingEmptyIff(l: seq<Host>, keep: seq<Host>)
    ensures Skipping(l, keep) == [] <==> |l| <= 2 && forall h :: h in l ==> h !in keep
  {
    if l != [] && l[0] !in keep && |l| <= 2 {
      KeptAreListed(l[1..], keep);
      assert l == [l[0]] + l[1..];
      NoElements(Kept(l[1..], keep));
    }
  }

  /** On a list without repeats, the update leaves no host exactly when there were two at most and all are gone. */
  lemma PrunedEmptyIff(l: seq<Host>, keep: seq<Host>)
    requires Distinct(l)
    ensures Pruned(l, keep) == [] <==> |l| <= 2 && forall h :: h in l ==> h !in keep
  {
    PruneIsSkipping(l, keep);
    SkippingEmptyIff(l, keep);
  }

  /** A snapshot holds the groups of the step that sends it. */
  lemma SentIsNow(k: Client, e: Event)
    requires Enabled(k, e)
    ensures Next(k, e).sent == k.sent || Next(k, e).sent == k.sent + [Next(k, e).groups]
  {
    hide Cut, AddSpec, Pruned, SetHosts, Holder, Held, Holds;
  }

  /** Every snapshot lists a resource once. */
  ghost predicate SingleSent(sent: seq<Groups>) {
    forall i :: 0 <= i < |sent| ==> OneSpecEach(sent[i])
  }

  /** Every spec in every snapshot has hosts. */
  ghost predicate FilledSent(sent: seq<Groups>) {
    forall i :: 0 <= i < |sent| ==> HaveHosts(sent[i])
  }

  lemma SentOnce(k: Client, e: Event)
    requires Enabled(k, e) && SingleSent(k.sent) && OneSpecEach(Next(k, e).groups)
    ensures SingleSent(Next(k, e).sent)
    ensures HaveHosts(Next(k, e).groups) && FilledSent(k.sent) ==> FilledSent(Next(k, e).sent)
  {
    hide Next, Enabled, OneSpecEach, HaveHosts;
    SentIsNow(k, e);
  }

  ghost predicate FillsAll(k: Client, events: seq<Event>) {
    events != [] ==>
      var mid := RunEvents(k, events[..|events| - 1]);
      FillsAll(k, events[..|events| - 1]) && (Enabled(mid, events[|events| - 1]) ==> Fills(mid, events[|events| - 1]))
  }

  /** Every snapshot of a regular run has one spec for a resource; if no step leaves a spec without hosts,
      every spec in every snapshot has hosts. */
  lemma {:induction false} RunSnapshots(events: seq<Event>)
    requires RegularRun(INITIAL, events)
    ensures var k := RunEvents(INITIAL, events);
      && SingleSent(k.sent)
      && (FillsAll(INITIAL, events) ==> HaveHosts(k.groups) && FilledSent(k.sent))
  {
    hide Inv, Regular, Enabled, Next, Fills, OneSpecEach, HaveHosts, Orderly;
    var k := RunEvents(INITIAL, events);
    if events == [] {
      NoGroups();
    } else {
      var init, e := events[..|events| - 1], events[|events| - 1];
      RunSnapshots(init);
      var mid := RunEvents(INITIAL, init);
      if Enabled(mid, e) {
        StartInv();
        RunInv(INITIAL, map[], init);
        var reg :| Inv(mid, reg);
        EnabledCached(mid, e);
        StepInv(mid, reg, e);
        InvMeans(Next(mid, e), NextReg(mid, reg, e));
        OrderlyOne(Next(mid, e));
        if FillsAll(INITIAL, events) { StepFillsIff(mid, reg, e); }
        assert RunEvents(INITIAL, events) == Next(mid, e);
        SentOnce(mid, e);
      }
    }
  }

  lemma NoGroups()
    ensures HaveHosts(INITIAL.groups)
  {
  }

  lemma OrderlyOne(k: Client)
    requires Orderly(k)
    ensures OneSpecEach(k.groups)
  {
  }

  /** A run of handlers with their syncs that sends a spec without hosts: an Ingress with one host loses it,
      networks and groups unchanged. */
  lemma HostlessSnapshot(key: ResourceKey, group: string, net: Net, a: Host)
    requires key.kind == Ingress
    ensures var res := Resource(true, group, Some(net), Some([a]));
      var events := [Added(key, res), Updated(key, res.(hosts := None))];
      var k := AtomicRun(INITIAL, events);
      KeepsNets(INITIAL, events) && |k.sent| == 2 && !HaveHosts(k.sent[1])
  {
    var res := Resource(true, group, Some(net), Some([a]));
    var e1, e2, gk := Added(key, res), Updated(key, res.(hosts := None)), GroupKey(group, net.netview, net.cidr);
    assert [e1, e2][..1] == [e1] && [e1][..0] == [];
    var k1 := OnSync(OnAdd(INITIAL, key, res), key);
    var reg: Registry := map[key := Entry(gk, [a])];
    FirstListed(key, res, [a]);
    assert AtomicRun(INITIAL, []) == INITIAL && AtomicRun(INITIAL, [e1]) == k1;
    LosesHosts(k1, reg, key, res, a);
    var k2 := OnUpdate(k1, key, res.(hosts := None));
    assert AtomicRun(INITIAL, [e1, e2]) == OnSync(k2, key);
  }

  lemma FirstListed(key: ResourceKey, res: Resource, hosts: seq<Host>)
    requires key.kind != NoKind && res.watched && Complete(res) && res.hosts.value == hosts
    ensures var k := OnSync(OnAdd(INITIAL, key, res), key);
      && k == Client(k.groups, map[key := res], {}, 0, false, true, [k.groups])
      && Inv(k, map[key := Entry(KeyFor(key, res), hosts)])
  {
    hide Lists, AddSpec, Served, Merge;
    StartInv();
    AddInv(INITIAL, map[], key, res);
    var k0 := OnAdd(INITIAL, key, res);
    SyncInv(k0, map[], key);
    NewGroup(KeyFor(key, res), key, hosts);
    assert k0.queue - {key} == {};
    assert Synced(k0, map[], key) == map[key := Entry(KeyFor(key, res), hosts)];
  }

  lemma NewGroup(gk: GroupKey, key: ResourceKey, hosts: seq<Host>)
    ensures AddSpec(map[], gk, key, hosts) != map[]
  {
    assert gk in AddSpec(map[], gk, key, hosts);
  }

  lemma LosesHosts(k: Client, reg: Registry, key: ResourceKey, res: Resource, a: Host)
    requires key.kind == Ingress && Complete(res) && res.watched && res.hosts.value == [a]
    requires Inv(k, reg) && reg == map[key := Entry(KeyFor(key, res), [a])]
    requires k == Client(k.groups, map[key := res], {}, 0, false, true, [k.groups])
    ensures var k2 := OnUpdate(k, key, res.(hosts := None));
      && k2.queue == {key} && |OnSync(k2, key).sent| == 2 && !HaveHosts(OnSync(k2, key).sent[1])
  {
    hide Lists, Served, SetHosts, Pruned;
    var cur := res.(hosts := None);
    HeldListed(k.groups, reg, key);
    ListedAt(k.groups, reg, key);
    UpdateStillWatched(k, reg, key, cur);
    PrunedEmptyIff([a], []);
    var k2, reg2 := OnUpdate(k, key, cur), StillWatched(reg, key, cur);
    assert k2.groups == OnStillWatched(k.(cache := k.cache[key := cur]), key, cur).groups;
    assert reg2 == reg[key := Entry(reg[key].gk, [])];
    HaveHostsIff(k2.groups, reg2);
    assert k2.queue - {key} == {};
  }

  // ---------- update, then sync ----------

  /** An Ingress that keeps its group and stays watched: after the update and the sync it is listed with
      exactly its new hosts if no two neighbours of the old list are both gone, the final pair excepted; when no
      host is listed twice, only then. */
  lemma UpdateSyncExactIff(k: Client, reg: Registry, key: ResourceKey, cur: Resource)
    requires Inv(k, reg) && key in reg && key in k.cache
    requires cur.watched && Complete(cur) && cur.net == k.cache[key].net && cur.group == k.cache[key].group
    ensures var k1, reg1 := OnUpdate(k, key, cur), StillWatched(reg, key, cur);
      var reg2 := Synced(k1, reg1, key);
      && Inv(OnSync(k1, key), reg2) && key in reg2
      && ((forall i :: !GonePair(reg[key].hosts, cur.hosts.value, i)) ==>
          Elements(reg2[key].hosts) == Elements(cur.hosts.value))
      && (Distinct(reg[key].hosts) ==>
          (Elements(reg2[key].hosts) == Elements(cur.hosts.value) <==>
            forall i :: !GonePair(reg[key].hosts, cur.hosts.value, i)))
  {
    hide Lists, Served, Pruned, Merge, OnUpdate, OnSync;
    UpdateStillWatched(k, reg, key, cur);
    UpdateCaches(k, key, cur);
    var k1, reg1 := OnUpdate(k, key, cur), StillWatched(reg, key, cur);
    SyncInv(k1, reg1, key);
    if forall i :: !GonePair(reg[key].hosts, cur.hosts.value, i) { MergedExact(reg[key].hosts, cur.hosts.value); }
    if Distinct(reg[key].hosts) { MergedExactIff(reg[key].hosts, cur.hosts.value); }
  }

  lemma MergedExact(l: seq<Host>, hosts: seq<Host>)
    requires forall i :: !GonePair(l, hosts, i)
    ensures Elements(Merge(Pruned(l, hosts), hosts)) == Elements(hosts)
  {
    hide Prune, GonePair, Merge, Elements;
    PruneExact(l, hosts);
    KeptAreListed(l, hosts);
    MergedElements(Pruned(l, hosts), hosts);
  }

  lemma UpdateCaches(k: Client, key: ResourceKey, cur: Resource)
    requires key in k.cache && k.cache[key].watched && cur.watched
    ensures OnUpdate(k, key, cur).cache == k.cache[key := cur]
  {
    StillWatchedShape(k.(cache := k.cache[key := cur]), key, cur);
  }

  lemma MergedExactIff(l: seq<Host>, hosts: seq<Host>)
    requires Distinct(l)
    ensures Elements(Merge(Pruned(l, hosts), hosts)) == Elements(hosts) <==> forall i :: !GonePair(l, hosts, i)
  {
    hide Prune, Skipping, GonePair, Merge, Elements, Distinct;
    var left := Pruned(l, hosts);
    PruneIsSkipping(l, hosts);
    SkippingIsExactIff(l, hosts);
    PruneKeeps(Slice(l, |l|), 0, hosts);
    assert List(Slice(l, |l|)) == l;
    MergedElements(left, hosts);
    KeptAreListed(l, hosts);
    if forall h :: h in left ==> h in hosts { KeptAll(left, hosts); }
  }

  lemma MergedElements(have: seq<Host>, hosts: seq<Host>)
    ensures Elements(Merge(have, hosts)) == Elements(hosts) <==> forall h :: h in have ==> h in hosts
  {
    MergeHas(have, hosts);
    var merged := Merge(have, hosts);
    if Elements(merged) == Elements(hosts) {
      forall h | h in have ensures h in hosts {
        assert h in Elements(merged);
      }
    }
  }
}
