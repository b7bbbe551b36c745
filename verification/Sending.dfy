/**
 When the orchestration client sends its groups, in the terms of the event, the flags and the queues, and when
 the controller is left without the groups as they are now.
 */
module Sending {
  import opened Types
  import opened GroupSpec
  import opened HostSlice
  import opened EventSpec

  // ---------- what changes the groups ----------

  /** The resource is not listed under the key, or one of the hosts is not listed for it. */
  ghost predicate Lacks(groups: Groups, gk: GroupKey, key: ResourceKey, hosts: seq<Host>) {
    || gk !in groups
    || (forall s :: s in groups[gk] ==> s.key != key)
    || exists s, h :: s in groups[gk] && s.key == key && h in hosts && h !in s.hosts
  }

  lemma MergeSame(s: Spec, key: ResourceKey, hosts: seq<Host>)
    ensures MergeSpec(s, key, hosts) != s <==> s.key == key && exists h :: h in hosts && h !in s.hosts
  {
    MergeHas(s.hosts, hosts);
  }

  /** Adding changes the groups exactly when they lack something. */
  lemma AddChangesIff(groups: Groups, gk: GroupKey, key: ResourceKey, hosts: seq<Host>)
    ensures AddSpec(groups, gk, key, hosts) != groups <==> Lacks(groups, gk, key, hosts)
  {
    hide MergeSpec;
    if gk !in groups {
      assert gk in AddSpec(groups, gk, key, hosts);
    } else if HasKey(groups[gk], key) {
      MergeChangesIff(groups[gk], key, hosts);
      assert exists s :: s in groups[gk] && s.key == key by {
        var i :| 0 <= i < |groups[gk]| && groups[gk][i].key == key;
        assert groups[gk][i] in groups[gk];
      }
    } else {
      assert |AddSpec(groups, gk, key, hosts)[gk]| == |groups[gk]| + 1;
      forall s | s in groups[gk] ensures s.key != key {
        var i :| 0 <= i < |groups[gk]| && groups[gk][i] == s;
      }
    }
  }

  lemma MergeChangesIff(grp: seq<Spec>, key: ResourceKey, hosts: seq<Host>)
    ensures MergeGroup(grp, key, hosts) != grp <==>
      exists s, h :: s in grp && s.key == key && h in hosts && h !in s.hosts
  {
    hide MergeSpec;
    forall i | 0 <= i < |grp|
      ensures MergeSpec(grp[i], key, hosts) != grp[i] <==>
        grp[i].key == key && exists h :: h in hosts && h !in grp[i].hosts
    {
      MergeSame(grp[i], key, hosts);
    }
    if s, h :| s in grp && s.key == key && h in hosts && h !in s.hosts {
      var i :| 0 <= i < |grp| && grp[i] == s;
      assert MergeGroup(grp, key, hosts)[i] != grp[i];
    }
    if MergeGroup(grp, key, hosts) != grp {
      var i :| 0 <= i < |grp| && MergeGroup(grp, key, hosts)[i] != grp[i];
      assert grp[i] in grp;
    }
  }

  lemma {:induction false} PruneShrinks(s: Slice, i: nat, keep: seq<Host>)
    requires Fits(s) && i <= |s.arr|
    ensures Prune(s, i, keep).len <= s.len
    ensures (exists k :: i <= k < s.len && s.arr[k] !in keep) ==> Prune(s, i, keep).len < s.len
    decreases |s.arr| - i
  {
    hide Shift;
    if i < |s.arr| {
      PruneStep(s, i, keep);
      PruneShrinks(if s.arr[i] in keep then s else Shift(s, s.arr[i]), i + 1, keep);
    }
  }

  /** The update handlers' loop changes the list exactly when one of its hosts is gone. */
  lemma PrunedSameIff(l: seq<Host>, keep: seq<Host>)
    ensures Pruned(l, keep) == l <==> forall h :: h in l ==> h in keep
  {
    hide Prune;
    if forall h :: h in l ==> h in keep {
      PruneExact(l, keep);
      KeptAll(l, keep);
    } else {
      var h :| h in l && h !in keep;
      var k :| 0 <= k < |l| && l[k] == h;
      PruneShrinks(Slice(l, |l|), 0, keep);
    }
  }

  // ---------- exactly when a step sends ----------

  /** A listed resource loses the watch annotation or is deleted; a sync finds, or leaves, the groups changed,
      unless it returns early; or the startup check finds nothing queued.  In each case the first snapshot waits
      until nothing is queued, and no later one waits. */
  ghost predicate Sends(k: Client, e: Event)
    requires Enabled(k, e)
  {
    match e
    case Added(_, _) => false
    case Updated(key, cur) =>
      && k.cache[key].watched && !cur.watched && Held(k.groups, key)
      && (k.initialState || (k.queue == {} && k.nsPending == 0))
    case Deleted(key) =>
      && k.cache[key].watched && Held(k.groups, key)
      && (k.initialState || (k.queue == {} && k.nsPending == 0))
    case Sync(key) =>
      && (k.initialState || (k.queue == {key} && k.nsPending == 0))
      && SyncFinds(k, key)
    case Timer => k.queue == {} && k.nsPending == 0
    case NsQueue(_) => false
  }

  ghost predicate SyncFinds(k: Client, key: ResourceKey) {
    if key !in k.cache then k.updated
    else match k.cache[key]
      case Resource(_, _, None, _) => false
      case Resource(_, _, Some(_), None) => key.kind != ConfigMap && k.updated
      case Resource(_, group, Some(net), Some(hosts)) =>
        || k.updated
        || Lacks(k.groups, GroupKey(if key.kind == Ingress then group else "", net.netview, net.cidr), key, hosts)
  }

  /** A host of a listed Ingress is gone, or a sync lists something new. */
  ghost predicate Marks(k: Client, e: Event)
    requires Enabled(k, e)
  {
    match e
    case Updated(key, cur) =>
      && key.kind == Ingress && k.cache[key].watched && cur.watched && Held(k.groups, key)
      && exists h :: h in HostsAt(k.groups, key) && h !in HostsNow(cur)
    case Sync(key) =>
      && key in k.cache && Complete(k.cache[key])
      && Lacks(k.groups, KeyFor(key, k.cache[key]), key, k.cache[key].hosts.value)
    case _ => false
  }

  /** What a step does to the snapshots and the two flags, exactly. */
  ghost predicate Flagged(k: Client, e: Event)
    requires Enabled(k, e)
  {
    var k' := Next(k, e);
    && k'.sent == (if Sends(k, e) then k.sent + [k'.groups] else k.sent)
    && (k'.initialState <==> k.initialState || Sends(k, e))
    && (k'.updated <==> !Sends(k, e) && (k.updated || Marks(k, e)))
  }

  /** Every step sends the groups it leaves exactly when the event, the flags and the queues say so. */
  lemma SendsIff(k: Client, e: Event)
    requires Enabled(k, e)
    ensures Flagged(k, e)
  {
    hide Sends, Marks, Next, Enabled;
    match e {
      case Updated(key, cur) => UpdateFlags(k, key, cur);
      case Deleted(key) => DeleteFlags(k, key);
      case Sync(key) => SyncFlags(k, key);
      case _ => OtherFlags(k, e);
    }
  }

  lemma OtherFlags(k: Client, e: Event)
    requires Enabled(k, e) && (e.Added? || e.Timer? || e.NsQueue?)
    ensures Flagged(k, e)
  {
  }

  lemma DeleteFlags(k: Client, key: ResourceKey)
    requires Enabled(k, Deleted(key))
    ensures Flagged(k, Deleted(key))
  {
    hide Cut, Held;
  }

  lemma UpdateFlags(k: Client, key: ResourceKey, cur: Resource)
    requires Enabled(k, Updated(key, cur))
    ensures Flagged(k, Updated(key, cur))
  {
    hide Cut, Held, Pruned, SetHosts, Holder;
    if Held(k.groups, key) { PrunedSameIff(HostsAt(k.groups, key), HostsNow(cur)); }
  }

  lemma SyncFlags(k: Client, key: ResourceKey)
    requires Enabled(k, Sync(key))
    ensures Flagged(k, Sync(key))
  {
    hide AddSpec, Lacks;
    assert k.queue - {key} == {} <==> k.queue == {key};
    if key in k.cache && Complete(k.cache[key]) {
      AddChangesIff(k.groups, KeyFor(key, k.cache[key]), key, k.cache[key].hosts.value);
    }
  }

  // ---------- what a step queues and caches ----------

  /** A resource is queued when an informer brings it watched, whatever it lacks and whatever it was before; only its
      sync takes it out.  The cache holds each resource as the informers brought it last. */
  ghost predicate Queues(k: Client, e: Event, k': Client) {
    && (match e
        case Added(key, res) =>
          k'.cache == k.cache[key := res] && k'.queue == k.queue + (if res.watched then {key} else {})
        case Updated(key, res) =>
          k'.cache == k.cache[key := res] && k'.queue == k.queue + (if res.watched then {key} else {})
        case Deleted(key) => k'.cache == k.cache - {key} && k'.queue == k.queue
        case Sync(key) => k'.cache == k.cache && k'.queue == k.queue - {key}
        case _ => k'.cache == k.cache && k'.queue == k.queue)
    && k'.nsPending == if e.NsQueue? then e.pending else k.nsPending
  }

  lemma StepQueues(k: Client, e: Event)
    requires Enabled(k, e)
    ensures Queues(k, e, Next(k, e))
  {
    hide Cut, Held, Holder, Pruned, SetHosts, AddSpec;
    if e.Updated? { StillWatchedShape(k.(cache := k.cache[e.key := e.res]), e.key, e.res); }
  }

  // ---------- single steps ----------

  /** A started client sends at once when a listed resource goes or loses the watch annotation, whatever is
      queued. */
  lemma LossIsSent(k: Client, key: ResourceKey, cur: Resource)
    requires k.initialState && key in k.cache && k.cache[key].watched && Held(k.groups, key) && !cur.watched
    ensures var k' := Next(k, Deleted(key)); k'.sent == k.sent + [k'.groups] && !k'.updated
    ensures var k' := Next(k, Updated(key, cur)); k'.sent == k.sent + [k'.groups] && !k'.updated
  {
    hide Next, Held;
    SendsIff(k, Deleted(key));
    SendsIff(k, Updated(key, cur));
  }

  /** A cluster without resources: the startup check sends the empty groups, which opens the gate. */
  lemma TimerOpens(k: Client)
    requires k.queue == {} && k.nsPending == 0
    ensures Next(k, Timer).initialState && Next(k, Timer).sent == k.sent + [k.groups]
    ensures RunEvents(INITIAL, [Timer]).sent == [map[]] && RunEvents(INITIAL, [Timer]).initialState
  {
    SendsIff(k, Timer);
    SendsIff(INITIAL, Timer);
    assert [Timer][..0] == [];
    assert RunEvents(INITIAL, []) == INITIAL;
  }

  // ---------- the controller's knowledge ----------

  /** The client has started, knows of no change to send, and its groups are not the ones it sent last. */
  ghost predicate Stale(k: Client) {
    k.initialState && !k.updated && (k.sent == [] || k.sent[|k.sent| - 1] != k.groups)
  }

  /** An update that changes the groups of a started client and leaves no mark: an Ingress that changes its group
      and loses no host, a ConfigMap that loses a host. */
  ghost predicate Quiet(k: Client, e: Event)
    requires Enabled(k, e)
  {
    && e.Updated? && k.initialState && !k.updated
    && k.cache[e.key].watched && e.res.watched && Held(k.groups, e.key)
    && if e.key.kind == Ingress then
         && e.res.group != Holder(k.groups, e.key).name
         && forall h :: h in HostsAt(k.groups, e.key) ==> h in HostsNow(e.res)
       else
         exists h :: h in HostsAt(k.groups, e.key) && h !in HostsNow(e.res)
  }

  /** Every step but a quiet one leaves a client that is not stale so: the groups it sent last are its groups, or
      it is marked to send at its next sync. */
  lemma StepStaleIff(k: Client, e: Event)
    requires Enabled(k, e) && !Stale(k)
    ensures Stale(Next(k, e)) <==> Quiet(k, e)
  {
    hide Sends, Marks, Next, Held, Holder, HostsAt, Enabled, Quiet;
    SendsIff(k, e);
    if Sends(k, e) {
      SendingIsLoud(k, e);
    } else if k.initialState && !k.updated {
      SilentStep(k, e);
    } else {
      StartedOnly(k, e);
    }
  }

  lemma SendingIsLoud(k: Client, e: Event)
    requires Enabled(k, e) && Sends(k, e)
    ensures !Quiet(k, e)
  {
    hide Held, Holder, HostsAt;
  }

  lemma StartedOnly(k: Client, e: Event)
    requires Enabled(k, e) && (!k.initialState || k.updated)
    ensures !Quiet(k, e)
  {
  }

  /** A started client that sends nothing either keeps its groups, or is marked, or the step is quiet. */
  lemma SilentStep(k: Client, e: Event)
    requires Enabled(k, e) && !Sends(k, e) && k.initialState && !k.updated
    ensures Quiet(k, e) <==> Next(k, e).groups != k.groups && !Marks(k, e)
  {
    hide Held, Holder, HostsAt, AddSpec, Cut, Lacks;
    match e {
      case Updated(key, cur) => SilentUpdate(k, key, cur);
      case Sync(key) =>
        if key in k.cache && Complete(k.cache[key]) {
          AddChangesIff(k.groups, KeyFor(key, k.cache[key]), key, k.cache[key].hosts.value);
        }
      case _ =>
    }
  }

  lemma SilentUpdate(k: Client, key: ResourceKey, cur: Resource)
    requires Enabled(k, Updated(key, cur)) && !Sends(k, Updated(key, cur)) && k.initialState && !k.updated
    ensures Quiet(k, Updated(key, cur)) <==>
      Next(k, Updated(key, cur)).groups != k.groups && !Marks(k, Updated(key, cur))
  {
    hide Held, Holder, HostsAt, Cut, Pruned, SetHosts;
    var k1 := k.(cache := k.cache[key := cur]);
    StillWatchedShape(k1, key, cur);
    if k.cache[key].watched && cur.watched && Held(k.groups, key) {
      FollowedGroups(k1, key, cur);
    } else if k.cache[key].watched && cur.watched {
      assert OnStillWatched(k1, key, cur) == k1;
    }
  }

  /** What following a listed resource changes. */
  lemma FollowedGroups(k: Client, key: ResourceKey, cur: Resource)
    requires Held(k.groups, key)
    ensures OnStillWatched(k, key, cur).groups != k.groups <==>
      || (exists h :: h in HostsAt(k.groups, key) && h !in HostsNow(cur))
      || (key.kind == Ingress && cur.group != Holder(k.groups, key).name)
  {
    hide Pruned;
    var gk := Holder(k.groups, key);
    var i := FirstKey(k.groups[gk], key);
    var hosts := k.groups[gk][i].hosts;
    var pruned := Pruned(hosts, HostsNow(cur));
    PrunedSameIff(hosts, HostsNow(cur));
    SetChanges(k.groups, gk, i, pruned);
    CutChanges(k.groups, SetHosts(k.groups, gk, i, pruned), key, gk, i, pruned);
  }

  lemma SetChanges(groups: Groups, gk: GroupKey, i: nat, hosts: seq<Host>)
    requires gk in groups && i < |groups[gk]|
    ensures SetHosts(groups, gk, i, hosts) == groups <==> hosts == groups[gk][i].hosts
  {
    var grp := groups[gk];
    if hosts == grp[i].hosts {
      assert grp[i := grp[i]] == grp;
    } else {
      assert SetHosts(groups, gk, i, hosts)[gk][i].hosts == hosts;
    }
  }

  /** A spec cut out of its group is missed, whatever its hosts have become. */
  lemma CutChanges(groups: Groups, set1: Groups, key: ResourceKey, gk: GroupKey, i: nat, hosts: seq<Host>)
    requires Holds(groups, gk, key) && i == FirstKey(groups[gk], key) && set1 == SetHosts(groups, gk, i, hosts)
    ensures Cut(set1, key) != groups
  {
    assert set1[gk][i].key == key;
    assert Holds(set1, gk, key);
    var at := Holder(set1, key);
    assert set1.Keys == groups.Keys && |set1[at]| == |groups[at]|;
    CutShorter(set1, at, FirstKey(set1[at], key));
  }

  lemma CutShorter(groups: Groups, gk: GroupKey, i: nat)
    requires gk in groups && i < |groups[gk]|
    ensures var cut := CutSpec(groups, gk, i); gk in cut ==> |cut[gk]| < |groups[gk]|
  {
  }

  // ---------- the sync that follows ----------

  /** What the queued resource's sync will find after a quiet update: a moved Ingress is listed nowhere, a
      ConfigMap has what the update has left. */
  lemma QuietLacks(k: Client, reg: Registry, e: Event)
    requires Inv(k, reg) && Enabled(k, e) && Regular(k, e) && Quiet(k, e) && Complete(e.res)
    ensures Lacks(Next(k, e).groups, KeyFor(e.key, e.res), e.key, e.res.hosts.value) <==>
      || e.key.kind == Ingress
      || exists h :: h in e.res.hosts.value && h !in Pruned(HostsAt(k.groups, e.key), HostsNow(e.res))
  {
    hide Lists, Served, Pruned, OnUpdate, Lacks;
    var key, cur := e.key, e.res;
    HeldListed(k.groups, reg, key);
    ListedAt(k.groups, reg, key);
    UpdateStillWatched(k, reg, key, cur);
    var k1, reg1 := OnUpdate(k, key, cur), StillWatched(reg, key, cur);
    if key.kind == Ingress {
      UnlistedLacks(k1.groups, reg1, KeyFor(key, cur), key, cur.hosts.value);
    } else {
      ListedLacks(k1.groups, reg1, key, cur.hosts.value);
    }
  }

  lemma UnlistedLacks(groups: Groups, reg: Registry, gk: GroupKey, key: ResourceKey, hosts: seq<Host>)
    requires Lists(groups, reg) && key !in reg
    ensures Lacks(groups, gk, key, hosts)
  {
    if gk in groups {
      forall s | s in groups[gk] ensures s.key != key {
        assert In(groups, gk, s);
      }
    }
  }

  lemma ListedLacks(groups: Groups, reg: Registry, key: ResourceKey, hosts: seq<Host>)
    requires Lists(groups, reg) && key in reg
    ensures Lacks(groups, reg[key].gk, key, hosts) <==> exists h :: h in hosts && h !in reg[key].hosts
  {
    var gk := reg[key].gk;
    var spec := NewSpec(gk, key, reg[key].hosts);
    assert In(groups, gk, spec);
    forall s | s in groups[gk] && s.key == key ensures s.hosts == reg[key].hosts {
      assert In(groups, gk, s);
    }
  }

  /** The sync sends, and so makes up for a quiet update, exactly when the resource is complete and has come into
      another group or has a host the update has left unlisted. */
  ghost predicate Heard(k: Client, e: Event)
    requires Enabled(k, e) && Quiet(k, e)
  {
    Complete(e.res) && (
      || e.key.kind == Ingress
      || exists h :: h in e.res.hosts.value && h !in Pruned(HostsAt(k.groups, e.key), HostsNow(e.res)))
  }

  /** For a ConfigMap, which has one host name: exactly when it still has one. */
  lemma OneHostHeard(k: Client, e: Event)
    requires Enabled(k, e) && Quiet(k, e) && |HostsAt(k.groups, e.key)| == 1
    requires e.res.net.Some? && (e.res.hosts.Some? ==> |e.res.hosts.value| == 1)
    ensures Heard(k, e) <==> e.res.hosts.Some?
  {
    hide Held, Holder, HostsAt, Pruned;
    if e.key.kind != Ingress && e.res.hosts.Some? {
      var l, h := HostsAt(k.groups, e.key), e.res.hosts.value[0];
      PrunedEmptyIff(l, e.res.hosts.value);
      assert h in e.res.hosts.value && h !in Pruned(l, e.res.hosts.value);
    }
  }

  lemma QuietSyncIff(k: Client, reg: Registry, e: Event)
    requires Inv(k, reg) && Enabled(k, e) && Regular(k, e) && Quiet(k, e) && !Stale(k)
    ensures var k1, sync := Next(k, e), Sync(e.key);
      && Enabled(k1, sync) && Asks(k1, e)
      && (Next(k1, sync).sent != k1.sent <==> Heard(k, e))
      && (Stale(Next(k1, sync)) <==> !Heard(k, e))
  {
    hide Lists, Served, Current, Pruned, Lacks, Marks, Held, Holder, HostsAt, Next;
    var k1, sync := Next(k, e), Sync(e.key);
    StepStaleIff(k, e);
    SendsIff(k, e);
    QuietStep(k, e);
    if Complete(e.res) { QuietLacks(k, reg, e); }
    SendsIff(k1, sync);
    if !Sends(k1, sync) { SilentSync(k1, e.key); }
  }

  lemma QuietStep(k: Client, e: Event)
    requires Enabled(k, e) && Quiet(k, e)
    ensures var k1 := Next(k, e);
      e.key in k1.queue && e.key in k1.cache && k1.cache[e.key] == e.res && k1.initialState && !k1.updated
  {
    hide Held, Holder, HostsAt, Pruned, SetHosts, Cut;
    StillWatchedShape(k.(cache := k.cache[e.key := e.res]), e.key, e.res);
    SendsIff(k, e);
    SilentMarks(k, e);
  }

  lemma SilentMarks(k: Client, e: Event)
    requires Enabled(k, e) && Quiet(k, e)
    ensures !Marks(k, e) && !Sends(k, e)
  {
    hide Held, Holder, HostsAt;
  }

  lemma SilentSync(k: Client, key: ResourceKey)
    requires key in k.queue && k.initialState && !k.updated && !Sends(k, Sync(key))
    ensures Next(k, Sync(key)).groups == k.groups && !Marks(k, Sync(key))
  {
    hide AddSpec, Lacks;
    if key in k.cache && Complete(k.cache[key]) {
      AddChangesIff(k.groups, KeyFor(key, k.cache[key]), key, k.cache[key].hosts.value);
    }
  }

  // ---------- handlers with their syncs ----------

  /** A started client knows of no change it has not sent. */
  ghost predicate Settled(k: Client) {
    k.initialState ==> !k.updated && k.sent != [] && k.sent[|k.sent| - 1] == k.groups
  }

  /** The step is no quiet update whose sync does not make up for it. */
  ghost predicate Loud(k: Client, e: Event)
    requires Enabled(k, e)
  {
    Quiet(k, e) ==> Heard(k, e)
  }

  /** A handler and its sync leave a settled client settled exactly when the step is loud. */
  lemma AtomicSettledIff(k: Client, reg: Registry, e: Event)
    requires Inv(k, reg) && k.queue == {} && Enabled(k, e) && !e.Sync? && KeepsNet(k, e) && Settled(k)
    ensures Settled(Atomic(k, e)) <==> Loud(k, e)
  {
    hide Lists, Served, Current, Next, Quiet, Heard, Sends, Marks, Held, Enabled, SyncFinds;
    AsksWatched(k, e);
    var k1 := Next(k, e);
    StepStaleIff(k, e);
    if Quiet(k, e) {
      QuietSyncIff(k, reg, e);
      QuietStep(k, e);
      LoudSync(k1, e.key);
    } else if Asks(k1, e) {
      AskedUpdate(k, reg, e);
      SyncIsLoud(k1, e.key);
      StepStaleIff(k1, Sync(e.key));
      LoudSync(k1, e.key);
    } else {
      UnaskedStep(k, e);
    }
  }

  lemma SyncIsLoud(k: Client, key: ResourceKey)
    requires key in k.queue
    ensures Enabled(k, Sync(key)) && !Quiet(k, Sync(key)) && OnSync(k, key) == Next(k, Sync(key))
  {
    hide OnSync;
  }

  /** A sync that does not return early leaves no mark on a started client. */
  lemma LoudSync(k: Client, key: ResourceKey)
    requires key in k.queue && (k.initialState && k.updated ==> SyncFinds(k, key))
    ensures Next(k, Sync(key)).initialState ==> !Next(k, Sync(key)).updated
    ensures OnSync(k, key) == Next(k, Sync(key))
  {
    hide Lacks, OnSync;
    SendsIff(k, Sync(key));
  }

  /** Of the handlers only a loss of hosts marks a started client, and that of a resource with a network. */
  lemma AskedUpdate(k: Client, reg: Registry, e: Event)
    requires Inv(k, reg) && Enabled(k, e) && !e.Sync? && KeepsNet(k, e) && Settled(k) && Asks(Next(k, e), e)
    ensures var k1 := Next(k, e); k1.initialState && k1.updated ==> SyncFinds(k1, e.key)
  {
    hide Lists, Served, Held, Holder, HostsAt, Cut, Pruned, SetHosts, Lacks;
    SendsIff(k, e);
    if e.Updated? {
      HeldListed(k.groups, reg, e.key);
      StillWatchedShape(k.(cache := k.cache[e.key := e.res]), e.key, e.res);
    }
  }

  lemma UnaskedStep(k: Client, e: Event)
    requires k.queue == {} && Enabled(k, e) && !e.Sync? && Settled(k) && !Asks(Next(k, e), e) && !Stale(Next(k, e))
    ensures Settled(Next(k, e))
  {
    hide Held, Holder, HostsAt, Cut, Pruned, SetHosts;
    SendsIff(k, e);
    if e.Updated? { StillWatchedShape(k.(cache := k.cache[e.key := e.res]), e.key, e.res); }
  }

  /** No step of a run is a quiet update whose sync does not make up for it. */
  ghost predicate AllLoud(k: Client, events: seq<Event>) {
    events != [] ==>
      var mid, e := AtomicRun(k, events[..|events| - 1]), events[|events| - 1];
      AllLoud(k, events[..|events| - 1]) && (Enabled(mid, e) ==> Loud(mid, e))
  }

  /** Over every run of handlers with their syncs from the start in which networks never change: the controller has
      been sent the groups as they are, from the first snapshot on and after every step, unless a step was quiet
      and its sync did not make up for it. */
  lemma {:induction false} AtomicRunSettled(events: seq<Event>)
    requires KeepsNets(INITIAL, events) && AllLoud(INITIAL, events)
    ensures Settled(AtomicRun(INITIAL, events))
  {
    hide Inv, Enabled, Atomic, KeepsNet, Settled, Loud;
    if events == [] {
      StartSettled();
    } else {
      var init, e := events[..|events| - 1], events[|events| - 1];
      AtomicRunSettled(init);
      var reg := AtomicRunInv(init);
      var mid := AtomicRun(INITIAL, init);
      if Enabled(mid, e) && !e.Sync? {
        AtomicSettledIff(mid, reg, e);
      }
    }
  }

  lemma StartSettled()
    ensures Settled(INITIAL)
  {
  }

  /** A run that ends with the controller ignorant: a ConfigMap loses its host name annotation.  Its host is taken
      from the groups without a mark, and the sync returns early. */
  lemma ForgottenConfigMap(key: ResourceKey, net: Net, a: Host)
    requires key.kind == ConfigMap
    ensures var res := Resource(true, "", Some(net), Some([a]));
      var events := [Added(key, res), Updated(key, res.(hosts := None))];
      var k, k' := AtomicRun(INITIAL, events[..1]), AtomicRun(INITIAL, events);
      && KeepsNets(INITIAL, events) && Settled(k) && !Settled(k') && Stale(k')
      && |k.sent| == 1 && k'.sent == k.sent && HaveHosts(k.groups) && !HaveHosts(k'.groups)
  {
    hide Inv, OnUpdate, OnAdd, OnSync;
    var res, cur := Resource(true, "", Some(net), Some([a])), Resource(true, "", Some(net), None);
    var e1, e2 := Added(key, res), Updated(key, cur);
    assert [e1, e2][..1] == [e1] && [e1][..0] == [];
    assert AtomicRun(INITIAL, []) == INITIAL;
    FirstListed(key, res, [a]);
    var k := OnSync(OnAdd(INITIAL, key, res), key);
    FirstAdded(key, res);
    assert AtomicRun(INITIAL, [e1]) == k;
    assert KeepsNets(INITIAL, []) && KeepsNets(INITIAL, [e1]) && KeepsNet(k, e2);
    var gk := GroupKey("", net.netview, net.cidr);
    ForgottenUpdate(k, map[key := Entry(gk, [a])], key, cur, a);
    assert AtomicRun(INITIAL, [e1, e2]) == OnSync(OnUpdate(k, key, cur), key);
    HaveHostsIff(k.groups, map[key := Entry(gk, [a])]) by { InvLists(k, map[key := Entry(gk, [a])]); }
  }

  lemma InvLists(k: Client, reg: Registry)
    requires Inv(k, reg)
    ensures Lists(k.groups, reg)
  {
  }

  lemma FirstAdded(key: ResourceKey, res: Resource)
    requires key.kind != NoKind && res.watched
    ensures Next(INITIAL, Added(key, res)) == OnAdd(INITIAL, key, res)
    ensures Asks(OnAdd(INITIAL, key, res), Added(key, res))
  {
  }

  lemma ForgottenUpdate(k: Client, reg: Registry, key: ResourceKey, cur: Resource, a: Host)
    requires key.kind == ConfigMap && Inv(k, reg) && key in reg && reg == map[key := Entry(reg[key].gk, [a])]
    requires k.initialState && !k.updated && !Stale(k) && k.queue == {} && key in k.cache
    requires cur.watched && cur.net == k.cache[key].net && cur.hosts == None
    ensures var k1 := OnUpdate(k, key, cur);
      var k2 := OnSync(k1, key);
      && key in k1.queue && k1 == Next(k, Updated(key, cur))
      && Stale(k2) && k2.initialState && k2.sent == k.sent && !HaveHosts(k2.groups)
  {
    hide Lists, Served, SetHosts, Pruned, OnUpdate, OnSync, Stale, HaveHosts;
    var e := Updated(key, cur);
    HeldListed(k.groups, reg, key);
    ListedAt(k.groups, reg, key);
    assert HostsAt(k.groups, key) == [a];
    assert a in HostsAt(k.groups, key);
    assert Quiet(k, e);
    QuietStep(k, e);
    SendsIff(k, e);
    QuietSyncIff(k, reg, e);
    UpdateStillWatched(k, reg, key, cur);
    PrunedEmptyIff([a], []);
    var k1, reg1 := OnUpdate(k, key, cur), StillWatched(reg, key, cur);
    assert reg1 == reg[key := Entry(reg[key].gk, [])];
    HaveHostsIff(k1.groups, reg1);
    SendsIff(k1, Sync(key));
    SilentSync(k1, key);
    SyncIsLoud(k1, key);
  }
}
