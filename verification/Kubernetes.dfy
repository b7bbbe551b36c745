/** The Kubernetes client: informer handlers, the resource queue and the writes to the controller. */
module Kubernetes {
  import opened Types
  import opened GroupSpec
  import opened HostSlice
  import opened EventSpec
  import opened Orchestration

  class K8sClient {
    const ipGroup: IPGroup
    var cache: map<ResourceKey, Resource>
    var rsQueue: set<ResourceKey>
    var nsPending: nat
    var updated: bool
    var initialState: bool
    /** Everything written to the controller's channel. */
    var sent: seq<Groups>

    ghost function Val(): Client
      reads this, ipGroup
    {
      Client(ipGroup.Groups, cache, rsQueue, nsPending, updated, initialState, sent)
    }

    constructor ()
      ensures Val() == INITIAL && fresh(ipGroup)
    {
      ipGroup := new IPGroup();
      cache, rsQueue, nsPending, updated, initialState, sent := map[], {}, 0, false, false, [];
    }

    method WriteIPGroups()
      modifies this
      ensures Val() == Write(old(Val()))
    {
      if (rsQueue == {} && nsPending == 0) || initialState {
        sent := sent + [ipGroup.Groups];
        initialState := true;
        updated := false;
      }
    }

    /** addIngress and addConfigMap. */
    method AddResource(key: ResourceKey, res: Resource)
      modifies this
      ensures Val() == OnAdd(old(Val()), key, res)
    {
      cache := cache[key := res];
      if res.watched {
        rsQueue := rsQueue + {key};
      }
    }

    /** The loop over the spec's hosts, on the array behind them, and the write-back. */
    method PruneSpec(key: ResourceKey, spec: Spec, keep: seq<Host>, ghost reg: Registry) returns (dropped: bool)
      requires Lists(ipGroup.Groups, reg) && key in reg && spec.hosts == reg[key].hosts
      modifies ipGroup
      ensures Holds(old(ipGroup.Groups), reg[key].gk, key)
      ensures ipGroup.Groups ==
        SetHosts(old(ipGroup.Groups), reg[key].gk, FirstKey(old(ipGroup.Groups)[reg[key].gk], key),
          Pruned(spec.hosts, keep))
      ensures dropped <==> Pruned(spec.hosts, keep) != spec.hosts
    {
      hide Lists, Prune, Shift, SetHosts, FirstKey, OnlySpec, SpecHosts;
      ghost var groups, gk := ipGroup.Groups, reg[key].gk;
      ListedOnly(groups, reg, key);
      HoldsOne(groups, gk, key);
      SetSame(groups, gk, key);
      var hosts := new Host[|spec.hosts|](i requires 0 <= i < |spec.hosts| => spec.hosts[i]);
      assert hosts[..] == spec.hosts;
      var len := hosts.Length;
      assert hosts[..len] == spec.hosts;
      dropped := false;
      for i := 0 to hosts.Length
        invariant len <= hosts.Length && OnlySpec(ipGroup.Groups, gk, key)
        invariant Holds(ipGroup.Groups, gk, key) && SpecHosts(ipGroup.Groups, gk, key) == hosts[..len]
        invariant ipGroup.Groups == SetHosts(groups, gk, FirstKey(groups[gk], key), hosts[..len])
        invariant Prune(Slice(hosts[..], len), i, keep) == Prune(Slice(spec.hosts, |spec.hosts|), 0, keep)
        invariant if dropped then len < hosts.Length else len == hosts.Length && hosts[..] == spec.hosts
      {
        PruneStep(Slice(hosts[..], len), i, keep);
        if hosts[i] !in keep {
          ghost var left := hosts[..len];
          SetKeeps(groups, gk, key, left);
          len := ipGroup.RemoveHost(hosts[i], key, hosts, len, gk);
          HoldsOne(ipGroup.Groups, gk, key);
          SetTwice(groups, gk, key, left, hosts[..len]);
          dropped := true;
        }
      }
      PruneEnd(Slice(hosts[..], len), keep);
      assert hosts[..len] == hosts[..][..len];
    }

    /** Lines 374-386 of kubernetes.go: the hosts that are gone leave the spec, and an Ingress that changed its
        group leaves its old one. */
    method FollowIngress(key: ResourceKey, cur: Resource, spec: Spec, grp: string, ghost gk: GroupKey,
        ghost reg: Registry)
      requires key.kind == Ingress && Lists(ipGroup.Groups, reg) && Holds(ipGroup.Groups, gk, key)
      requires gk.name == grp && spec == ipGroup.Groups[gk][FirstKey(ipGroup.Groups[gk], key)]
      modifies this`updated, ipGroup
      ensures Val() == OnStillWatched(old(Val()), key, cur)
    {
      hide Lists, Pruned, SetHosts, CutSpec, Holder, HostsNow, WellGrouped;
      UniqueHolder(ipGroup.Groups, reg, key, gk);
      var dropped := PruneSpec(key, spec, HostsNow(cur), reg);
      SetListed(old(ipGroup.Groups), reg, key, Pruned(spec.hosts, HostsNow(cur)));
      updated := updated || dropped;
      if cur.group != grp {
        RemoveListed(key, reg[key := Entry(gk, Pruned(spec.hosts, HostsNow(cur)))]);
      }
    }

    method UpdateIngress(key: ResourceKey, cur: Resource, ghost reg: Registry)
      requires key.kind == Ingress && key in cache && Lists(ipGroup.Groups, reg)
      modifies this, ipGroup
      ensures Val() == OnUpdate(old(Val()), key, cur)
    {
      hide Lists, OnStillWatched, Cut;
      HeldListed(ipGroup.Groups, reg, key);
      var was := cache[key];
      cache := cache[key := cur];
      if was.watched {
        var specFound, spec, grp := ipGroup.GetSpec(key);
        if cur.watched {
          if specFound {
            ghost var gk :| Holds(ipGroup.Groups, gk, key) && gk.name == grp &&
              spec == ipGroup.Groups[gk][FirstKey(ipGroup.Groups[gk], key)];
            FollowIngress(key, cur, spec, grp, gk, reg);
          } else {
            NotHeldStays(Val(), key, cur);
          }
          rsQueue := rsQueue + {key};
        } else if specFound {
          RemoveListed(key, reg);
          WriteIPGroups();
        }
      } else if cur.watched {
        rsQueue := rsQueue + {key};
      }
    }

    method UpdateConfigMap(key: ResourceKey, cur: Resource, ghost reg: Registry)
      requires key.kind == ConfigMap && key in cache && Lists(ipGroup.Groups, reg)
      modifies this, ipGroup
      ensures Val() == OnUpdate(old(Val()), key, cur)
    {
      hide Lists, Pruned, SetHosts, CutSpec, Holder;
      HeldListed(ipGroup.Groups, reg, key);
      var was := cache[key];
      cache := cache[key := cur];
      if was.watched {
        var specFound, spec, _ := ipGroup.GetSpec(key);
        if cur.watched {
          if specFound {
            ghost var gk :| Holds(ipGroup.Groups, gk, key) &&
              spec == ipGroup.Groups[gk][FirstKey(ipGroup.Groups[gk], key)];
            UniqueHolder(ipGroup.Groups, reg, key, gk);
            var _ := PruneSpec(key, spec, HostsNow(cur), reg);
          }
          rsQueue := rsQueue + {key};
        } else if specFound {
          RemoveListed(key, reg);
          WriteIPGroups();
        }
      } else if cur.watched {
        rsQueue := rsQueue + {key};
      }
    }

    /** deleteIngress and deleteConfigMap. */
    method DeleteResource(key: ResourceKey, ghost reg: Registry)
      requires key.kind != NoKind && key in cache && Lists(ipGroup.Groups, reg)
      modifies this, ipGroup
      ensures Val() == OnDelete(old(Val()), key)
    {
      hide Lists, CutSpec, Holder;
      var obj := cache[key];
      cache := cache - {key};
      if obj.watched {
        var found, spec, _ := ipGroup.GetSpec(key);
        if found {
          RemoveListed(key, reg);
          WriteIPGroups();
        }
      }
    }

    method RemoveListed(key: ResourceKey, ghost reg: Registry)
      requires key.kind != NoKind && Lists(ipGroup.Groups, reg)
      modifies ipGroup
      ensures ipGroup.Groups == Cut(old(ipGroup.Groups), key)
    {
      hide Lists, CutSpec, Holder;
      ghost var groups := ipGroup.Groups;
      ListsValid(groups, reg);
      ipGroup.RemoveFromIPGroup(key);
      if Held(groups, key) {
        ghost var gk :| Holds(groups, gk, key) && ipGroup.Groups == CutSpec(groups, gk, FirstKey(groups[gk], key));
        UniqueHolder(groups, reg, key, gk);
      }
    }

    /** Takes any key from the queue and syncs it. */
    method ProcessNextResource() returns (ghost key: ResourceKey)
      requires rsQueue != {} && ipGroup.Valid() && forall k :: k in cache ==> k.kind != NoKind
      modifies this, ipGroup
      ensures key in old(rsQueue) && Val() == OnSync(old(Val()), key)
    {
      hide OnSync, WellGrouped;
      var rKey :| rKey in rsQueue;
      key := rKey;
      SyncDequeued(Val(), rKey);
      rsQueue := rsQueue - {rKey};
      SyncResource(rKey);
    }

    /** Lines 603-728 of kubernetes.go, for the resource as the informers' cache has it now. */
    method SyncResource(rKey: ResourceKey)
      requires rKey !in rsQueue && ipGroup.Valid() && (rKey in cache ==> rKey.kind != NoKind)
      modifies this, ipGroup
      ensures Val() == OnSync(old(Val()), rKey)
    {
      hide AddSpec, WellGrouped;
      assert rsQueue - {rKey} == rsQueue;
      if rKey in cache {
        var obj := cache[rKey];
        if obj.net.None? {
          return;
        }
        var netview, cidr := obj.net.value.netview, obj.net.value.cidr;
        if rKey.kind == ConfigMap {
          if obj.hosts.None? {
            return;
          }
          var ret := ipGroup.AddToIPGroup(GroupKey("", netview, cidr), rKey, obj.hosts.value);
          updated := updated || ret;
        } else if obj.hosts.Some? {
          var ret := ipGroup.AddToIPGroup(GroupKey(obj.group, netview, cidr), rKey, obj.hosts.value);
          updated := updated || ret;
        }
      }
      if updated {
        WriteIPGroups();
      }
    }

    /** The delayed check of lines 574-583 of kubernetes.go. */
    method CheckQueues()
      modifies this
      ensures Val() == OnTimer(old(Val()))
    {
      if rsQueue == {} && nsPending == 0 {
        WriteIPGroups();
      }
    }
  }

  lemma NotHeldStays(k: Client, key: ResourceKey, cur: Resource)
    requires !Held(k.groups, key)
    ensures OnStillWatched(k, key, cur) == k
  {
  }

  lemma SyncDequeued(k: Client, key: ResourceKey)
    ensures OnSync(k.(queue := k.queue - {key}), key) == OnSync(k, key)
  {
    hide AddSpec;
    assert k.queue - {key} - {key} == k.queue - {key};
  }

  lemma ListsValid(groups: Groups, reg: Registry)
    requires Lists(groups, reg)
    ensures WellGrouped(groups)
  {
  }
}
