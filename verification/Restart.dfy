/** Startup: the first pass on a store loaded from the IPAM system. */
module Restart {
  import opened Types
  import opened StoreSpec
  import opened Reconcile
  import opened Addition
  import opened Removal
  import opened Pass
  import opened Rebuild
  import opened GroupUnits
  import opened GroupSpec
  import opened EventSpec
  import opened RecordTable
  import opened Lossy
  import opened Service

  /** Every host of a listed resource is a host of the groups. */
  lemma ListedHosts(snapshot: Groups, key: ResourceKey, res: Resource, h: Host)
    requires Complete(res) && ListedIn(snapshot, key, res) && h in res.hosts.value
    ensures h in GroupHosts(snapshot)
  {
    var s :| In(snapshot, KeyFor(key, res), s) && s.key == key && forall h :: h in res.hosts.value ==> h in s.hosts;
    var i :| 0 <= i < |snapshot[KeyFor(key, res)]| && snapshot[KeyFor(key, res)][i] == s;
    assert h in snapshot[KeyFor(key, res)][i].hosts;
  }

  /** The step that sends the first snapshot, and the pass made on it by a client without references from
      a store loaded from a healthy IPAM system, in any of its orders: no host of a watched, complete
      resource loses its record or changes its address, and it keeps its service exactly when the A host of
      its address is in the groups too. */
  lemma FirstPassKeepsHosts(k: Client, reg: Registry, e: EventSpec.Event, homes: Homes, zone: ZoneOf, s: Sys,
      clean: bool, turns: seq<Turn>, visits: seq<Visit>, m': Memory, key: ResourceKey, h: Host, ip: Addr)
    requires Inv(k, reg) && Enabled(k, e) && Regular(k, e) && k.sent == [] && Next(k, e).sent != []
    requires Healthy(s.dns, s.reserved, homes, zone) && Loaded(s.st, s.dns, homes, zone, s.dns.Keys)
    requires "" !in homes && "" !in s.dns && "" !in GroupHosts(Next(k, e).sent[0])
    requires GroupNets(homes, LoadedPlan(s.dns, s.reserved, homes, zone).where, Next(k, e).sent[0])
    requires Schedule(Next(k, e).sent[0], turns)
    requires AllAvailable(homes, s, turns) && LooseRange(AddPhase(homes, s, turns).st, visits)
    requires LossyPass(homes, Memory(s, s.dns.Keys, clean), turns, visits, m')
    requires key in Next(k, e).cache && Next(k, e).cache[key].watched && Complete(Next(k, e).cache[key])
    requires h in Next(k, e).cache[key].hosts.value && At(s.st, ip, h)
    ensures At(m'.s.st, ip, h) && h in m'.s.dns
    ensures ip in m'.s.reserved && Resolves(m'.s.dns, h, ip) <==>
      forall o :: AHost(s.st, ip, o) ==> o in GroupHosts(Next(k, e).sent[0])
  {
    hide Inv, Enabled, Regular, Next, Healthy, Loaded, GroupNets, Schedule, AllAvailable, LooseRange, AddPhase,
      LossyPass, GroupHosts, HostsOf, Settled, NetsAgree, ListedIn, LoadedPlan, IsUnit, Steady, Resolves, Uniform;
    var snapshot, p, m := Next(k, e).sent[0], LoadedPlan(s.dns, s.reserved, homes, zone), Memory(s, s.dns.Keys, clean);
    FirstSnapshotComplete(k, reg, e);
    ListedHosts(snapshot, key, Next(k, e).cache[key], h);
    ScheduleHosts(snapshot, turns);
    ScheduleUnits(snapshot, turns);
    ScheduleNets(homes, p.where, snapshot, turns);
    LoadedIsCoherent(s, homes, zone);
    StoredHaveRecords(s, homes, p);
    AllLostUniform(s.st, s.dns);
    UniformSteady(s.st, s.dns.Keys, HostsOf(turns), ip);
    PassServesIff(homes, m, p, turns, visits, m', ip, h);
  }

  lemma StoredHaveRecords(s: Sys, homes: Homes, p: Plan)
    requires Settled(s, homes, p, true)
    ensures p.where.Keys == s.dns.Keys && forall ip, h :: At(s.st, ip, h) ==> h in s.dns
  {
  }
}
