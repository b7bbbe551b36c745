/** The network a host's address is from: the one its group's key names, or its spec in the unnamed group. */
module Networks {
  import opened Types
  import opened StoreSpec
  import opened Reconcile
  import opened Addition
  import opened Attachment
  import opened Removal
  import opened Pass
  import opened GroupUnits
  import opened Lossy
  import opened OneAddress
  import opened Service

  /** Each stored host of the groups is at an address of the network its group is for. */
  ghost predicate StoredInNets(homes: Homes, st: StoreVal, groups: Groups) {
    forall k, i, h, ip :: k in groups && 0 <= i < |groups[k]| && h in groups[k][i].hosts && At(st, ip, h) ==>
      ip in homes && homes[ip] ==
        if k.name != "" then Net(k.netview, k.cidr) else Net(groups[k][i].netview, groups[k][i].cidr)
  }

  lemma OwnNetsStored(homes: Homes, where: map<Host, Addr>, st: StoreVal, groups: Groups)
    requires OwnNets(homes, where, groups)
    requires forall ip, h :: At(st, ip, h) && h in GroupHosts(groups) ==> h in where && where[h] == ip
    ensures StoredInNets(homes, st, groups)
  {
    forall k, i, h, ip | k in groups && 0 <= i < |groups[k]| && h in groups[k][i].hosts && At(st, ip, h)
      ensures ip in homes && homes[ip] ==
        if k.name != "" then Net(k.netview, k.cidr) else Net(groups[k][i].netview, groups[k][i].cidr)
    {
      assert h in GroupHosts(groups);
      assert h in where && where[h] == ip;
    }
  }

  /** The addition phase files every host of the groups in the network its group is for. */
  lemma PhaseOwnNets(homes: Homes, s: Sys, p: Plan, groups: Groups, turns: seq<Turn>)
    requires Settled(s, homes, p, false) && "" !in homes && GroupNets(homes, p.where, groups)
    requires Schedule(groups, turns) && AllAvailable(homes, s, turns)
    ensures OwnNets(homes, PlanPhase(p, turns).where, groups)
  {
    hide Settled, GroupNets, OwnNets, Schedule, AllAvailable, IsUnit, SameNet, PlanPhase, Extends;
    var p1 := PlanPhase(p, turns);
    ScheduleUnits(groups, turns);
    ScheduleNets(homes, p.where, groups, turns);
    AddPhaseSettles(homes, s, p, turns, turns);
    NetsStillAgree(homes, p, p1, turns, turns);
    forall u | IsUnit(groups, u) ensures SameNet(homes, p1.where, u) {
      var t :| t in turns && t.unit == u;
    }
    UnitsOwnNets(homes, p1.where, groups);
  }

  /** A pass, with any references, any free addresses and in any order, leaves every host of the groups at an
      address of the network its group is for. */
  lemma PassInNets(homes: Homes, m: Memory, p: Plan, groups: Groups, turns: seq<Turn>, visits: seq<Visit>, m': Memory)
    requires Settled(m.s, homes, p, false) && "" !in homes && "" !in p.where && "" !in GroupHosts(groups)
    requires GroupNets(homes, p.where, groups) && Schedule(groups, turns)
    requires AllAvailable(homes, m.s, turns) && LooseRange(AddPhase(homes, m.s, turns).st, visits)
    requires LossyPass(homes, m, turns, visits, m')
    ensures StoredInNets(homes, m'.s.st, groups)
  {
    hide Settled, GroupNets, OwnNets, Schedule, AllAvailable, LooseRange, GroupHosts, HostsOf, IsUnit, NetsAgree,
      AddPhase, PlanPhase, LossySweepStore, Deletes, Extends, Between, SameFrame, StoredInNets;
    var s1, p1 := AddPhase(homes, m.s, turns), PlanPhase(p, turns);
    ScheduleUnits(groups, turns);
    ScheduleHosts(groups, turns);
    ScheduleNets(homes, p.where, groups, turns);
    AddPhaseSettles(homes, m.s, p, turns, turns);
    NamesExtend(homes, p, p1, turns);
    PhaseOwnNets(homes, m.s, p, groups, turns);
    var m1 := m.(s := s1);
    var w := LossySweepStore(homes, m1, HostsOf(turns), visits);
    LoosePrefixes(s1.st, visits);
    MeetStore(homes, s1, p1, m1, HostsOf(turns), visits);
    BetweenFrame(s1, p1.where, m1, w.m, s1.st.records.Keys - Addresses(visits));
    forall ip, h | At(m'.s.st, ip, h) && h in GroupHosts(groups) ensures h in p1.where && p1.where[h] == ip {
      DeletesShrinks(w.m.s.st, w.gone, m'.s.st, ip, h);
      FrameAt(s1, homes, p1, w.m.s.st, ip, h);
    }
    OwnNetsStored(homes, p1.where, m'.s.st, groups);
  }

  lemma BetweenFrame(s1: Sys, where: map<Host, Addr>, m1: Memory, m: Memory, rest: set<Addr>)
    requires Between(s1, where, m1, m, rest)
    ensures SameFrame(s1.st, m.s.st)
  {
  }

  lemma FrameAt(s1: Sys, homes: Homes, p1: Plan, st: StoreVal, ip: Addr, h: Host)
    requires Settled(s1, homes, p1, false) && SameFrame(s1.st, st) && At(st, ip, h) && h != ""
    ensures h in p1.where && p1.where[h] == ip
  {
    hide Follows;
  }
}
