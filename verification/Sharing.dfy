/**
 Which hosts end up on one address.  The statements mention the groups and the final store only, so
 they hold in whatever order the groups are walked.
 */
module Sharing {
  import opened Types
  import opened StoreSpec
  import opened Reconcile
  import opened Addition
  import opened Attachment
  import opened Removal
  import opened Pass

  /** Some turn's unit holds both hosts. */
  ghost predicate InOneUnit(turns: seq<Turn>, h: Host, k: Host) {
    exists t :: t in turns && h in t.unit.hosts && k in t.unit.hosts
  }

  /** Among the hosts of the turns that have an address: same address exactly when same unit. */
  ghost predicate Grouped(where: map<Host, Addr>, turns: seq<Turn>) {
    forall h, k :: h in where && k in where && h in HostsOf(turns) && k in HostsOf(turns) ==>
      (where[h] == where[k] <==> InOneUnit(turns, h, k))
  }

  /** The first host of the unit is stored, or no host of the unit is. */
  ghost predicate FirstOrNone(where: map<Host, Addr>, u: Unit) {
    (u.hosts != [] && u.hosts[0] in where) || forall h :: h in u.hosts ==> h !in where
  }

  /** Hosts of the unit all at one address. */
  ghost predicate Together(where: map<Host, Addr>, u: Unit) {
    forall h, k :: h in u.hosts && k in u.hosts && h in where && k in where ==> where[h] == where[k]
  }

  /** In a unit whose stored hosts are together, everything goes to the first host's address, if the
      first host is stored or none is. */
  lemma {:induction false} PlanHostsTogether(p: Plan, u: Unit, next: Addr, n: nat)
    requires PlanOK(p) && next !in p.owner && n <= |u.hosts|
    requires Together(p.where, u) && FirstOrNone(p.where, u)
    ensures var w := PlanHosts(p, u, next, n);
      forall h :: h in Prefix(u.hosts, n) ==> h in w.p.where && w.p.where[h] == HomeOf(p, u, next)
  {
    hide Prefix, PlanOK;
    PrefixStep(u.hosts, n);
    if n > 0 {
      PrefixStep(u.hosts, n - 1);
      PlanHostsTogether(p, u, next, n - 1);
      PlanHostsPlaced(p, u, next, n - 1);
      assert u.hosts[0] in u.hosts && u.hosts[n - 1] in u.hosts;
    }
  }

  function HomeOf(p: Plan, u: Unit, next: Addr): Addr {
    if u.hosts != [] && u.hosts[0] in p.where then p.where[u.hosts[0]] else next
  }

  lemma PlanUnitTogether(p: Plan, u: Unit, next: Addr)
    requires PlanOK(p) && next !in p.owner
    requires Together(p.where, u) && FirstOrNone(p.where, u)
    ensures var p' := PlanUnit(p, u, next);
      forall h :: h in u.hosts ==> h in p'.where && p'.where[h] == HomeOf(p, u, next)
  {
    hide PlanHosts, Prefix;
    PlanHostsTogether(p, u, next, |u.hosts|);
    PrefixStep(u.hosts, |u.hosts|);
    assert forall h :: h in u.hosts ==> h in Elements(u.hosts);
  }

  /** When the first host is not stored but another one is, the unit is split for good. */
  lemma PlanUnitSplit(p: Plan, u: Unit, next: Addr)
    requires PlanOK(p) && next !in p.owner && !FirstOrNone(p.where, u)
    ensures var p' := PlanUnit(p, u, next);
      IsSplit(p'.where, u)
  {
    hide PlanHosts, Prefix;
    PlanHostsPlaced(p, u, next, |u.hosts|);
    PrefixStep(u.hosts, |u.hosts|);
    var k :| k in u.hosts && k in p.where;
    var p' := PlanUnit(p, u, next);
    assert u.hosts[0] in Elements(u.hosts);
    assert Split(p'.where, u, u.hosts[0], k);
  }

  ghost predicate IsSplit(where: map<Host, Addr>, u: Unit) {
    exists h, k :: Split(where, u, h, k)
  }

  /** Two hosts of the unit at different addresses. */
  ghost predicate Split(where: map<Host, Addr>, u: Unit, h: Host, k: Host) {
    h in u.hosts && k in u.hosts && h in where && k in where && where[h] != where[k]
  }

  lemma HostOfTurn(turns: seq<Turn>, t: Turn, h: Host)
    requires t in turns && h in t.unit.hosts
    ensures h in HostsOf(turns)
  {
  }

  lemma GroupedTogether(where: map<Host, Addr>, turns: seq<Turn>, t: Turn)
    requires Grouped(where, turns) && t in turns
    ensures Together(where, t.unit)
  {
    hide HostsOf;
    forall h, k | h in t.unit.hosts && k in t.unit.hosts && h in where && k in where ensures where[h] == where[k] {
      HostOfTurn(turns, t, h);
      HostOfTurn(turns, t, k);
      assert InOneUnit(turns, h, k);
    }
  }

  /** h is in the unit of t, and k is in the same unit exactly when it is in that one. */
  lemma UnitOf(turns: seq<Turn>, t: Turn, h: Host, k: Host)
    requires DisjointUnits(turns) && t in turns && h in t.unit.hosts
    ensures InOneUnit(turns, h, k) <==> k in t.unit.hosts
  {
    if InOneUnit(turns, h, k) {
      var x :| x in turns && h in x.unit.hosts && k in x.unit.hosts;
      assert x.unit.hosts == t.unit.hosts by {
        var i :| 0 <= i < |turns| && turns[i] == t;
        var j :| 0 <= j < |turns| && turns[j] == x;
        assert i == j;
      }
    }
  }

  lemma InOneUnitComm(turns: seq<Turn>, h: Host, k: Host)
    ensures InOneUnit(turns, h, k) <==> InOneUnit(turns, k, h)
  {
  }

  /** One unit keeps the grouping of everything placed so far. */
  lemma GroupedStep(homes: Homes, p: Plan, all: seq<Turn>, t: Turn)
    requires PlanOK(p) && t.next !in p.owner && DisjointUnits(all) && t in all
    requires Extends(homes, p, PlanUnit(p, t.unit, t.next), [t])
    requires Grouped(p.where, all) && FirstOrNone(p.where, t.unit)
    ensures Grouped(PlanUnit(p, t.unit, t.next).where, all)
  {
    hide HostsOf, DisjointUnits, InOneUnit, PlanUnit;
    var u, p' := t.unit, PlanUnit(p, t.unit, t.next);
    GroupedTogether(p.where, all, t);
    PlanUnitTogether(p, u, t.next);
    forall h, k | h in p'.where && k in p'.where && h in HostsOf(all) && k in HostsOf(all)
      ensures p'.where[h] == p'.where[k] <==> InOneUnit(all, h, k)
    {
      GroupedPair(homes, p, p', all, t, h, k);
    }
  }

  lemma GroupedPair(homes: Homes, p: Plan, p': Plan, all: seq<Turn>, t: Turn, h: Host, k: Host)
    requires PlanOK(p) && t.next !in p.owner && DisjointUnits(all) && t in all
    requires Extends(homes, p, p', [t]) && Grouped(p.where, all)
    requires forall h :: h in t.unit.hosts ==> h in p'.where && p'.where[h] == HomeOf(p, t.unit, t.next)
    requires h in p'.where && k in p'.where && h in HostsOf(all) && k in HostsOf(all)
    ensures p'.where[h] == p'.where[k] <==> InOneUnit(all, h, k)
  {
    hide HostsOf, DisjointUnits, InOneUnit;
    HostsOfOne(t);
    if h in t.unit.hosts {
      UnitOf(all, t, h, k);
      if k !in t.unit.hosts { Apart(p, all, t, k); }
    } else if k in t.unit.hosts {
      InOneUnitComm(all, h, k);
      UnitOf(all, t, k, h);
      Apart(p, all, t, h);
    }
  }

  lemma Apart(p: Plan, all: seq<Turn>, t: Turn, k: Host)
    requires PlanOK(p) && t.next !in p.owner && DisjointUnits(all) && t in all
    requires Grouped(p.where, all) && k in p.where && k in HostsOf(all) && k !in t.unit.hosts
    ensures p.where[k] != HomeOf(p, t.unit, t.next)
  {
    hide HostsOf, DisjointUnits, InOneUnit;
    if t.unit.hosts != [] && t.unit.hosts[0] in p.where {
      assert t.unit.hosts[0] in t.unit.hosts;
      HostOfTurn(all, t, t.unit.hosts[0]);
      UnitOf(all, t, t.unit.hosts[0], k);
    }
  }

  lemma FirstOrNoneStable(p: Plan, p': Plan, u: Unit)
    requires AgreeOn(p, p', u)
    ensures FirstOrNone(p'.where, u) <==> FirstOrNone(p.where, u)
  {
    assert u.hosts != [] ==> u.hosts[0] in u.hosts;
  }

  /** The addition phase keeps the grouping when every unit's first host is stored or none is. */
  lemma {:induction false} AddPhaseGrouped(homes: Homes, s: Sys, p: Plan, turns: seq<Turn>, all: seq<Turn>)
    requires Settled(s, homes, p, false) && "" !in homes
    requires AllAvailable(homes, s, turns) && NetsAgree(homes, p.where, all)
    requires DisjointUnits(all) && DisjointUnits(turns) && forall t :: t in turns ==> t in all
    requires Grouped(p.where, all) && forall t :: t in turns ==> FirstOrNone(p.where, t.unit)
    ensures Grouped(PlanPhase(p, turns).where, all)
  {
    hide Settled, Extends, NetsAgree, PlanOK, HostsOf, AddUnit, PlanUnit, DisjointUnits, FirstOrNone, Grouped;
    if turns != [] {
      var init, t := turns[..|turns| - 1], turns[|turns| - 1];
      SnocTurns(turns);
      DisjointPrefix(turns);
      AddPhaseGrouped(homes, s, p, init, all);
      AddPhaseSettles(homes, s, p, init, all);
      var mid := PlanPhase(p, init);
      NetsStillAgree(homes, p, mid, init, all);
      ExtendsAgrees(homes, p, mid, init, t.unit);
      FirstOrNoneStable(p, mid, t.unit);
      TurnSettles(homes, AddPhase(homes, s, init), mid, t, all);
      SettledPlanOK(AddPhase(homes, s, init), homes, mid, false);
      GroupedStep(homes, mid, all, t);
    }
  }

  lemma SplitPersists(homes: Homes, p: Plan, p': Plan, t: Turn, u: Unit)
    requires Extends(homes, p, p', [t]) && IsSplit(p.where, u)
    ensures IsSplit(p'.where, u)
  {
    var h, k :| Split(p.where, u, h, k);
    assert Split(p'.where, u, h, k);
  }

  /** A unit whose first host is missing while another is stored ends up split, whatever its turn. */
  lemma {:induction false} AddPhaseSplits(homes: Homes, s: Sys, p: Plan, turns: seq<Turn>, all: seq<Turn>, bad: Turn)
    requires Settled(s, homes, p, false) && "" !in homes
    requires AllAvailable(homes, s, turns) && NetsAgree(homes, p.where, all)
    requires DisjointUnits(turns) && forall t :: t in turns ==> t in all
    requires bad in turns && !FirstOrNone(p.where, bad.unit)
    ensures IsSplit(PlanPhase(p, turns).where, bad.unit)
  {
    hide Settled, Extends, NetsAgree, PlanOK, HostsOf, AddUnit, PlanUnit, DisjointUnits, FirstOrNone, IsSplit;
    var init, t := turns[..|turns| - 1], turns[|turns| - 1];
    SnocTurns(turns);
    DisjointPrefix(turns);
    AddPhaseSettles(homes, s, p, init, all);
    var mid := PlanPhase(p, init);
    NetsStillAgree(homes, p, mid, init, all);
    TurnSettles(homes, AddPhase(homes, s, init), mid, t, all);
    SettledPlanOK(AddPhase(homes, s, init), homes, mid, false);
    if bad in init {
      AddPhaseSplits(homes, s, p, init, all, bad);
      SplitPersists(homes, mid, PlanUnit(mid, t.unit, t.next), t, bad.unit);
    } else {
      ExtendsAgrees(homes, p, mid, init, t.unit);
      FirstOrNoneStable(p, mid, t.unit);
      PlanUnitSplit(mid, t.unit, t.next);
    }
  }

  /** Grouped, in the terms of the store: GetIP gives two hosts of the groups the same address exactly
      when they are in the same named group or the same unnamed spec. */
  ghost predicate SharedByUnit(st: StoreVal, turns: seq<Turn>) {
    forall h, k :: h in HostsOf(turns) && k in HostsOf(turns) && Stored(st, h) && Stored(st, k) ==>
      (IpOf(st, h) == IpOf(st, k) <==> InOneUnit(turns, h, k))
  }

  ghost predicate FirstOrNoneStored(st: StoreVal, u: Unit) {
    (u.hosts != [] && Stored(st, u.hosts[0])) || forall h :: h in u.hosts ==> !Stored(st, h)
  }

  lemma StoredWhere(st: StoreVal, where: map<Host, Addr>, h: Host)
    requires Filed(st, where)
    ensures Stored(st, h) <==> h in where
    ensures h in where ==> IpOf(st, h) == where[h]
  {
    if h in where { assert At(st, where[h], h); }
  }

  lemma SharedMeansGrouped(st: StoreVal, where: map<Host, Addr>, turns: seq<Turn>)
    requires Filed(st, where)
    ensures SharedByUnit(st, turns) <==> Grouped(where, turns)
  {
    hide Filed, HostsOf, InOneUnit, Stored;
    forall h ensures (Stored(st, h) <==> h in where) && (h in where ==> IpOf(st, h) == where[h]) {
      StoredWhere(st, where, h);
    }
  }

  lemma FirstStored(st: StoreVal, where: map<Host, Addr>, u: Unit)
    requires Filed(st, where)
    ensures FirstOrNoneStored(st, u) <==> FirstOrNone(where, u)
  {
    hide Filed, Stored;
    forall h ensures Stored(st, h) <==> h in where {
      StoredWhere(st, where, h);
    }
  }

  lemma GroupedWanted(where: map<Host, Addr>, where': map<Host, Addr>, turns: seq<Turn>)
    requires where' == where - (where.Keys - HostsOf(turns))
    ensures Grouped(where', turns) <==> Grouped(where, turns)
  {
    hide HostsOf, InOneUnit;
    assert forall h :: h in where && h in HostsOf(turns) ==> h in where' && where'[h] == where[h];
  }

  /** Sharing after a pass, for all groups with disjoint hosts, all addresses and all orders: from a
      store that shares addresses by unit, the final store does too if and only if each unit's first
      host was stored or none of its hosts was. */
  lemma PassSharesIff(homes: Homes, s: Sys, p: Plan, turns: seq<Turn>, visits: seq<Visit>)
    requires Settled(s, homes, p, false) && "" !in homes
    requires Possible(homes, s, turns, visits) && NetsAgree(homes, p.where, turns) && DisjointUnits(turns)
    requires SharedByUnit(s.st, turns)
    ensures SharedByUnit(RunPass(homes, s, turns, visits).st, turns) <==>
      forall t :: t in turns ==> FirstOrNoneStored(s.st, t.unit)
  {
    hide AddPhase, PlanPhase, RunPass, HostsOf, Follows, AllAvailable, RangeOrder, NetsAgree, DisjointUnits,
      FirstOrNone, FirstOrNoneStored, SharedByUnit, Grouped, Filed, InOneUnit;
    var s', p1 := RunPass(homes, s, turns, visits), PlanPhase(p, turns);
    AddPhaseSettles(homes, s, p, turns, turns);
    PassSettles(homes, s, p, turns, visits, false);
    var p' :| Settled(s', homes, p', false) && p'.where == p1.where - (p1.where.Keys - HostsOf(turns));
    SharedMeansGrouped(s.st, p.where, turns);
    SharedMeansGrouped(s'.st, p'.where, turns);
    GroupedWanted(p1.where, p'.where, turns);
    forall t | t in turns ensures FirstOrNoneStored(s.st, t.unit) <==> FirstOrNone(p.where, t.unit) {
      FirstStored(s.st, p.where, t.unit);
    }
    if forall t :: t in turns ==> FirstOrNone(p.where, t.unit) {
      AddPhaseGrouped(homes, s, p, turns, turns);
    } else {
      var bad :| bad in turns && !FirstOrNone(p.where, bad.unit);
      AddPhaseSplits(homes, s, p, turns, turns, bad);
      SplitNotGrouped(p1.where, turns, bad);
    }
  }

  lemma SplitNotGrouped(where: map<Host, Addr>, turns: seq<Turn>, t: Turn)
    requires t in turns && IsSplit(where, t.unit)
    ensures !Grouped(where, turns)
  {
    if Grouped(where, turns) {
      GroupedTogether(where, turns, t);
    }
  }

  // ---------- each unit on one address, whatever hosts the units share ----------

  /** In the store its turn finds, every unit's hosts are together, and its first host is stored or none is. */
  ghost predicate TogetherInTurn(p: Plan, turns: seq<Turn>) {
    turns != [] ==>
      var init, t := turns[..|turns| - 1], turns[|turns| - 1];
      TogetherInTurn(p, init) && OneHome(PlanPhase(p, init).where, t.unit)
  }

  ghost predicate OneHome(where: map<Host, Addr>, u: Unit) {
    Together(where, u) && FirstOrNone(where, u)
  }

  /** A unit ends up on one address if and only if it finds its hosts so. */
  lemma UnitTogetherIff(p: Plan, u: Unit, next: Addr)
    requires PlanOK(p) && next !in p.owner
    ensures Together(PlanUnit(p, u, next).where, u) <==> OneHome(p.where, u)
  {
    hide PlanHosts, Prefix, PlanOK, HomeOf;
    if OneHome(p.where, u) {
      PlanUnitTogether(p, u, next);
    } else if FirstOrNone(p.where, u) {
      PlanHostsPlaced(p, u, next, |u.hosts|);
    } else {
      PlanUnitSplit(p, u, next);
    }
  }

  /** A unit whose hosts all have their places keeps them. */
  lemma TogetherStays(homes: Homes, p: Plan, p': Plan, turns: seq<Turn>, u: Unit)
    requires Extends(homes, p, p', turns) && forall h :: h in u.hosts ==> h in p.where
    ensures Together(p'.where, u) <==> Together(p.where, u)
  {
    hide HostsOf, PlanOK;
  }

  lemma PlacedAll(homes: Homes, p: Plan, p': Plan, turns: seq<Turn>, t: Turn)
    requires Extends(homes, p, p', turns) && t in turns
    ensures forall h :: h in t.unit.hosts ==> h in p'.where
  {
    forall h | h in t.unit.hosts ensures h in p'.where {
      HostOfTurn(turns, t, h);
      assert h in p'.where.Keys;
    }
  }

  /** The addition phase, in any order. */
  lemma {:induction false} AddPhaseTogetherIff(homes: Homes, s: Sys, p: Plan, turns: seq<Turn>, all: seq<Turn>)
    requires Settled(s, homes, p, false) && "" !in homes
    requires AllAvailable(homes, s, turns) && NetsAgree(homes, p.where, all)
    requires forall t :: t in turns ==> t in all
    ensures (forall t :: t in turns ==> Together(PlanPhase(p, turns).where, t.unit)) <==> TogetherInTurn(p, turns)
  {
    hide Settled, Extends, NetsAgree, PlanOK, HostsOf, AddUnit, PlanUnit, Together, OneHome;
    if turns != [] {
      var init, t := turns[..|turns| - 1], turns[|turns| - 1];
      SnocTurns(turns);
      AddPhaseTogetherIff(homes, s, p, init, all);
      AddPhaseSettles(homes, s, p, init, all);
      var mid := PlanPhase(p, init);
      NetsStillAgree(homes, p, mid, init, all);
      TurnSettles(homes, AddPhase(homes, s, init), mid, t, all);
      SettledPlanOK(AddPhase(homes, s, init), homes, mid, false);
      UnitTogetherIff(mid, t.unit, t.next);
      forall x | x in init ensures Together(PlanPhase(p, turns).where, x.unit) <==> Together(mid.where, x.unit) {
        PlacedAll(homes, p, mid, init, x);
        TogetherStays(homes, mid, PlanUnit(mid, t.unit, t.next), [t], x.unit);
      }
    }
  }

  /** All hosts of the unit are stored at one address. */
  ghost predicate OnOneAddress(st: StoreVal, u: Unit) {
    exists ip :: AllStoredAt(st, ip, u.hosts)
  }

  ghost predicate AllStoredAt(st: StoreVal, ip: Addr, hosts: seq<Host>) {
    forall h :: h in hosts ==> At(st, ip, h)
  }

  lemma TogetherStored(st: StoreVal, where: map<Host, Addr>, u: Unit)
    requires Filed(st, where) && forall h :: h in u.hosts ==> h in where
    ensures OnOneAddress(st, u) <==> Together(where, u)
  {
    if Together(where, u) {
      var ip := if u.hosts == [] then "" else where[u.hosts[0]];
      forall h | h in u.hosts ensures At(st, ip, h) {
        assert u.hosts[0] in u.hosts;
      }
      assert AllStoredAt(st, ip, u.hosts);
    }
    if OnOneAddress(st, u) {
      var ip :| AllStoredAt(st, ip, u.hosts);
      forall h | h in u.hosts ensures where[h] == ip {
        assert At(st, ip, h);
      }
    }
  }

  lemma TogetherLeft(where: map<Host, Addr>, turns: seq<Turn>, t: Turn)
    requires t in turns
    ensures Together(where - (where.Keys - HostsOf(turns)), t.unit) <==> Together(where, t.unit)
  {
    hide HostsOf;
    var left := where - (where.Keys - HostsOf(turns));
    forall h | h in t.unit.hosts ensures (h in left <==> h in where) && (h in left ==> left[h] == where[h]) {
      HostOfTurn(turns, t, h);
    }
  }

  /** A pass over any groups, with any addresses and orders: every unit has all its hosts on one address
      afterwards if and only if each finds its hosts so when its turn comes. */
  lemma PassTogetherIff(homes: Homes, s: Sys, p: Plan, turns: seq<Turn>, visits: seq<Visit>)
    requires Settled(s, homes, p, false) && "" !in homes
    requires Possible(homes, s, turns, visits) && NetsAgree(homes, p.where, turns)
    ensures (forall t :: t in turns ==> OnOneAddress(RunPass(homes, s, turns, visits).st, t.unit)) <==>
      TogetherInTurn(p, turns)
  {
    hide AddPhase, PlanPhase, RunPass, HostsOf, Follows, AllAvailable, RangeOrder, NetsAgree, Filed, Together,
      TogetherInTurn, OnOneAddress, Extends;
    AddPhaseSettles(homes, s, p, turns, turns);
    PassSettles(homes, s, p, turns, visits, false);
    AddPhaseTogetherIff(homes, s, p, turns, turns);
    var s', p1 := RunPass(homes, s, turns, visits), PlanPhase(p, turns);
    var p' :| Settled(s', homes, p', false) && p'.where == p1.where - (p1.where.Keys - HostsOf(turns));
    forall t | t in turns ensures OnOneAddress(s'.st, t.unit) <==> Together(p1.where, t.unit) {
      PlacedAll(homes, p, p1, turns, t);
      TogetherLeft(p1.where, turns, t);
      StillPlaced(p1.where, turns, t);
      TogetherStored(s'.st, p'.where, t.unit);
    }
  }

  lemma StillPlaced(where: map<Host, Addr>, turns: seq<Turn>, t: Turn)
    requires t in turns && forall h :: h in t.unit.hosts ==> h in where
    ensures forall h :: h in t.unit.hosts ==> h in where - (where.Keys - HostsOf(turns))
  {
    hide HostsOf;
    forall h | h in t.unit.hosts ensures h in HostsOf(turns) {
      HostOfTurn(turns, t, h);
    }
  }

  /** The first-host shortcut: in a store that shares addresses by unit and holds all hosts of the
      groups, a spec inside a unit has its first host at an address exactly when it has all of them
      there, so it is annotated with exactly one address. */
  lemma FirstHostDecides(st: StoreVal, turns: seq<Turn>, t: Turn, hosts: seq<Host>, ip: Addr)
    requires SharedByUnit(st, turns) && HostOnce(st) && t in turns
    requires forall h :: h in HostsOf(turns) ==> Stored(st, h)
    requires hosts != [] && forall h :: h in hosts ==> h in t.unit.hosts
    ensures At(st, ip, hosts[0]) <==> forall h :: h in hosts ==> At(st, ip, h)
    ensures At(st, IpOf(st, hosts[0]), hosts[0])
  {
    hide HostsOf;
    assert hosts[0] in hosts;
    HostOfTurn(turns, t, hosts[0]);
    if At(st, ip, hosts[0]) {
      forall h | h in hosts ensures At(st, ip, h) {
        HostOfTurn(turns, t, h);
        assert InOneUnit(turns, hosts[0], h);
      }
    }
  }
}
