/**
 Exactly when a pass lets no CNAME cross a zone: a CNAME is loaded among the A records of its own zone.
 */
module Zones {
  import opened Types
  import opened StoreSpec
  import opened Reconcile
  import opened Addition
  import opened Attachment
  import opened Removal
  import opened Pass
  import opened Coherence
  import opened Rebuild

  ghost predicate UnitsInOneZone(turns: seq<Turn>, zone: ZoneOf) {
    forall t, h, k :: t in turns && h in t.unit.hosts && k in t.unit.hosts ==> zone(h) == zone(k)
  }

  /** Hosts at one address are in one zone. */
  ghost predicate UniformZones(where: map<Host, Addr>, zone: ZoneOf) {
    forall h, k :: h in where && k in where && where[h] == where[k] ==> zone(h) == zone(k)
  }

  lemma OneZoneIsUniform(s: Sys, homes: Homes, p: Plan, zone: ZoneOf)
    requires Settled(s, homes, p, true)
    ensures OneZone(s.dns, zone) <==> UniformZones(p.where, zone)
  {
    hide Filed, Backed;
    forall h | h in p.where
      ensures p.where[h] in p.owner && p.owner[p.where[h]] in p.where && p.where[p.owner[p.where[h]]] == p.where[h]
      ensures h in s.dns && (s.dns[h].CRec? <==> h != p.owner[p.where[h]])
      ensures h != p.owner[p.where[h]] ==> s.dns[h].canonical == p.owner[p.where[h]]
    {
      OwnerRecord(s, homes, p, h);
    }
  }

  lemma OwnerRecord(s: Sys, homes: Homes, p: Plan, h: Host)
    requires Settled(s, homes, p, true) && h in p.where
    ensures p.where[h] in p.owner && p.owner[p.where[h]] in p.where && p.where[p.owner[p.where[h]]] == p.where[h]
    ensures h in s.dns && (s.dns[h].CRec? <==> h != p.owner[p.where[h]])
    ensures h != p.owner[p.where[h]] ==> s.dns[h].canonical == p.owner[p.where[h]]
  {
    hide Filed;
    assert Backed(s, p, h, true);
  }

  lemma {:induction false} PlanHostsUniform(p: Plan, u: Unit, next: Addr, n: nat, zone: ZoneOf)
    requires PlanOK(p) && next !in p.owner && n <= |u.hosts|
    requires UniformZones(p.where, zone) && forall h, k :: h in u.hosts && k in u.hosts ==> zone(h) == zone(k)
    ensures UniformZones(PlanHosts(p, u, next, n).p.where, zone)
  {
    hide UniformZones, PlanOK, Placed, PlacePlan;
    if n > 0 {
      PlanHostsUniform(p, u, next, n - 1, zone);
      PlanHostsPlaced(p, u, next, n - 1);
      PlaceUniform(p, PlanHosts(p, u, next, n - 1), u, next, n - 1, zone);
    }
  }

  lemma PlaceUniform(p: Plan, w: PlanWalk, u: Unit, next: Addr, n: nat, zone: ZoneOf)
    requires PlanOK(p) && next !in p.owner && n < |u.hosts| && Placed(p, w, u, next, n)
    requires UniformZones(w.p.where, zone) && forall h, k :: h in u.hosts && k in u.hosts ==> zone(h) == zone(k)
    ensures UniformZones(PlacePlan(w, u.hosts[n], u.hosts[0], next).p.where, zone)
  {
    hide Prefix;
    PrefixStep(u.hosts, n);
    var host := u.hosts[n];
    if host !in w.p.where && n > 0 {
      assert u.hosts[n - 1] in u.hosts && host in u.hosts;
      assert zone(u.hosts[n - 1]) == zone(host);
    } else if host !in w.p.where {
      assert forall h :: h in w.p.where ==> w.p.where[h] != next;
    }
  }

  lemma {:induction false} PlanPhaseUniform(homes: Homes, s: Sys, p: Plan, turns: seq<Turn>, all: seq<Turn>,
      zone: ZoneOf)
    requires Settled(s, homes, p, false) && "" !in homes
    requires AllAvailable(homes, s, turns) && NetsAgree(homes, p.where, all)
    requires forall t :: t in turns ==> t in all
    requires UniformZones(p.where, zone) && UnitsInOneZone(turns, zone)
    ensures UniformZones(PlanPhase(p, turns).where, zone)
  {
    hide Settled, NetsAgree, HostsOf, AddUnit, PlanOK, UniformZones;
    if turns != [] {
      var init, t := turns[..|turns| - 1], turns[|turns| - 1];
      SnocTurns(turns);
      PlanPhaseUniform(homes, s, p, init, all, zone);
      AddPhaseSettles(homes, s, p, init, all);
      SettledPlanOK(AddPhase(homes, s, init), homes, PlanPhase(p, init), false);
      PlanHostsUniform(PlanPhase(p, init), t.unit, t.next, |t.unit.hosts|, zone);
    }
  }

  // ---------- the exact condition ----------

  /** Wanted hosts at one address are in one zone. */
  ghost predicate WantedUniform(where: map<Host, Addr>, wanted: set<Host>, zone: ZoneOf) {
    forall h, k :: h in where && k in where && h in wanted && k in wanted && where[h] == where[k] ==> zone(h) == zone(k)
  }

  /** The new host at place i shares the zone of the wanted hosts at the address it lands on; at the fresh
      address that is the zone of the unit's first host. */
  ghost predicate Zoned(p: Plan, u: Unit, wanted: set<Host>, zone: ZoneOf, i: nat)
    requires i < |u.hosts|
  {
    match Landing(p.where, u.hosts, i)
    case None => zone(u.hosts[i]) == zone(u.hosts[0])
    case Some(a) => forall k :: k in p.where && k in wanted && p.where[k] == a ==> zone(k) == zone(u.hosts[i])
  }

  ghost predicate ZonedTo(p: Plan, u: Unit, wanted: set<Host>, zone: ZoneOf, n: nat)
    requires n <= |u.hosts|
  {
    forall i :: 0 < i < n && IsNew(p, u, i) ==> Zoned(p, u, wanted, zone, i)
  }

  /** Every new host of every unit, in the store its turn finds. */
  ghost predicate ZonedInTurn(p: Plan, turns: seq<Turn>, wanted: set<Host>, zone: ZoneOf) {
    turns != [] ==>
      var init, t := turns[..|turns| - 1], turns[|turns| - 1];
      ZonedInTurn(p, init, wanted, zone) && ZonedTo(PlanPhase(p, init), t.unit, wanted, zone, |t.unit.hosts|)
  }

  /** Where a host lands there is a wanted host already: a stored one of its unit, or the unit's first. */
  lemma {:induction false} LandingAnchor(where: map<Host, Addr>, hosts: seq<Host>, i: nat)
    requires i <= |hosts|
    ensures Landing(where, hosts, i).Some? ==>
      exists h :: h in hosts && h in where && where[h] == Landing(where, hosts, i).value
    ensures i > 0 && Landing(where, hosts, i).None? ==> hosts[0] !in where
  {
    if i > 0 && hosts[i - 1] !in where {
      LandingAnchor(where, hosts, IndexIn(hosts, i - 1));
    } else if i > 0 {
      assert hosts[i - 1] in hosts;
    }
  }

  /** One host more at address a. */
  lemma UniformMore(where: map<Host, Addr>, wanted: set<Host>, zone: ZoneOf, host: Host, a: Addr, k0: Host)
    requires host !in where && host in wanted && k0 in where && k0 in wanted && where[k0] == a
    ensures WantedUniform(where[host := a], wanted, zone) <==>
      WantedUniform(where, wanted, zone) && zone(k0) == zone(host)
  {
    var where' := where[host := a];
    if WantedUniform(where', wanted, zone) {
      forall h, k | h in where && k in where && h in wanted && k in wanted && where[h] == where[k]
        ensures zone(h) == zone(k)
      {
        assert where'[h] == where[h] && where'[k] == where[k];
      }
      assert where'[k0] == where'[host];
    }
  }

  /** What the place at which the new host n lands asks of its zone. */
  lemma ZonedAnchor(p: Plan, w: PlanWalk, u: Unit, next: Addr, wanted: set<Host>, zone: ZoneOf, n: nat)
    returns (k0: Host)
    requires PlanOK(p) && next !in p.owner && 0 < n < |u.hosts| && Elements(u.hosts) <= wanted
    requires Placed(p, w, u, next, n) && AsLanded(p, w, u, next, n) && WantedUniform(w.p.where, wanted, zone)
    ensures k0 in w.p.where && k0 in wanted && w.p.where[k0] == w.cur
    ensures Zoned(p, u, wanted, zone, n) <==> zone(k0) == zone(u.hosts[n])
  {
    LandingAnchor(p.where, u.hosts, n);
    PrefixStep(u.hosts, n);
    match Landing(p.where, u.hosts, n) {
      case None =>
        k0 := u.hosts[0];
        assert k0 in Elements(u.hosts);
      case Some(a) =>
        k0 :| k0 in u.hosts && k0 in p.where && p.where[k0] == a;
        assert k0 in Elements(u.hosts);
        forall k | k in p.where && k in wanted && p.where[k] == a ensures zone(k) == zone(k0) {
          assert w.p.where[k] == w.p.where[k0];
        }
    }
  }

  lemma {:induction false} PlanHostsZonedIff(p: Plan, u: Unit, next: Addr, wanted: set<Host>, zone: ZoneOf, n: nat)
    requires PlanOK(p) && next !in p.owner && n <= |u.hosts| && Elements(u.hosts) <= wanted
    ensures WantedUniform(PlanHosts(p, u, next, n).p.where, wanted, zone) <==>
      WantedUniform(p.where, wanted, zone) && ZonedTo(p, u, wanted, zone, n)
  {
    hide PlanOK, WantedUniform, ZonedTo, Zoned, Placed, AsLanded, PlacePlan, IsNew, Elements;
    if n == 0 {
      ZonedNone(p, u, wanted, zone);
    } else {
      ZonedMore(p, u, wanted, zone, n - 1);
      PlanHostsZonedIff(p, u, next, wanted, zone, n - 1);
      PlanHostsPlaced(p, u, next, n - 1);
      PlanHostsLanded(p, u, next, n - 1);
      PlaceZonedIff(p, PlanHosts(p, u, next, n - 1), u, next, wanted, zone, n - 1);
    }
  }

  lemma ZonedNone(p: Plan, u: Unit, wanted: set<Host>, zone: ZoneOf)
    ensures ZonedTo(p, u, wanted, zone, 0)
  {
  }

  lemma ZonedMore(p: Plan, u: Unit, wanted: set<Host>, zone: ZoneOf, n: nat)
    requires n < |u.hosts|
    ensures ZonedTo(p, u, wanted, zone, n + 1) <==>
      ZonedTo(p, u, wanted, zone, n) && (n > 0 && IsNew(p, u, n) ==> Zoned(p, u, wanted, zone, n))
  {
    hide IsNew, Zoned;
  }

  lemma PlaceZonedIff(p: Plan, w: PlanWalk, u: Unit, next: Addr, wanted: set<Host>, zone: ZoneOf, n: nat)
    requires PlanOK(p) && next !in p.owner && n < |u.hosts| && Elements(u.hosts) <= wanted
    requires Placed(p, w, u, next, n) && AsLanded(p, w, u, next, n)
    ensures WantedUniform(PlacePlan(w, u.hosts[n], u.hosts[0], next).p.where, wanted, zone) <==>
      WantedUniform(w.p.where, wanted, zone) && (n > 0 && IsNew(p, u, n) ==> Zoned(p, u, wanted, zone, n))
  {
    hide Zoned, AsLanded, Prefix;
    PrefixStep(u.hosts, n);
    var host := u.hosts[n];
    assert host in Elements(u.hosts);
    if host !in w.p.where && n > 0 {
      NewPlace(p, w, u, next, n);
      var k0 := u.hosts[n - 1];
      assert k0 in Elements(u.hosts);
      UniformMore(w.p.where, wanted, zone, host, w.cur, k0);
      if WantedUniform(w.p.where, wanted, zone) {
        var k1 := ZonedAnchor(p, w, u, next, wanted, zone, n);
      }
    } else if host !in w.p.where {
      FirstUniform(w.p.where, wanted, zone, host, next);
    }
  }

  lemma NewPlace(p: Plan, w: PlanWalk, u: Unit, next: Addr, n: nat)
    requires 0 < n < |u.hosts| && Placed(p, w, u, next, n) && u.hosts[n] !in w.p.where
    ensures IsNew(p, u, n) && u.hosts[n] != u.hosts[0]
    ensures PlacePlan(w, u.hosts[n], u.hosts[0], next).p.where == w.p.where[u.hosts[n] := w.cur]
    ensures u.hosts[n - 1] in w.p.where && w.p.where[u.hosts[n - 1]] == w.cur
  {
    PrefixStep(u.hosts, n);
  }

  lemma FirstUniform(where: map<Host, Addr>, wanted: set<Host>, zone: ZoneOf, host: Host, next: Addr)
    requires host !in where && forall h :: h in where ==> where[h] != next
    ensures WantedUniform(where[host := next], wanted, zone) <==> WantedUniform(where, wanted, zone)
  {
    var where' := where[host := next];
    forall h, k | h in where && k in where ensures where'[h] == where[h] && where'[k] == where[k] {
    }
  }

  /** The addition phase, in any order. */
  lemma {:induction false} AddPhaseZonesIff(homes: Homes, s: Sys, p: Plan, turns: seq<Turn>, all: seq<Turn>,
      wanted: set<Host>, zone: ZoneOf)
    requires Settled(s, homes, p, false) && "" !in homes
    requires AllAvailable(homes, s, turns) && NetsAgree(homes, p.where, all)
    requires (forall t :: t in turns ==> t in all) && HostsOf(turns) <= wanted
    ensures WantedUniform(PlanPhase(p, turns).where, wanted, zone) <==>
      WantedUniform(p.where, wanted, zone) && ZonedInTurn(p, turns, wanted, zone)
  {
    hide Settled, NetsAgree, PlanOK, HostsOf, AddUnit, WantedUniform, ZonedTo;
    if turns != [] {
      var init, t := turns[..|turns| - 1], turns[|turns| - 1];
      SnocTurns(turns);
      AddPhaseZonesIff(homes, s, p, init, all, wanted, zone);
      AddPhaseSettles(homes, s, p, init, all);
      var mid := PlanPhase(p, init);
      SettledPlanOK(AddPhase(homes, s, init), homes, mid, false);
      PlanHostsZonedIff(mid, t.unit, t.next, wanted, zone, |t.unit.hosts|);
    }
  }

  lemma WantedLeft(where: map<Host, Addr>, wanted: set<Host>, zone: ZoneOf)
    ensures UniformZones(where - (where.Keys - wanted), zone) <==> WantedUniform(where, wanted, zone)
  {
    var left := where - (where.Keys - wanted);
    forall h ensures h in left <==> h in where && h in wanted {
    }
  }

  /** A pass that ends coherent lets no CNAME cross a zone if and only if the wanted hosts at one address were in
      one zone before it, and every new host shares the zone of the wanted hosts where it lands. */
  lemma PassZonesIff(homes: Homes, s: Sys, p: Plan, turns: seq<Turn>, visits: seq<Visit>, zone: ZoneOf)
    requires Settled(s, homes, p, false) && "" !in homes
    requires Possible(homes, s, turns, visits) && NetsAgree(homes, p.where, turns)
    requires Coherent(RunPass(homes, s, turns, visits), homes)
    ensures OneZone(RunPass(homes, s, turns, visits).dns, zone) <==>
      WantedUniform(p.where, HostsOf(turns), zone) && ZonedInTurn(p, turns, HostsOf(turns), zone)
  {
    hide AddPhase, PlanPhase, RunPass, HostsOf, Follows, AllAvailable, RangeOrder, NetsAgree, OneZone, Filed,
      UniformZones, WantedUniform, ZonedInTurn;
    AddPhaseSettles(homes, s, p, turns, turns);
    AddPhaseZonesIff(homes, s, p, turns, turns, HostsOf(turns), zone);
    PassSettles(homes, s, p, turns, visits, false);
    var s', p1 := RunPass(homes, s, turns, visits), PlanPhase(p, turns);
    var p' :| Settled(s', homes, p', false) && p'.where == p1.where - (p1.where.Keys - HostsOf(turns));
    var q :| Settled(s', homes, q, true);
    SettledStrict(s', homes, q);
    PlanUnique(s', homes, p', q);
    OneZoneIsUniform(s', homes, q, zone);
    WantedLeft(p1.where, HostsOf(turns), zone);
  }

  /** From a coherent system in which no CNAME crosses a zone, only the units matter; units that stay in one zone
      never break it. */
  lemma PassKeepsZonesIff(homes: Homes, s: Sys, p: Plan, turns: seq<Turn>, visits: seq<Visit>, zone: ZoneOf)
    requires Settled(s, homes, p, true) && "" !in homes && OneZone(s.dns, zone)
    requires Possible(homes, s, turns, visits) && NetsAgree(homes, p.where, turns)
    requires Coherent(RunPass(homes, s, turns, visits), homes)
    ensures OneZone(RunPass(homes, s, turns, visits).dns, zone) <==> ZonedInTurn(p, turns, HostsOf(turns), zone)
    ensures UnitsInOneZone(turns, zone) ==> ZonedInTurn(p, turns, HostsOf(turns), zone)
  {
    hide AddPhase, PlanPhase, RunPass, HostsOf, Follows, AllAvailable, RangeOrder, NetsAgree, OneZone, Filed, Coherent,
      UniformZones, WantedUniform, ZonedInTurn, UnitsInOneZone;
    SettledStrict(s, homes, p);
    OneZoneIsUniform(s, homes, p, zone);
    UniformWanted(p.where, HostsOf(turns), zone);
    PassZonesIff(homes, s, p, turns, visits, zone);
    if UnitsInOneZone(turns, zone) {
      PlanPhaseUniform(homes, s, p, turns, turns, zone);
      UniformWanted(PlanPhase(p, turns).where, HostsOf(turns), zone);
      AddPhaseZonesIff(homes, s, p, turns, turns, HostsOf(turns), zone);
    }
  }

  lemma UniformWanted(where: map<Host, Addr>, wanted: set<Host>, zone: ZoneOf)
    requires UniformZones(where, zone)
    ensures WantedUniform(where, wanted, zone)
  {
  }
}
