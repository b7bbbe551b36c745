/**
 Which free addresses the IPAM system hands out makes no difference to what a pass keeps: the conditions that look
 at the store each turn finds depend on the units and their order only.
 */
module Addresses {
  import opened Types
  import opened Reconcile
  import opened Addition
  import opened Attachment
  import opened Pass
  import opened Coherence
  import opened Sharing
  import opened Rebuild
  import opened Zones

  /** The same units in the same order, with other addresses. */
  ghost predicate SameUnits(turns: seq<Turn>, turns': seq<Turn>) {
    |turns| == |turns'| && forall i :: 0 <= i < |turns| ==> turns'[i].unit == turns[i].unit
  }

  /** Two plans place the same hosts, each beside the same owner. */
  ghost predicate Alike(p: Plan, q: Plan) {
    p.where.Keys == q.where.Keys && forall h :: h in p.where ==> SameOwner(p, q, h)
  }

  ghost predicate SameOwner(p: Plan, q: Plan, h: Host)
    requires h in p.where && h in q.where
  {
    p.where[h] in p.owner && q.where[h] in q.owner && p.owner[p.where[h]] == q.owner[q.where[h]]
  }

  /** Hosts are at one address exactly when they have one owner. */
  lemma AlikePlaces(p: Plan, q: Plan, h: Host, k: Host)
    requires PlanOK(p) && PlanOK(q) && Alike(p, q) && h in p.where && k in p.where
    ensures p.where[h] == p.where[k] <==> q.where[h] == q.where[k]
  {
    assert SameOwner(p, q, h) && SameOwner(p, q, k);
  }

  // ---------- the three conditions on one unit ----------

  lemma {:induction false} LandingAlike(p: Plan, q: Plan, hosts: seq<Host>, i: nat)
    requires PlanOK(p) && PlanOK(q) && Alike(p, q) && i <= |hosts|
    ensures Landing(p.where, hosts, i).Some? <==> Landing(q.where, hosts, i).Some?
    ensures Landing(p.where, hosts, i).Some? ==> exists h ::
      h in p.where && Landing(p.where, hosts, i).value == p.where[h] && Landing(q.where, hosts, i).value == q.where[h]
  {
    if i > 0 {
      assert hosts[i - 1] in p.where.Keys <==> hosts[i - 1] in q.where.Keys;
      if hosts[i - 1] !in p.where {
        LandingAlike(p, q, hosts, IndexIn(hosts, i - 1));
      }
    }
  }

  lemma NewAlike(p: Plan, q: Plan, u: Unit, i: nat)
    requires Alike(p, q) && i < |u.hosts|
    ensures IsNew(p, u, i) <==> IsNew(q, u, i)
  {
    assert u.hosts[i] in p.where.Keys <==> u.hosts[i] in q.where.Keys;
  }

  lemma FittingAlike(p: Plan, q: Plan, u: Unit, wanted: set<Host>)
    requires PlanOK(p) && PlanOK(q) && Alike(p, q)
    ensures Fitting(p, u, wanted) <==> Fitting(q, u, wanted)
  {
    hide PlanOK, Landing, IsNew;
    forall i | 0 < i < |u.hosts|
      ensures IsNew(p, u, i) <==> IsNew(q, u, i)
      ensures Aims(p, u, wanted, i) <==> Aims(q, u, wanted, i)
    {
      NewAlike(p, q, u, i);
      LandingAlike(p, q, u.hosts, i);
      if Landing(p.where, u.hosts, i).Some? {
        var h :| h in p.where && Landing(p.where, u.hosts, i).value == p.where[h] &&
          Landing(q.where, u.hosts, i).value == q.where[h];
        assert SameOwner(p, q, h);
      }
    }
  }

  lemma ZonedAlike(p: Plan, q: Plan, u: Unit, wanted: set<Host>, zone: ZoneOf, n: nat)
    requires PlanOK(p) && PlanOK(q) && Alike(p, q) && n <= |u.hosts|
    ensures ZonedTo(p, u, wanted, zone, n) <==> ZonedTo(q, u, wanted, zone, n)
  {
    hide PlanOK, Landing, IsNew, Alike;
    forall i | 0 < i < n
      ensures IsNew(p, u, i) <==> IsNew(q, u, i)
      ensures Zoned(p, u, wanted, zone, i) <==> Zoned(q, u, wanted, zone, i)
    {
      NewAlike(p, q, u, i);
      LandingAlike(p, q, u.hosts, i);
      SameKeys(p, q);
      if Landing(p.where, u.hosts, i).Some? {
        var h :| h in p.where && Landing(p.where, u.hosts, i).value == p.where[h] &&
          Landing(q.where, u.hosts, i).value == q.where[h];
        forall k | k in p.where ensures p.where[k] == p.where[h] <==> q.where[k] == q.where[h] {
          AlikePlaces(p, q, k, h);
        }
      }
    }
  }

  lemma SameKeys(p: Plan, q: Plan)
    requires Alike(p, q)
    ensures forall k :: k in p.where <==> k in q.where
  {
    assert forall k :: k in p.where.Keys <==> k in q.where.Keys;
  }

  lemma OneHomeAlike(p: Plan, q: Plan, u: Unit)
    requires PlanOK(p) && PlanOK(q) && Alike(p, q)
    ensures OneHome(p.where, u) <==> OneHome(q.where, u)
  {
    hide PlanOK, Alike;
    SameKeys(p, q);
    forall h, k | h in p.where && k in p.where ensures p.where[h] == p.where[k] <==> q.where[h] == q.where[k] {
      AlikePlaces(p, q, h, k);
    }
  }

  // ---------- placing a unit ----------

  lemma {:induction false} PlanHostsAlike(p: Plan, q: Plan, u: Unit, next: Addr, next': Addr, n: nat)
    requires PlanOK(p) && PlanOK(q) && Alike(p, q) && next !in p.owner && next' !in q.owner && n <= |u.hosts|
    ensures Alike(PlanHosts(p, u, next, n).p, PlanHosts(q, u, next', n).p)
  {
    hide PlanOK, Alike, Placed, PlacePlan;
    if n > 0 {
      PlanHostsAlike(p, q, u, next, next', n - 1);
      PlanHostsPlaced(p, u, next, n - 1);
      PlanHostsPlaced(q, u, next', n - 1);
      PlaceAlike(p, q, PlanHosts(p, u, next, n - 1), PlanHosts(q, u, next', n - 1), u, next, next', n - 1);
    }
  }

  lemma PlaceAlike(p: Plan, q: Plan, w: PlanWalk, v: PlanWalk, u: Unit, next: Addr, next': Addr, n: nat)
    requires PlanOK(p) && PlanOK(q) && next !in p.owner && next' !in q.owner && n < |u.hosts|
    requires Placed(p, w, u, next, n) && Placed(q, v, u, next', n) && Alike(w.p, v.p)
    ensures Alike(PlacePlan(w, u.hosts[n], u.hosts[0], next).p, PlacePlan(v, u.hosts[n], u.hosts[0], next').p)
  {
    hide Placed, PlanOK, Alike;
    PlacedAt(p, w, u, next, n);
    PlacedAt(q, v, u, next', n);
    var host := u.hosts[n];
    SameKeys(w.p, v.p);
    if host !in w.p.where && n == 0 {
      FirstAlike(w.p, v.p, host, next, next');
    } else if host !in w.p.where {
      MateAlike(w.p, v.p, host, u.hosts[n - 1]);
    }
  }

  lemma PlacedAt(p: Plan, w: PlanWalk, u: Unit, next: Addr, n: nat)
    requires n < |u.hosts| && Placed(p, w, u, next, n)
    ensures PlanOK(w.p)
    ensures if n == 0 then w.p == p
      else u.hosts[0] in w.p.where && u.hosts[n - 1] in w.p.where && w.cur == w.p.where[u.hosts[n - 1]]
  {
    hide PlanOK;
    PrefixStep(u.hosts, n);
  }

  lemma FirstAlike(p: Plan, q: Plan, host: Host, next: Addr, next': Addr)
    requires PlanOK(p) && PlanOK(q) && Alike(p, q) && host !in p.where && next !in p.owner && next' !in q.owner
    ensures Alike(Plan(p.where[host := next], p.owner[next := host]),
      Plan(q.where[host := next'], q.owner[next' := host]))
  {
    var p', q' := Plan(p.where[host := next], p.owner[next := host]),
      Plan(q.where[host := next'], q.owner[next' := host]);
    forall h | h in p'.where ensures h in q'.where && SameOwner(p', q', h) {
      if h != host { assert h in p.where && SameOwner(p, q, h); }
    }
  }

  lemma MateAlike(p: Plan, q: Plan, host: Host, mate: Host)
    requires PlanOK(p) && PlanOK(q) && Alike(p, q) && host !in p.where && mate in p.where && mate in q.where
    ensures Alike(Plan(p.where[host := p.where[mate]], p.owner), Plan(q.where[host := q.where[mate]], q.owner))
  {
    var p', q' := Plan(p.where[host := p.where[mate]], p.owner), Plan(q.where[host := q.where[mate]], q.owner);
    assert SameOwner(p, q, mate);
    forall h | h in p'.where ensures h in q'.where && SameOwner(p', q', h) {
      if h != host { assert h in p.where && SameOwner(p, q, h); }
    }
  }

  // ---------- the addition phase ----------

  /** What two runs of the phase over the same units, with other free addresses, agree on. */
  ghost predicate Agree(p: Plan, turns: seq<Turn>, turns': seq<Turn>, wanted: set<Host>, zone: ZoneOf) {
    && (FittingInTurn(p, turns, wanted) <==> FittingInTurn(p, turns', wanted))
    && (ZonedInTurn(p, turns, wanted, zone) <==> ZonedInTurn(p, turns', wanted, zone))
    && (TogetherInTurn(p, turns) <==> TogetherInTurn(p, turns'))
  }

  /** What the last turn finds. */
  lemma LastTurn(homes: Homes, s: Sys, p: Plan, turns: seq<Turn>, all: seq<Turn>)
    requires Settled(s, homes, p, false) && "" !in homes && turns != []
    requires AllAvailable(homes, s, turns) && NetsAgree(homes, p.where, all) && forall t :: t in turns ==> t in all
    ensures var init, t := turns[..|turns| - 1], turns[|turns| - 1];
      && AllAvailable(homes, s, init) && (forall x :: x in init ==> x in all)
      && PlanOK(PlanPhase(p, init)) && t.next !in PlanPhase(p, init).owner
      && PlanPhase(p, turns) == PlanUnit(PlanPhase(p, init), t.unit, t.next)
  {
    hide Settled, NetsAgree, PlanOK, AddUnit, Extends, PlanUnit;
    var init := turns[..|turns| - 1];
    SnocTurns(turns);
    AddPhaseSettles(homes, s, p, init, all);
    SettledPlanOK(AddPhase(homes, s, init), homes, PlanPhase(p, init), false);
  }

  lemma AgreeMore(p: Plan, turns: seq<Turn>, turns': seq<Turn>, wanted: set<Host>, zone: ZoneOf)
    requires turns != [] && SameUnits(turns, turns')
    requires var n := |turns| - 1;
      var q, q', u := PlanPhase(p, turns[..n]), PlanPhase(p, turns'[..n]), turns[n].unit;
      && Agree(p, turns[..n], turns'[..n], wanted, zone)
      && (Fitting(q, u, wanted) <==> Fitting(q', u, wanted))
      && (ZonedTo(q, u, wanted, zone, |u.hosts|) <==> ZonedTo(q', u, wanted, zone, |u.hosts|))
      && (OneHome(q.where, u) <==> OneHome(q'.where, u))
    ensures Agree(p, turns, turns', wanted, zone)
  {
    hide Fitting, ZonedTo, OneHome, PlanPhase;
  }

  lemma {:induction false} PhaseAlike(homes: Homes, s: Sys, p: Plan, turns: seq<Turn>, turns': seq<Turn>,
      all: seq<Turn>, all': seq<Turn>, wanted: set<Host>, zone: ZoneOf)
    requires Settled(s, homes, p, false) && "" !in homes && SameUnits(turns, turns')
    requires AllAvailable(homes, s, turns) && NetsAgree(homes, p.where, all) && forall t :: t in turns ==> t in all
    requires AllAvailable(homes, s, turns') && NetsAgree(homes, p.where, all') && forall t :: t in turns' ==> t in all'
    ensures Alike(PlanPhase(p, turns), PlanPhase(p, turns')) && Agree(p, turns, turns', wanted, zone)
  {
    hide Settled, NetsAgree, PlanOK, AllAvailable, Alike, Agree, Fitting, ZonedTo, OneHome, PlanUnit, PlanPhase;
    if turns == [] {
      assert turns' == [];
      SettledPlanOK(s, homes, p, false);
      NoTurns(p, wanted, zone);
    } else {
      var n := |turns| - 1;
      LastTurn(homes, s, p, turns, all);
      LastTurn(homes, s, p, turns', all');
      PhaseAlike(homes, s, p, turns[..n], turns'[..n], all, all', wanted, zone);
      UnitAlike(PlanPhase(p, turns[..n]), PlanPhase(p, turns'[..n]), turns[n].unit, turns[n].next, turns'[n].next,
        wanted, zone);
      AgreeMore(p, turns, turns', wanted, zone);
    }
  }

  lemma NoTurns(p: Plan, wanted: set<Host>, zone: ZoneOf)
    requires PlanOK(p)
    ensures Alike(PlanPhase(p, []), PlanPhase(p, [])) && Agree(p, [], [], wanted, zone)
  {
    AlikeSelf(p);
  }

  lemma AlikeSelf(p: Plan)
    requires PlanOK(p)
    ensures Alike(p, p)
  {
  }

  lemma UnitAlike(p: Plan, q: Plan, u: Unit, next: Addr, next': Addr, wanted: set<Host>, zone: ZoneOf)
    requires PlanOK(p) && PlanOK(q) && Alike(p, q) && next !in p.owner && next' !in q.owner
    ensures Alike(PlanUnit(p, u, next), PlanUnit(q, u, next'))
    ensures Fitting(p, u, wanted) <==> Fitting(q, u, wanted)
    ensures ZonedTo(p, u, wanted, zone, |u.hosts|) <==> ZonedTo(q, u, wanted, zone, |u.hosts|)
    ensures OneHome(p.where, u) <==> OneHome(q.where, u)
  {
    hide PlanOK, Alike, Fitting, ZonedTo, OneHome, PlanHosts;
    PlanHostsAlike(p, q, u, next, next', |u.hosts|);
    FittingAlike(p, q, u, wanted);
    ZonedAlike(p, q, u, wanted, zone, |u.hosts|);
    OneHomeAlike(p, q, u);
  }

  /** The conditions under which a pass keeps coherence, zones, and one address for each unit hold of all free
      addresses the IPAM system may hand out, or of none: they can be checked before the pass. */
  lemma AddressesDoNotMatter(homes: Homes, s: Sys, p: Plan, turns: seq<Turn>, turns': seq<Turn>, zone: ZoneOf)
    requires Settled(s, homes, p, false) && "" !in homes && SameUnits(turns, turns')
    requires AllAvailable(homes, s, turns) && NetsAgree(homes, p.where, turns)
    requires AllAvailable(homes, s, turns') && NetsAgree(homes, p.where, turns')
    ensures HostsOf(turns) == HostsOf(turns') && Agree(p, turns, turns', HostsOf(turns), zone)
  {
    hide Settled, AllAvailable, NetsAgree, Agree;
    SameHostsOf(turns, turns');
    PhaseAlike(homes, s, p, turns, turns', turns, turns', HostsOf(turns), zone);
  }

  lemma {:induction false} SameHostsOf(turns: seq<Turn>, turns': seq<Turn>)
    requires SameUnits(turns, turns')
    ensures HostsOf(turns) == HostsOf(turns')
  {
    hide HostsOf;
    if turns == [] {
      assert turns' == [];
    } else {
      SnocTurns(turns);
      SnocTurns(turns');
      SameHostsOf(turns[..|turns| - 1], turns'[..|turns| - 1]);
    }
  }
}
