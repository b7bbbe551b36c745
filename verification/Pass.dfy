/**
 A whole pass of the controller over the groups: the addition phase, then the removal phase.  The
 addresses handed out and every map order are parameters, so each lemma speaks of every run.
 */
module Pass {
  import opened Types
  import opened StoreSpec
  import opened Reconcile
  import opened Addition
  import opened Attachment
  import opened Removal

  /** All hosts of the groups, as GetAllHosts collects them. */
  function HostsOf(turns: seq<Turn>): set<Host> {
    set t, h | t in turns && h in t.unit.hosts :: h
  }

  /** No host is in two units. */
  ghost predicate DisjointUnits(turns: seq<Turn>) {
    forall i, j, h :: 0 <= i < j < |turns| && h in turns[i].unit.hosts ==> h !in turns[j].unit.hosts
  }

  /** Units that share a host name the same network, and stored hosts are in their unit's network: no
      resource has its netview or cidr changed while it is managed. */
  ghost predicate NetsAgree(homes: Homes, where: map<Host, Addr>, turns: seq<Turn>) {
    && (forall t :: t in turns ==> SameNet(homes, where, t.unit))
    && (forall t, t', h :: t in turns && t' in turns && h in t.unit.hosts && h in t'.unit.hosts ==>
      t.unit.net == t'.unit.net)
  }

  /** A range over the store: each address once, its hosts in two orders. */
  ghost predicate RangeOrder(st: StoreVal, visits: seq<Visit>) {
    && DistinctAddresses(visits) && Addresses(visits) == st.records.Keys
    && forall v :: v in visits ==>
      && v.ip in st.records
      && Distinct(v.avail) && Elements(v.avail) == st.records[v.ip].Keys
      && Distinct(v.order) && Elements(v.order) == st.records[v.ip].Keys
  }

  ghost function RunPass(homes: Homes, s: Sys, turns: seq<Turn>, visits: seq<Visit>): Sys {
    RemovePhase(homes, AddPhase(homes, s, turns), HostsOf(turns), visits)
  }

  /** The choices a pass can meet: addresses that are free when they are asked for, and map orders. */
  ghost predicate Possible(homes: Homes, s: Sys, turns: seq<Turn>, visits: seq<Visit>) {
    AllAvailable(homes, s, turns) && RangeOrder(AddPhase(homes, s, turns).st, visits)
  }

  lemma RangeIsSweep(st: StoreVal, where: map<Host, Addr>, visits: seq<Visit>)
    requires RangeOrder(st, visits) && Filed(st, where)
    ensures SweepOrder(st, where, visits)
  {
    hide DistinctAddresses, Distinct, Elements;
    forall v | v in visits ensures VisitsAll(where, v) {
      MatesAt(st, where, v.ip);
    }
  }

  lemma SweepIsRange(st: StoreVal, where: map<Host, Addr>, visits: seq<Visit>)
    requires DistinctAddresses(visits) && Addresses(visits) == st.records.Keys
    requires Filed(st, where) && forall v :: v in visits ==> VisitsAll(where, v)
    ensures RangeOrder(st, visits)
  {
    hide DistinctAddresses, Distinct, Elements, Filed;
    forall v | v in visits
      ensures v.ip in st.records && Mates(where, v.ip) == st.records[v.ip].Keys
    {
      assert v.ip in Addresses(visits);
      MatesAt(st, where, v.ip);
    }
  }

  lemma SnocTurns(turns: seq<Turn>)
    requires turns != []
    ensures var init, t := turns[..|turns| - 1], turns[|turns| - 1];
      && HostsOf(turns) == HostsOf(init) + Elements(t.unit.hosts)
      && (forall x :: x in turns <==> x in init || x == t)
  {
    assert turns == turns[..|turns| - 1] + [turns[|turns| - 1]];
    forall h | h in HostsOf(turns[..|turns| - 1]) + Elements(turns[|turns| - 1].unit.hosts)
      ensures h in HostsOf(turns)
    {
    }
  }

  // ---------- what the addition phase does to the plan ----------

  /** Hosts and owners stay where they were; exactly the turns' hosts are added, in their own network. */
  ghost predicate Extends(homes: Homes, p: Plan, p': Plan, turns: seq<Turn>) {
    && PlanOK(p')
    && (forall h :: h in p.where ==> h in p'.where && p'.where[h] == p.where[h])
    && (forall ip :: ip in p.owner ==> ip in p'.owner && p'.owner[ip] == p.owner[ip])
    && p'.where.Keys == p.where.Keys + HostsOf(turns)
    && (forall h :: h in p'.where && h !in p.where ==> NewInNet(homes, p', turns, h))
  }

  ghost predicate NewInNet(homes: Homes, p': Plan, turns: seq<Turn>, h: Host)
    requires h in p'.where
  {
    exists t :: t in turns && h in t.unit.hosts && p'.where[h] in homes && homes[p'.where[h]] == t.unit.net
  }

  lemma HostsOfOne(t: Turn)
    ensures HostsOf([t]) == Elements(t.unit.hosts)
  {
    assert t in [t];
  }

  lemma UnitExtends(homes: Homes, p: Plan, t: Turn)
    requires PlanOK(p) && t.next !in p.owner && SameNet(homes, p.where, t.unit)
    requires t.next in homes && homes[t.next] == t.unit.net
    ensures Extends(homes, p, PlanUnit(p, t.unit, t.next), [t])
  {
    hide PlanHosts, Prefix, PlanOK, HostsOf;
    var n := |t.unit.hosts|;
    HostsOfOne(t);
    PlanHostsPlaced(p, t.unit, t.next, n);
    PlanHostsInNet(homes, p, t.unit, t.next, n);
    PrefixStep(t.unit.hosts, n);
    var p' := PlanUnit(p, t.unit, t.next);
    forall h | h in p'.where && h !in p.where ensures NewInNet(homes, p', [t], h) {
      assert t in [t];
    }
  }

  lemma ExtendsTrans(homes: Homes, p: Plan, mid: Plan, p': Plan, turns: seq<Turn>)
    requires turns != []
    requires Extends(homes, p, mid, turns[..|turns| - 1]) && Extends(homes, mid, p', [turns[|turns| - 1]])
    ensures Extends(homes, p, p', turns)
  {
    hide PlanOK, HostsOf;
    var init, t := turns[..|turns| - 1], turns[|turns| - 1];
    SnocTurns(turns);
    HostsOfOne(t);
    forall h | h in p'.where && h !in p.where ensures NewInNet(homes, p', turns, h) {
      if h in mid.where {
        assert NewInNet(homes, mid, init, h);
        var x :| x in init && h in x.unit.hosts && mid.where[h] in homes && homes[mid.where[h]] == x.unit.net;
        assert x in turns;
      } else {
        assert NewInNet(homes, p', [t], h);
        assert t in turns;
      }
    }
  }

  lemma ExtendsNothing(homes: Homes, p: Plan)
    requires PlanOK(p)
    ensures Extends(homes, p, p, [])
  {
    assert HostsOf([]) == {};
  }

  /** The networks still agree after some of the units have been placed. */
  lemma NetsStillAgree(homes: Homes, p: Plan, p': Plan, init: seq<Turn>, turns: seq<Turn>)
    requires NetsAgree(homes, p.where, turns) && Extends(homes, p, p', init)
    requires forall t :: t in init ==> t in turns
    ensures NetsAgree(homes, p'.where, turns)
  {
    hide PlanOK;
    forall t | t in turns ensures SameNet(homes, p'.where, t.unit) {
      forall h | h in t.unit.hosts && h in p'.where ensures p'.where[h] in homes && homes[p'.where[h]] == t.unit.net {
        if h !in p.where {
          assert NewInNet(homes, p', init, h);
        }
      }
    }
  }

  /** The addition phase in any order of groups: the system follows the extended plan. */
  lemma {:induction false} AddPhaseSettles(homes: Homes, s: Sys, p: Plan, turns: seq<Turn>, all: seq<Turn>)
    requires Settled(s, homes, p, false) && "" !in homes
    requires AllAvailable(homes, s, turns) && NetsAgree(homes, p.where, all)
    requires forall t :: t in turns ==> t in all
    ensures Settled(AddPhase(homes, s, turns), homes, PlanPhase(p, turns), false)
    ensures Extends(homes, p, PlanPhase(p, turns), turns)
  {
    hide Settled, Extends, NetsAgree, PlanOK, HostsOf, AddUnit, PlanUnit, Available;
    SettledPlanOK(s, homes, p, false);
    if turns == [] {
      ExtendsNothing(homes, p);
    } else {
      var init, t := turns[..|turns| - 1], turns[|turns| - 1];
      SnocTurns(turns);
      AddPhaseSettles(homes, s, p, init, all);
      var mid := PlanPhase(p, init);
      NetsStillAgree(homes, p, mid, init, all);
      TurnSettles(homes, AddPhase(homes, s, init), mid, t, all);
      ExtendsTrans(homes, p, mid, PlanUnit(mid, t.unit, t.next), turns);
    }
  }

  lemma TurnSettles(homes: Homes, s: Sys, p: Plan, t: Turn, all: seq<Turn>)
    requires Settled(s, homes, p, false) && "" !in homes
    requires Available(homes, s, t) && NetsAgree(homes, p.where, all) && t in all
    ensures Settled(AddUnit(homes, s, t.unit, t.next), homes, PlanUnit(p, t.unit, t.next), false)
    ensures Extends(homes, p, PlanUnit(p, t.unit, t.next), [t])
  {
    hide Settled, AddUnit, Extends, PlanOK;
    SettledPlanOK(s, homes, p, false);
    AddUnitSettles(homes, s, p, t.unit, t.next);
    UnitExtends(homes, p, t);
  }

  // ---------- coherence of the addition phase ----------

  /** p' says of the hosts of u what p says, and keeps the owners of p. */
  ghost predicate AgreeOn(p: Plan, p': Plan, u: Unit) {
    && (forall h :: h in u.hosts ==> (h in p'.where <==> h in p.where) && (h in p.where ==> p'.where[h] == p.where[h]))
    && (forall ip :: ip in p.owner ==> ip in p'.owner && p'.owner[ip] == p.owner[ip])
  }

  lemma AttachableStable(p: Plan, p': Plan, u: Unit)
    requires PlanOK(p) && AgreeOn(p, p', u)
    ensures Attachable(p', u) <==> Attachable(p, u)
  {
    hide Prefix;
    forall i | 0 < i < |u.hosts|
      ensures IsNew(p', u, i) <==> IsNew(p, u, i)
      ensures Follower(p', u, i) <==> Follower(p, u, i)
    {
      assert u.hosts[0] in u.hosts && u.hosts[i - 1] in u.hosts && u.hosts[i] in u.hosts;
    }
  }

  lemma ExtendsAgrees(homes: Homes, p: Plan, p': Plan, turns: seq<Turn>, u: Unit)
    requires Extends(homes, p, p', turns) && forall h :: h in u.hosts ==> h !in HostsOf(turns)
    ensures AgreeOn(p, p', u)
  {
    hide HostsOf, PlanOK;
    assert forall h :: h in u.hosts ==> (h in p'.where.Keys <==> h in p.where.Keys);
  }

  lemma DisjointPrefix(turns: seq<Turn>)
    requires DisjointUnits(turns) && turns != []
    ensures DisjointUnits(turns[..|turns| - 1])
    ensures var init, u := turns[..|turns| - 1], turns[|turns| - 1].unit;
      forall h :: h in u.hosts ==> h !in HostsOf(init)
  {
  }

  /** Every unit is attachable in the store its turn finds. */
  ghost predicate AttachableInTurn(p: Plan, turns: seq<Turn>) {
    turns != [] ==>
      var init, t := turns[..|turns| - 1], turns[|turns| - 1];
      AttachableInTurn(p, init) && Attachable(PlanPhase(p, init), t.unit)
  }

  /** The addition phase, in any order: it ends coherent if and only if it started so and every unit
      is attachable in the store its turn finds. */
  lemma {:induction false} AddPhaseCoherentIff(homes: Homes, s: Sys, p: Plan, turns: seq<Turn>, all: seq<Turn>)
    requires Settled(s, homes, p, false) && "" !in homes
    requires AllAvailable(homes, s, turns) && NetsAgree(homes, p.where, all)
    requires forall t :: t in turns ==> t in all
    ensures Settled(AddPhase(homes, s, turns), homes, PlanPhase(p, turns), true) <==>
      Settled(s, homes, p, true) && AttachableInTurn(p, turns)
  {
    hide Settled, Extends, NetsAgree, PlanOK, HostsOf, AddUnit, PlanUnit, Available, Attachable;
    if turns != [] {
      var init, t := turns[..|turns| - 1], turns[|turns| - 1];
      SnocTurns(turns);
      AddPhaseCoherentIff(homes, s, p, init, all);
      AddPhaseSettles(homes, s, p, init, all);
      var mid := PlanPhase(p, init);
      NetsStillAgree(homes, p, mid, init, all);
      TurnCoherentIff(homes, AddPhase(homes, s, init), mid, t, all);
    }
  }

  /** Units that share no host find for their own hosts what the phase found. */
  lemma {:induction false} DisjointAttachable(homes: Homes, s: Sys, p: Plan, turns: seq<Turn>, all: seq<Turn>)
    requires Settled(s, homes, p, false) && "" !in homes
    requires AllAvailable(homes, s, turns) && NetsAgree(homes, p.where, all) && DisjointUnits(turns)
    requires forall t :: t in turns ==> t in all
    ensures AttachableInTurn(p, turns) <==> forall t :: t in turns ==> Attachable(p, t.unit)
  {
    hide Settled, Extends, NetsAgree, PlanOK, HostsOf, AddUnit, PlanUnit, Available, DisjointUnits, Attachable;
    if turns != [] {
      var init, t := turns[..|turns| - 1], turns[|turns| - 1];
      SnocTurns(turns);
      DisjointPrefix(turns);
      DisjointAttachable(homes, s, p, init, all);
      AddPhaseSettles(homes, s, p, init, all);
      SettledPlanOK(s, homes, p, false);
      ExtendsAgrees(homes, p, PlanPhase(p, init), init, t.unit);
      AttachableStable(p, PlanPhase(p, init), t.unit);
    }
  }

  lemma TurnCoherentIff(homes: Homes, s: Sys, p: Plan, t: Turn, all: seq<Turn>)
    requires Settled(s, homes, p, false) && "" !in homes
    requires Available(homes, s, t) && NetsAgree(homes, p.where, all) && t in all
    ensures Settled(AddUnit(homes, s, t.unit, t.next), homes, PlanUnit(p, t.unit, t.next), true) <==>
      Settled(s, homes, p, true) && Attachable(p, t.unit)
  {
    hide Settled, AddUnit, PlanUnit, Attachable;
    UnitCoherentIff(homes, s, p, t.unit, t.next);
  }

  // ---------- whole passes ----------

  /** A pass over a settled system, with any addresses and any map orders. */
  lemma PassSettles(homes: Homes, s: Sys, p: Plan, turns: seq<Turn>, visits: seq<Visit>, strict: bool)
    requires Settled(AddPhase(homes, s, turns), homes, PlanPhase(p, turns), strict)
    requires Possible(homes, s, turns, visits)
    ensures exists p' :: (
      && Settled(RunPass(homes, s, turns, visits), homes, p', strict)
      && p'.where == PlanPhase(p, turns).where - (PlanPhase(p, turns).where.Keys - HostsOf(turns)))
  {
    hide AddPhase, PlanPhase, RemovePhase, HostsOf, Follows, AllAvailable, RangeOrder;
    var s1, p1 := AddPhase(homes, s, turns), PlanPhase(p, turns);
    RangeIsSweep(s1.st, p1.where, visits);
    RemovePhaseSettles(homes, s1, p1, HostsOf(turns), visits, strict);
  }

  /** The final store, seen from the store before the pass. */
  ghost predicate Converged(st: StoreVal, st': StoreVal, wanted: set<Host>) {
    && (forall h :: Stored(st', h) <==> h in wanted)
    && (forall ip, h :: At(st, ip, h) && h in wanted ==> At(st', ip, h))
  }

  lemma WhereConverges(st: StoreVal, p: Plan, p1: Plan, st': StoreVal, p': Plan, wanted: set<Host>)
    requires Filed(st, p.where) && Filed(st', p'.where)
    requires forall h :: h in p.where ==> h in p1.where && p1.where[h] == p.where[h]
    requires p1.where.Keys == p.where.Keys + wanted && p'.where == p1.where - (p1.where.Keys - wanted)
    ensures Converged(st, st', wanted)
  {
    forall h ensures Stored(st', h) <==> h in wanted {
      if h in wanted {
        assert h in p'.where;
        assert At(st', p'.where[h], h);
      }
    }
  }

  /** One pass, for all groups, all free addresses and all map orders: store, records and reservations
      still agree (so the reserved addresses are again the stored ones and each has one A record), the
      stored hosts are exactly the wanted ones, and a wanted host that was stored keeps its address. */
  lemma PassConverges(homes: Homes, s: Sys, p: Plan, turns: seq<Turn>, visits: seq<Visit>)
    requires Settled(s, homes, p, false) && "" !in homes
    requires Possible(homes, s, turns, visits) && NetsAgree(homes, p.where, turns)
    ensures Sound(RunPass(homes, s, turns, visits), homes)
    ensures Converged(s.st, RunPass(homes, s, turns, visits).st, HostsOf(turns))
  {
    hide AddPhase, PlanPhase, RunPass, HostsOf, Follows, AllAvailable, RangeOrder, NetsAgree, Filed, Converged, PlanOK;
    AddPhaseSettles(homes, s, p, turns, turns);
    PassSettles(homes, s, p, turns, visits, false);
    var s', p1 := RunPass(homes, s, turns, visits), PlanPhase(p, turns);
    var p' :| Settled(s', homes, p', false) && p'.where == p1.where - (p1.where.Keys - HostsOf(turns));
    WhereConverges(s.st, p, p1, s'.st, p', HostsOf(turns));
  }

  // ---------- which addresses a pass gives back ----------

  /** A wanted host was stored at address ip. */
  ghost predicate HasWanted(where: map<Host, Addr>, wanted: set<Host>, ip: Addr) {
    exists k :: k in wanted && k in where && where[k] == ip
  }

  /** Whatever has been filed during the phase is at a fresh address or beside a wanted stored host. */
  ghost predicate Grounded(p: Plan, p': Plan, wanted: set<Host>) {
    forall h :: h in p'.where && h !in p.where && p'.where[h] in p.owner ==> HasWanted(p.where, wanted, p'.where[h])
  }

  lemma {:induction false} PlanHostsGrounded(p: Plan, p0: Plan, u: Unit, next: Addr, n: nat, wanted: set<Host>)
    requires PlanOK(p) && next !in p.owner && n <= |u.hosts| && Elements(u.hosts) <= wanted
    requires p0.owner.Keys <= p.owner.Keys && Grounded(p0, p, wanted)
    requires forall h :: h in p0.where ==> h in p.where && p.where[h] == p0.where[h]
    ensures var w := PlanHosts(p, u, next, n);
      Grounded(p0, w.p, wanted) && (w.cur in p0.owner ==> HasWanted(p0.where, wanted, w.cur))
  {
    hide PlanOK, Placed, HasWanted;
    if n > 0 {
      PlanHostsGrounded(p, p0, u, next, n - 1, wanted);
      PlanHostsPlaced(p, u, next, n - 1);
      var w, host := PlanHosts(p, u, next, n - 1), u.hosts[n - 1];
      assert host in Elements(u.hosts);
      PlacedKeeps(p, w, u, next, n - 1);
      if host in p0.where { WantedAt(p0.where, wanted, host); }
    }
  }

  lemma WantedAt(where: map<Host, Addr>, wanted: set<Host>, h: Host)
    requires h in where && h in wanted
    ensures HasWanted(where, wanted, where[h])
  {
  }

  lemma PlacedKeeps(p: Plan, w: PlanWalk, u: Unit, next: Addr, n: nat)
    requires n <= |u.hosts| && Placed(p, w, u, next, n)
    ensures forall h :: h in p.where ==> h in w.p.where && w.p.where[h] == p.where[h]
  {
  }

  lemma {:induction false} PlanPhaseGrounded(homes: Homes, s: Sys, p: Plan, turns: seq<Turn>, all: seq<Turn>,
      wanted: set<Host>)
    requires Settled(s, homes, p, false) && "" !in homes
    requires AllAvailable(homes, s, turns) && NetsAgree(homes, p.where, all)
    requires forall t :: t in turns ==> t in all
    requires HostsOf(turns) <= wanted
    ensures Grounded(p, PlanPhase(p, turns), wanted)
  {
    hide Settled, NetsAgree, HostsOf, AddUnit, HasWanted, PlanOK;
    if turns != [] {
      var init, t := turns[..|turns| - 1], turns[|turns| - 1];
      SnocTurns(turns);
      PlanPhaseGrounded(homes, s, p, init, all, wanted);
      AddPhaseSettles(homes, s, p, init, all);
      SettledPlanOK(s, homes, p, false);
      SettledPlanOK(AddPhase(homes, s, init), homes, PlanPhase(p, init), false);
      PlanHostsGrounded(PlanPhase(p, init), p, t.unit, t.next, |t.unit.hosts|, wanted);
    }
  }

  /** An address stored before the pass stays reserved exactly when one of its hosts is still wanted. */
  lemma PassReleasesExactly(homes: Homes, s: Sys, p: Plan, turns: seq<Turn>, visits: seq<Visit>, ip: Addr)
    requires Settled(s, homes, p, false) && "" !in homes && ip in s.st.records
    requires Possible(homes, s, turns, visits) && NetsAgree(homes, p.where, turns)
    ensures ip in RunPass(homes, s, turns, visits).reserved <==> exists h :: At(s.st, ip, h) && h in HostsOf(turns)
  {
    hide AddPhase, PlanPhase, RunPass, HostsOf, Follows, AllAvailable, RangeOrder, NetsAgree, PlanOK;
    var wanted, s', p1 := HostsOf(turns), RunPass(homes, s, turns, visits), PlanPhase(p, turns);
    AddPhaseSettles(homes, s, p, turns, turns);
    PlanPhaseGrounded(homes, s, p, turns, turns, wanted);
    PassSettles(homes, s, p, turns, visits, false);
    var p' :| Settled(s', homes, p', false) && p'.where == p1.where - (p1.where.Keys - wanted);
    SettledPlanOK(s, homes, p, false);
    SettledPlanOK(s', homes, p', false);
    OwnedIffWanted(p, p1, p', wanted, ip);
    assert forall h :: At(s.st, ip, h) <==> h in p.where && p.where[h] == ip;
    if HasWanted(p.where, wanted, ip) {
      var h :| h in wanted && h in p.where && p.where[h] == ip;
      assert At(s.st, ip, h);
    }
  }

  lemma OwnedIffWanted(p: Plan, p1: Plan, p': Plan, wanted: set<Host>, ip: Addr)
    requires PlanOK(p') && ip in p.owner && Grounded(p, p1, wanted)
    requires forall h :: h in p.where ==> h in p1.where && p1.where[h] == p.where[h]
    requires p'.where == p1.where - (p1.where.Keys - wanted)
    ensures ip in p'.owner <==> HasWanted(p.where, wanted, ip)
  {
    if ip in p'.owner {
      var h := p'.owner[ip];
      assert h in wanted && p1.where[h] == ip;
    }
    if HasWanted(p.where, wanted, ip) {
      var h :| h in wanted && h in p.where && p.where[h] == ip;
      assert h in p'.where;
    }
  }
}
