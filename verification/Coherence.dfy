/**
 Exactly when a pass ends coherent.  The addition phase may point a CNAME at a host that does not own its
 address, and the removal phase repairs that where it drops the owner: the promotion re-points every host
 left at the address.
 */
module Coherence {
  import opened Types
  import opened StoreSpec
  import opened Reconcile
  import opened Addition
  import opened Attachment
  import opened Removal
  import opened Pass

  // ---------- the removal phase ----------

  /** Every wanted host points home, unless the owner of its address is not wanted. */
  ghost predicate OwnersPoint(dns: map<Host, Rec>, p: Plan, wanted: set<Host>) {
    forall h :: h in p.where && h in wanted && OwnerWanted(p, h, wanted) ==> PointsHome(dns, p, h)
  }

  predicate OwnerWanted(p: Plan, h: Host, wanted: set<Host>)
    requires h in p.where
  {
    p.where[h] in p.owner && p.owner[p.where[h]] in wanted
  }

  /** While the first owner of its address is there, a host's record is the one it started with; once the
      owner has been dropped, the host points home. */
  ghost predicate Routed(dns1: map<Host, Rec>, p1: Plan, dns: map<Host, Rec>, p: Plan) {
    forall h :: h in p.where ==> h in p1.where && p1.where[h] == p.where[h] && RoutedHost(dns1, p1, dns, p, h)
  }

  ghost predicate RoutedHost(dns1: map<Host, Rec>, p1: Plan, dns: map<Host, Rec>, p: Plan, h: Host)
    requires h in p.where
  {
    var ip := p.where[h];
    && ip in p.owner && ip in p1.owner
    && if p1.owner[ip] in p.where then
         p.owner[ip] == p1.owner[ip] && h in dns && h in dns1 && dns[h] == dns1[h]
       else
         PointsHome(dns, p, h)
  }

  lemma RoutedAfterPromotion(dns1: map<Host, Rec>, p1: Plan, dns: map<Host, Rec>, p: Plan, ip: Addr, host: Host,
      rest: set<Host>, newA: Host, netview: string, h: Host)
    requires PlanOK(p1) && PlanOK(p) && Routed(dns1, p1, dns, p) && p.where.Keys == dns.Keys
    requires host in p.where && p.where[host] == ip && p.owner[ip] == host
    requires rest == Mates(p.where, ip) - {host} && newA in rest
    requires h in p.where && h != host
    ensures RoutedHost(dns1, p1, Promoted(dns, rest, newA, host, ip, netview), Departed(p, ip, host, rest, newA), h)
  {
    assert RoutedHost(dns1, p1, dns, p, h) && RoutedHost(dns1, p1, dns, p, host);
  }

  lemma RoutedAfterDeletion(dns1: map<Host, Rec>, p1: Plan, dns: map<Host, Rec>, p: Plan, dns': map<Host, Rec>,
      ip: Addr, host: Host, rest: set<Host>, newA: Host, h: Host)
    requires PlanOK(p1) && PlanOK(p) && Routed(dns1, p1, dns, p) && p.where.Keys == dns.Keys
    requires host in p.where && p.where[host] == ip && (p.owner[ip] == host <==> rest == {})
    requires rest == Mates(p.where, ip) - {host} && dns' == dns - {host}
    requires h in p.where && h != host
    ensures RoutedHost(dns1, p1, dns', Departed(p, ip, host, rest, newA), h)
  {
    assert RoutedHost(dns1, p1, dns, p, h) && RoutedHost(dns1, p1, dns, p, host);
    assert p.where[h] == ip ==> h in rest;
  }

  /** One doomed host, whichever branch the loop takes. */
  lemma RoutedDrop(dns1: map<Host, Rec>, p1: Plan, s: Sys, homes: Homes, p: Plan, ip: Addr, host: Host, rest: set<Host>,
      newA: Host)
    requires PlanOK(p1) && Routed(dns1, p1, s.dns, p) && Leaving(s, homes, p, false, ip, host, rest, newA)
    requires At(s.st, ip, host) && At(s.st, ip, newA)
    ensures Routed(dns1, p1, Drop(s, homes, ip, host, rest, newA).dns, Departed(p, ip, host, rest, newA))
  {
    hide Routed, RoutedHost, PlanOK, Promoted, MarkA, DeletedA, DeletedC, Departed, Mates;
    LeavingAt(s, homes, p, false, ip, host, rest, newA);
    LeavingPlan(s, homes, p, ip, host, rest, newA);
    var dns', p' := Drop(s, homes, ip, host, rest, newA).dns, Departed(p, ip, host, rest, newA);
    DepartedKeys(p, ip, host, rest, newA);
    DroppedRecord(s, homes, p, ip, host, rest, newA);
    forall h | h in p'.where ensures RoutedHost(dns1, p1, dns', p', h) {
      if p.owner[ip] == host && rest != {} {
        RoutedAfterPromotion(dns1, p1, s.dns, p, ip, host, rest, newA, NetAt(s.st, ip).netview, h);
      } else {
        RoutedAfterDeletion(dns1, p1, s.dns, p, dns', ip, host, rest, newA, h);
      }
    }
    RoutedAll(dns1, p1, s.dns, p, dns', p', host);
  }

  lemma RoutedAll(dns1: map<Host, Rec>, p1: Plan, dns: map<Host, Rec>, p: Plan, dns': map<Host, Rec>, p': Plan,
      host: Host)
    requires Routed(dns1, p1, dns, p) && p'.where == p.where - {host}
    requires forall h :: h in p'.where ==> RoutedHost(dns1, p1, dns', p', h)
    ensures Routed(dns1, p1, dns', p')
  {
    hide RoutedHost;
  }

  lemma DepartedKeys(p: Plan, ip: Addr, host: Host, rest: set<Host>, newA: Host)
    ensures Departed(p, ip, host, rest, newA).where == p.where - {host}
  {
  }

  lemma LeavingPlan(s: Sys, homes: Homes, p: Plan, ip: Addr, host: Host, rest: set<Host>, newA: Host)
    requires Leaving(s, homes, p, false, ip, host, rest, newA)
    ensures PlanOK(p) && p.where.Keys == s.dns.Keys && rest == Mates(p.where, ip) - {host} &&
      (rest != {} ==> newA in rest)
    ensures host in p.where && p.where[host] == ip
  {
    forall h | h in p.where ensures p.where[h] in p.owner {
      assert Backed(s, p, h, false);
    }
  }

  /** The record that goes is the dropped host's own. */
  lemma DroppedRecord(s: Sys, homes: Homes, p: Plan, ip: Addr, host: Host, rest: set<Host>, newA: Host)
    requires Leaving(s, homes, p, false, ip, host, rest, newA)
    requires At(s.st, ip, host) && At(s.st, ip, newA)
    ensures ip in p.owner
    ensures Drop(s, homes, ip, host, rest, newA).dns ==
      if p.owner[ip] == host && rest != {} then Promoted(s.dns, rest, newA, host, ip, NetAt(s.st, ip).netview)
      else s.dns - {host}
  {
    assert Backed(s, p, host, false);
  }

  /** The system follows a plan for the hosts of where that routes them. */
  ghost predicate Routes(s: Sys, homes: Homes, where: map<Host, Addr>, dns1: map<Host, Rec>, p1: Plan) {
    exists p :: Follows(s, homes, p, false) && p.where == where && Routed(dns1, p1, s.dns, p)
  }

  lemma RoutesDrop(s: Sys, homes: Homes, where: map<Host, Addr>, dns1: map<Host, Rec>, p1: Plan, ip: Addr, host: Host,
      rest: set<Host>, newA: Host)
    requires Routes(s, homes, where, dns1, p1) && PlanOK(p1) && host in where && where[host] == ip
    requires rest == Mates(where, ip) - {host} && (if rest == {} then newA == host else newA in rest)
    ensures At(s.st, ip, host) && At(s.st, ip, newA)
    ensures Routes(Drop(s, homes, ip, host, rest, newA), homes, where - {host}, dns1, p1)
  {
    hide Routed, Drop, PlanOK;
    var p :| Follows(s, homes, p, false) && p.where == where && Routed(dns1, p1, s.dns, p);
    assert Leaving(s, homes, p, false, ip, host, rest, newA);
    DropFollows(s, homes, p, false, ip, host, rest, newA);
    RoutedDrop(dns1, p1, s, homes, p, ip, host, rest, newA);
    assert Departed(p, ip, host, rest, newA).where == where - {host};
  }

  lemma RoutesTurn(homes: Homes, w: Sweep, where: map<Host, Addr>, dns1: map<Host, Rec>, p1: Plan, dropped: set<Host>,
      ip: Addr, wanted: set<Host>, host: Host)
    requires Sweeping(w, homes, where - dropped, ip, false) && Routes(w.s, homes, where - dropped, dns1, p1) &&
      PlanOK(p1)
    requires host in Mates(where, ip) && host !in dropped
    ensures Routes(SweepHost(homes, w, ip, wanted, host).s, homes, where - (dropped + ({host} - wanted)), dns1, p1)
  {
    hide Tracks, Routes, Drop, Mates, PlanOK;
    if host in wanted {
      assert dropped + ({host} - wanted) == dropped;
    } else {
      SweepReady(w, homes, where, dropped, ip, host);
      var avail := Without(w.avail, host);
      NoElements(avail);
      assert avail != [] ==> avail[0] in Elements(avail);
      RoutesDrop(w.s, homes, where - dropped, dns1, p1, ip, host, Elements(avail), if avail ==
        [] then host else avail[0]);
      MinusTwice(where, dropped, {host});
      assert {host} - wanted == {host};
    }
  }

  lemma {:induction false} RoutesHosts(homes: Homes, w: Sweep, where: map<Host, Addr>, dns1: map<Host, Rec>, p1: Plan,
      ip: Addr, wanted: set<Host>, order: seq<Host>)
    requires Sweeping(w, homes, where, ip, false) && Routes(w.s, homes, where, dns1, p1) && PlanOK(p1)
    requires Distinct(order) && Elements(order) <= Mates(where, ip)
    ensures Routes(SweepHosts(homes, w, ip, wanted, order).s, homes, where - (Elements(order) - wanted), dns1, p1)
  {
    hide Tracks, Routes, Sweeping, PlanOK, SweepHost;
    if order == [] {
      assert where - (Elements(order) - wanted) == where;
    } else {
      var init, host := order[..|order| - 1], order[|order| - 1];
      SnocElements(order);
      RoutesHosts(homes, w, where, dns1, p1, ip, wanted, init);
      SweepHostsTrack(homes, w, where, ip, wanted, init, false);
      var dropped := Elements(init) - wanted;
      RoutesTurn(homes, SweepHosts(homes, w, ip, wanted, init), where, dns1, p1, dropped, ip, wanted, host);
      assert dropped + ({host} - wanted) == Elements(order) - wanted;
    }
  }

  lemma {:induction false} RoutesStore(homes: Homes, s: Sys, where: map<Host, Addr>, dns1: map<Host, Rec>, p1: Plan,
      wanted: set<Host>, visits: seq<Visit>)
    requires Tracks(s, homes, where, false) && Routes(s, homes, where, dns1, p1) && PlanOK(p1)
    requires DistinctAddresses(visits) && forall v :: v in visits ==> VisitsAll(where, v)
    ensures var w := SweepStore(homes, s, wanted, visits);
      Routes(w.s, homes, where - Elements(w.gone), dns1, p1)
  {
    hide Tracks, Routes, Sweeping, PlanOK, SweepHosts, VisitsAll, DoomedAt;
    if visits == [] {
      assert where - Elements(SweepStore(homes, s, wanted, []).gone) == where;
    } else {
      var init, v := visits[..|visits| - 1], visits[|visits| - 1];
      SnocVisits(visits);
      RoutesStore(homes, s, where, dns1, p1, wanted, init);
      SweepStoreTracks(homes, s, where, wanted, init, false);
      var w := SweepStore(homes, s, wanted, init);
      VisitSweeping(homes, w, where, wanted, v, Addresses(init));
      VisitDistinct(where, v);
      var w0, live := Sweep(w.s, v.avail, w.gone), where - Elements(w.gone);
      RoutesHosts(homes, w0, live, dns1, p1, v.ip, wanted, v.order);
      SweepHostsTrack(homes, w0, live, v.ip, wanted, v.order, false);
      MinusTwice(where, Elements(w.gone), Elements(v.order) - wanted);
    }
  }

  /** What is left of a routed plan points home exactly when its wanted hosts did. */
  lemma RoutedPointsIff(dns1: map<Host, Rec>, p1: Plan, dns: map<Host, Rec>, p: Plan, wanted: set<Host>)
    requires PlanOK(p1) && Routed(dns1, p1, dns, p) && p.where == p1.where - (p1.where.Keys - wanted)
    ensures Pointed(dns, p) <==> OwnersPoint(dns1, p1, wanted)
  {
    forall h | h in p.where
      ensures PointsHome(dns, p, h) <==> (OwnerWanted(p1, h, wanted) ==> PointsHome(dns1, p1, h))
    {
      assert RoutedHost(dns1, p1, dns, p, h);
    }
  }

  /** The removal phase, in any visiting order: it ends coherent if and only if every wanted host whose
      address's owner is wanted points at that owner. */
  lemma RemovePhaseCoherentIff(homes: Homes, s: Sys, p: Plan, wanted: set<Host>, visits: seq<Visit>)
    requires Settled(s, homes, p, false) && SweepOrder(s.st, p.where, visits)
    ensures Coherent(RemovePhase(homes, s, wanted, visits), homes) <==> OwnersPoint(s.dns, p, wanted)
  {
    hide Follows, SweepStore, DeleteHosts, Routed, OwnersPoint, PlanOK, Filed, Pointed;
    FiledMeans(s, homes, p, false);
    SettledPlanOK(s, homes, p, false);
    RoutedStart(s, homes, p);
    SweepStoreTracks(homes, s, p.where, wanted, visits, false);
    RoutesStore(homes, s, p.where, s.dns, p, wanted, visits);
    var w := SweepStore(homes, s, wanted, visits);
    var gone, s' := Elements(w.gone), RemovePhase(homes, s, wanted, visits);
    AllDoomed(s, p, wanted, visits);
    var p' :| Follows(w.s, homes, p', false) && p'.where == p.where - gone && Routed(s.dns, p, w.s.dns, p');
    SameHostsFiled(s.st, w.s.st, p.where);
    DeleteHostsIsRestriction(w.s.st, w.gone);
    RestrictSettles(w.s, homes, p.where, gone, DeleteHosts(w.s.st, w.gone), p', false);
    RoutedPointsIff(s.dns, p, w.s.dns, p', wanted);
    CoherentIffPointed(s', homes, p');
  }

  lemma RoutedStart(s: Sys, homes: Homes, p: Plan)
    requires Settled(s, homes, p, false)
    ensures Tracks(s, homes, p.where, false) && Routes(s, homes, p.where, s.dns, p)
  {
    hide Backed;
    SettledPlanOK(s, homes, p, false);
    assert Routed(s.dns, p, s.dns, p);
  }

  lemma AllDoomed(s: Sys, p: Plan, wanted: set<Host>, visits: seq<Visit>)
    requires Filed(s.st, p.where) && SweepOrder(s.st, p.where, visits)
    ensures DoomedAt(p.where, wanted, Addresses(visits)) == p.where.Keys - wanted
  {
    hide DistinctAddresses, VisitsAll;
    forall h | h in p.where ensures p.where[h] in Addresses(visits) {
      assert At(s.st, p.where[h], h);
    }
  }

  /** A sound system is coherent exactly when its one plan is pointed. */
  lemma CoherentIffPointed(s: Sys, homes: Homes, p: Plan)
    requires Settled(s, homes, p, false)
    ensures Coherent(s, homes) <==> Pointed(s.dns, p)
  {
    hide Settled, Pointed;
    SettledStrict(s, homes, p);
    if q :| Settled(s, homes, q, true) {
      SettledStrict(s, homes, q);
      PlanUnique(s, homes, p, q);
    }
  }

  // ---------- the addition phase ----------

  /** The address at which the loop stands when it reaches place i of a list: that of the last host before i
      that was stored, or the fresh one.  A new host met a second time brings back where it was put. */
  function Landing(where: map<Host, Addr>, hosts: seq<Host>, i: nat): Option<Addr>
    requires i <= |hosts|
  {
    if i == 0 then None
    else if hosts[i - 1] in where then Some(where[hosts[i - 1]])
    else Landing(where, hosts, IndexIn(hosts, i - 1))
  }

  /** The first place of the host at place i. */
  function IndexIn(hosts: seq<Host>, i: nat): (j: nat)
    requires i < |hosts|
    ensures j <= i && hosts[j] == hosts[i] && hosts[i] !in Prefix(hosts, j)
  {
    var j := IndexOf(hosts, hosts[i]);
    FirstPlace(hosts, i);
    j
  }

  lemma FirstPlace(hosts: seq<Host>, i: nat)
    requires i < |hosts|
    ensures IndexOf(hosts, hosts[i]) <= i && hosts[i] !in Prefix(hosts, IndexOf(hosts, hosts[i]))
  {
    var j := IndexOf(hosts, hosts[i]);
    forall k | 0 <= k < j ensures hosts[k] != hosts[i] {
      assert hosts[..j][k] == hosts[k];
    }
  }

  function Landed(where: map<Host, Addr>, hosts: seq<Host>, i: nat, next: Addr): Addr
    requires i <= |hosts|
  {
    match Landing(where, hosts, i)
    case None => next
    case Some(a) => a
  }

  /** A new host at place i will point home, or its address's owner is about to be dropped. */
  predicate Aims(p: Plan, u: Unit, wanted: set<Host>, i: nat)
    requires i < |u.hosts|
  {
    match Landing(p.where, u.hosts, i)
    case None => true
    case Some(a) => a in p.owner ==> p.owner[a] == u.hosts[0] || p.owner[a] !in wanted
  }

  ghost predicate FittingTo(p: Plan, u: Unit, wanted: set<Host>, n: nat)
    requires n <= |u.hosts|
  {
    forall i :: 0 < i < n && IsNew(p, u, i) ==> Aims(p, u, wanted, i)
  }

  /** The condition on a unit, decided on the store before the pass: every new host behind the first lands
      on an address owned by the unit's first host or by a host nobody wants. */
  ghost predicate Fitting(p: Plan, u: Unit, wanted: set<Host>) {
    FittingTo(p, u, wanted, |u.hosts|)
  }

  /** The hosts placed so far are where they landed. */
  ghost predicate AsLanded(p: Plan, w: PlanWalk, u: Unit, next: Addr, n: nat)
    requires n <= |u.hosts|
  {
    && w.cur == Landed(p.where, u.hosts, n, next)
    && forall i :: 0 <= i < n && IsNew(p, u, i) ==>
      u.hosts[i] in w.p.where && w.p.where[u.hosts[i]] == Landed(p.where, u.hosts, i, next)
  }

  lemma {:induction false} PlanHostsLanded(p: Plan, u: Unit, next: Addr, n: nat)
    requires PlanOK(p) && next !in p.owner && n <= |u.hosts|
    ensures AsLanded(p, PlanHosts(p, u, next, n), u, next, n)
  {
    hide PlanOK, Placed, AsLanded;
    if n == 0 {
      NothingLanded(p, u, next);
    } else {
      PlanHostsLanded(p, u, next, n - 1);
      PlanHostsPlaced(p, u, next, n - 1);
      LandedStep(p, PlanHosts(p, u, next, n - 1), u, next, n - 1);
    }
  }

  lemma NothingLanded(p: Plan, u: Unit, next: Addr)
    ensures AsLanded(p, PlanWalk(p, next, false), u, next, 0)
  {
  }

  lemma LandedStep(p: Plan, w: PlanWalk, u: Unit, next: Addr, n: nat)
    requires PlanOK(p) && next !in p.owner && n < |u.hosts|
    requires Placed(p, w, u, next, n) && AsLanded(p, w, u, next, n)
    ensures AsLanded(p, PlacePlan(w, u.hosts[n], u.hosts[0], next), u, next, n + 1)
  {
    hide Prefix, PlanOK;
    PrefixStep(u.hosts, n);
    var host, j := u.hosts[n], IndexIn(u.hosts, n);
    if host !in p.where && j < n {
      assert IsNew(p, u, j);
      InPrefix(u.hosts, j, n);
    } else if host !in p.where {
      assert j == n;
    }
  }

  lemma InPrefix(hosts: seq<Host>, j: nat, n: nat)
    requires j < n <= |hosts|
    ensures hosts[j] in Prefix(hosts, n)
  {
  }

  lemma {:induction false} LandingOwned(p: Plan, hosts: seq<Host>, i: nat)
    requires PlanOK(p) && i <= |hosts|
    ensures Landing(p.where, hosts, i).Some? ==> Landing(p.where, hosts, i).value in p.owner
    ensures i > 0 && Landing(p.where, hosts, i).None? ==> hosts[0] !in p.where
  {
    if i > 0 && hosts[i - 1] !in p.where {
      LandingOwned(p, hosts, IndexIn(hosts, i - 1));
    }
  }

  lemma PointWithOneMore(dns: map<Host, Rec>, p: Plan, wanted: set<Host>, host: Host, rec: Rec, p': Plan)
    requires PlanOK(p) && host !in p.where
    requires p'.where.Keys == p.where.Keys + {host}
    requires forall h :: h in p.where ==> p'.where[h] == p.where[h]
    requires forall ip :: ip in p.owner ==> ip in p'.owner && p'.owner[ip] == p.owner[ip]
    ensures OwnersPoint(dns[host := rec], p', wanted) <==>
      OwnersPoint(dns, p, wanted) &&
        (host in wanted && OwnerWanted(p', host, wanted) ==> PointsHome(dns[host := rec], p', host))
  {
    forall h | h in p.where
      ensures PointsHome(dns[host := rec], p', h) <==> PointsHome(dns, p, h)
      ensures OwnerWanted(p', h, wanted) <==> OwnerWanted(p, h, wanted)
    {
    }
  }

  /** One turn of the loop over a unit's hosts. */
  lemma PointTurn(homes: Homes, p: Plan, u: Unit, next: Addr, wanted: set<Host>, n: nat, w: Walk, pw: PlanWalk)
    requires PlanOK(p) && next !in p.owner && "" !in homes && n < |u.hosts| && Elements(u.hosts) <= wanted
    requires InStep(w, pw, homes, next) && Placed(p, pw, u, next, n) && AsLanded(p, pw, u, next, n)
    ensures var w', pw' := Place(w, u.hosts[n], u.hosts[0], next, u.net), PlacePlan(pw, u.hosts[n], u.hosts[0], next);
      OwnersPoint(w'.s.dns, pw'.p, wanted) <==>
        OwnersPoint(w.s.dns, pw.p, wanted) && (n > 0 && IsNew(p, u, n) ==> Aims(p, u, wanted, n))
  {
    hide InStep, Prefix, OwnersPoint, Place, Landing;
    var host, first := u.hosts[n], u.hosts[0];
    assert host in Elements(u.hosts) && first in Elements(u.hosts);
    PrefixStep(u.hosts, n);
    PlaceDns(w, pw, homes, host, first, next, u.net);
    LandingOwned(p, u.hosts, n);
    if host !in pw.p.where {
      var pw' := PlacePlan(pw, host, first, next);
      PointWithOneMore(w.s.dns, pw.p, wanted, host, if host ==
        first then ARec(next, u.net.netview) else CRec(first, u.net.netview), pw'.p);
    }
  }

  lemma {:induction false} PointHostsIff(homes: Homes, s: Sys, p: Plan, u: Unit, next: Addr, wanted: set<Host>, n: nat)
    requires Settled(s, homes, p, false) && "" !in homes && n <= |u.hosts| && Elements(u.hosts) <= wanted
    requires Available(homes, s, Turn(u, next)) && SameNet(homes, p.where, u)
    ensures OwnersPoint(PlaceHosts(s, u, next, n).s.dns, PlanHosts(p, u, next, n).p, wanted) <==>
      OwnersPoint(s.dns, p, wanted) && FittingTo(p, u, wanted, n)
  {
    hide Settled, OwnersPoint, Place, PlacePlan, Placed, InStep, AsLanded, Aims, IsNew, SameNet;
    SettledPlanOK(s, homes, p, false);
    if n > 0 {
      PointHostsIff(homes, s, p, u, next, wanted, n - 1);
      PlaceHostsInStep(homes, s, p, u, next, n - 1);
      PlanHostsPlaced(p, u, next, n - 1);
      PlanHostsLanded(p, u, next, n - 1);
      PointTurn(homes, p, u, next, wanted, n - 1, PlaceHosts(s, u, next, n - 1), PlanHosts(p, u, next, n - 1));
    }
  }

  lemma UnitPointsIff(homes: Homes, s: Sys, p: Plan, u: Unit, next: Addr, wanted: set<Host>)
    requires Settled(s, homes, p, false) && "" !in homes && Elements(u.hosts) <= wanted
    requires Available(homes, s, Turn(u, next)) && SameNet(homes, p.where, u)
    ensures OwnersPoint(AddUnit(homes, s, u, next).dns, PlanUnit(p, u, next), wanted) <==>
      OwnersPoint(s.dns, p, wanted) && Fitting(p, u, wanted)
  {
    hide Settled, OwnersPoint, PlaceHosts, PlanHosts, FittingTo, SameNet;
    PointHostsIff(homes, s, p, u, next, wanted, |u.hosts|);
  }

  lemma TurnPointsIff(homes: Homes, s: Sys, p: Plan, t: Turn, all: seq<Turn>, wanted: set<Host>)
    requires Settled(s, homes, p, false) && "" !in homes && Elements(t.unit.hosts) <= wanted
    requires Available(homes, s, t) && NetsAgree(homes, p.where, all) && t in all
    ensures OwnersPoint(AddUnit(homes, s, t.unit, t.next).dns, PlanUnit(p, t.unit, t.next), wanted) <==>
      OwnersPoint(s.dns, p, wanted) && Fitting(p, t.unit, wanted)
  {
    hide Settled, OwnersPoint, AddUnit, PlanUnit, Fitting;
    UnitPointsIff(homes, s, p, t.unit, t.next, wanted);
  }

  lemma {:induction false} LandingStable(p: Plan, p': Plan, u: Unit, i: nat)
    requires AgreeOn(p, p', u) && i <= |u.hosts|
    ensures Landing(p'.where, u.hosts, i) == Landing(p.where, u.hosts, i)
  {
    if i > 0 {
      assert u.hosts[i - 1] in u.hosts;
      if u.hosts[i - 1] !in p.where {
        LandingStable(p, p', u, IndexIn(u.hosts, i - 1));
      }
    }
  }

  lemma FittingStable(p: Plan, p': Plan, u: Unit, wanted: set<Host>)
    requires PlanOK(p) && AgreeOn(p, p', u)
    ensures Fitting(p', u, wanted) <==> Fitting(p, u, wanted)
  {
    hide Prefix, PlanOK, Landing;
    forall i | 0 < i < |u.hosts|
      ensures IsNew(p', u, i) <==> IsNew(p, u, i)
      ensures Aims(p', u, wanted, i) <==> Aims(p, u, wanted, i)
    {
      assert u.hosts[i] in u.hosts;
      LandingStable(p, p', u, i);
      LandingOwned(p, u.hosts, i);
    }
  }

  /** Every unit fits the store its turn finds. */
  ghost predicate FittingInTurn(p: Plan, turns: seq<Turn>, wanted: set<Host>) {
    turns != [] ==>
      var init, t := turns[..|turns| - 1], turns[|turns| - 1];
      FittingInTurn(p, init, wanted) && Fitting(PlanPhase(p, init), t.unit, wanted)
  }

  /** The addition phase, in any order, over units that may share hosts. */
  lemma {:induction false} AddPhasePointsIff(homes: Homes, s: Sys, p: Plan, turns: seq<Turn>, all: seq<Turn>,
      wanted: set<Host>)
    requires Settled(s, homes, p, false) && "" !in homes
    requires AllAvailable(homes, s, turns) && NetsAgree(homes, p.where, all)
    requires (forall t :: t in turns ==> t in all) && HostsOf(turns) <= wanted
    ensures OwnersPoint(AddPhase(homes, s, turns).dns, PlanPhase(p, turns), wanted) <==>
      OwnersPoint(s.dns, p, wanted) && FittingInTurn(p, turns, wanted)
  {
    hide Settled, Extends, NetsAgree, PlanOK, HostsOf, AddUnit, PlanUnit, Fitting, OwnersPoint;
    if turns != [] {
      var init, t := turns[..|turns| - 1], turns[|turns| - 1];
      SnocTurns(turns);
      AddPhasePointsIff(homes, s, p, init, all, wanted);
      AddPhaseSettles(homes, s, p, init, all);
      var mid := PlanPhase(p, init);
      NetsStillAgree(homes, p, mid, init, all);
      TurnPointsIff(homes, AddPhase(homes, s, init), mid, t, all, wanted);
    }
  }

  /** When no two units share a host, the store before the phase decides for all of them. */
  lemma {:induction false} DisjointFitting(homes: Homes, s: Sys, p: Plan, turns: seq<Turn>, all: seq<Turn>,
      wanted: set<Host>)
    requires Settled(s, homes, p, false) && "" !in homes
    requires AllAvailable(homes, s, turns) && NetsAgree(homes, p.where, all) && DisjointUnits(turns)
    requires forall t :: t in turns ==> t in all
    ensures FittingInTurn(p, turns, wanted) <==> forall t :: t in turns ==> Fitting(p, t.unit, wanted)
  {
    hide Settled, Extends, NetsAgree, PlanOK, HostsOf, AddUnit, PlanUnit, DisjointUnits, Fitting;
    if turns != [] {
      var init, t := turns[..|turns| - 1], turns[|turns| - 1];
      SnocTurns(turns);
      DisjointPrefix(turns);
      DisjointFitting(homes, s, p, init, all, wanted);
      AddPhaseSettles(homes, s, p, init, all);
      SettledPlanOK(s, homes, p, false);
      ExtendsAgrees(homes, p, PlanPhase(p, init), init, t.unit);
      FittingStable(p, PlanPhase(p, init), t.unit, wanted);
    }
  }

  // ---------- whole passes ----------

  /** A pass over any units, for all addresses and orders: it ends coherent if and only if the wanted hosts at
      addresses whose owner stays pointed home before it, and every unit fits the store its turn finds. */
  lemma PassCoherentIff(homes: Homes, s: Sys, p: Plan, turns: seq<Turn>, visits: seq<Visit>)
    requires Settled(s, homes, p, false) && "" !in homes
    requires Possible(homes, s, turns, visits) && NetsAgree(homes, p.where, turns)
    ensures Coherent(RunPass(homes, s, turns, visits), homes) <==>
      OwnersPoint(s.dns, p, HostsOf(turns)) && FittingInTurn(p, turns, HostsOf(turns))
  {
    hide AddPhase, PlanPhase, RemovePhase, HostsOf, Follows, AllAvailable, RangeOrder, NetsAgree, FittingInTurn,
      OwnersPoint, Coherent;
    var s1, p1 := AddPhase(homes, s, turns), PlanPhase(p, turns);
    AddPhaseSettles(homes, s, p, turns, turns);
    AddPhasePointsIff(homes, s, p, turns, turns, HostsOf(turns));
    RangeIsSweep(s1.st, p1.where, visits);
    RemovePhaseCoherentIff(homes, s1, p1, HostsOf(turns), visits);
  }

  lemma CoherentPoints(s: Sys, homes: Homes, p: Plan, wanted: set<Host>)
    requires Settled(s, homes, p, true)
    ensures OwnersPoint(s.dns, p, wanted)
  {
    SettledStrict(s, homes, p);
  }

  /** From a coherent system, only the units matter; when no two of them share a host, only they and the store
      before the pass. */
  lemma PassKeepsCoherentIff(homes: Homes, s: Sys, p: Plan, turns: seq<Turn>, visits: seq<Visit>)
    requires Settled(s, homes, p, true) && "" !in homes
    requires Possible(homes, s, turns, visits) && NetsAgree(homes, p.where, turns)
    ensures Coherent(RunPass(homes, s, turns, visits), homes) <==> FittingInTurn(p, turns, HostsOf(turns))
    ensures DisjointUnits(turns) ==>
      (FittingInTurn(p, turns, HostsOf(turns)) <==> forall t :: t in turns ==> Fitting(p, t.unit, HostsOf(turns)))
  {
    hide RunPass, HostsOf, NetsAgree, DisjointUnits, Fitting, FittingInTurn, OwnersPoint, Coherent, RangeOrder, Settled;
    SettledStrict(s, homes, p);
    CoherentPoints(s, homes, p, HostsOf(turns));
    PassCoherentIff(homes, s, p, turns, visits);
    if DisjointUnits(turns) { DisjointFitting(homes, s, p, turns, turns, HostsOf(turns)); }
  }
}
