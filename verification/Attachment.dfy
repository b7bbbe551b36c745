/**
 When the first phase of a pass keeps every CNAME pointing at the A record of its own address: exactly
 when each new host of a unit follows a host at the address of the unit's first host, and the first
 host, if it is stored, holds the A record there.
 */
module Attachment {
  import opened Types
  import opened StoreSpec
  import opened Reconcile
  import opened Addition

  /** Every CNAME's canonical name owns the address the CNAME is stored under. */
  ghost predicate Pointed(dns: map<Host, Rec>, p: Plan) {
    forall h :: h in p.where ==> PointsHome(dns, p, h)
  }

  ghost predicate PointsHome(dns: map<Host, Rec>, p: Plan, h: Host)
    requires h in p.where
  {
    p.where[h] in p.owner && h != p.owner[p.where[h]] ==>
      h in dns && dns[h].CRec? && dns[h].canonical == p.owner[p.where[h]]
  }

  lemma SettledStrict(s: Sys, homes: Homes, p: Plan)
    ensures Settled(s, homes, p, true) <==> Settled(s, homes, p, false) && Pointed(s.dns, p)
  {
    hide KeysAgree, InNetwork, Filed;
    if Settled(s, homes, p, true) {
      forall h | h in p.where ensures Backed(s, p, h, false) && PointsHome(s.dns, p, h) {
        assert Backed(s, p, h, true);
      }
    }
    if Settled(s, homes, p, false) && Pointed(s.dns, p) {
      forall h | h in p.where ensures Backed(s, p, h, true) {
        assert Backed(s, p, h, false) && PointsHome(s.dns, p, h);
      }
    }
  }

  /** A system follows at most one plan. */
  lemma PlanUnique(s: Sys, homes: Homes, p: Plan, p': Plan)
    requires Settled(s, homes, p, false) && Settled(s, homes, p', false)
    ensures p == p'
  {
    hide KeysAgree, InNetwork, HasCname, NetAt;
    forall h | h in p.where ensures p'.where[h] == p.where[h] {
      assert Backed(s, p, h, false);
    }
    assert p.where == p'.where;
    forall ip | ip in p.owner ensures p.owner[ip] == p'.owner[ip] {
      assert Backed(s, p, p.owner[ip], false);
      assert Backed(s, p', p.owner[ip], false);
    }
    assert p.owner == p'.owner;
  }

  /** Host i of the unit is new: neither stored nor listed before. */
  ghost predicate IsNew(p: Plan, u: Unit, i: nat)
    requires i < |u.hosts|
  {
    u.hosts[i] !in p.where && u.hosts[i] !in Prefix(u.hosts, i)
  }

  /** The host before host i is at the first host's address, where the first host holds the A record. */
  ghost predicate Follower(p: Plan, u: Unit, i: nat)
    requires 0 < i < |u.hosts|
  {
    var first, prev := u.hosts[0], u.hosts[i - 1];
    && (prev in p.where ==> first in p.where && p.where[first] == p.where[prev])
    && (first in p.where ==> p.where[first] in p.owner && p.owner[p.where[first]] == first)
  }

  ghost predicate AttachableTo(p: Plan, u: Unit, n: nat)
    requires n <= |u.hosts|
  {
    forall i :: 0 < i < n && IsNew(p, u, i) ==> Follower(p, u, i)
  }

  /** The condition on one unit, decided on the store before the pass. */
  ghost predicate Attachable(p: Plan, u: Unit) {
    AttachableTo(p, u, |u.hosts|)
  }

  /** The new hosts placed so far are at the first host's address. */
  ghost predicate AtHome(p: Plan, w: PlanWalk, u: Unit, n: nat)
    requires n <= |u.hosts|
  {
    forall h :: h in Prefix(u.hosts, n) && h !in p.where && h in w.p.where && u.hosts[0] in w.p.where ==>
      w.p.where[h] == w.p.where[u.hosts[0]]
  }

  /** The address a new host is put at belongs to the first host exactly when the condition holds of it. */
  lemma OwnerIsFirst(p: Plan, w: PlanWalk, u: Unit, next: Addr, n: nat)
    requires PlanOK(p) && next !in p.owner && 0 < n < |u.hosts|
    requires Placed(p, w, u, next, n) && AtHome(p, w, u, n)
    ensures w.cur in w.p.owner && (w.p.owner[w.cur] == u.hosts[0] <==> Follower(p, u, n))
  {
    hide Prefix;
    PrefixStep(u.hosts, n);
  }

  lemma PointedWithOneMore(dns: map<Host, Rec>, p: Plan, host: Host, rec: Rec, p': Plan)
    requires PlanOK(p) && host !in p.where
    requires p'.where.Keys == p.where.Keys + {host}
    requires forall h :: h in p.where ==> p'.where[h] == p.where[h]
    requires forall ip :: ip in p.owner ==> ip in p'.owner && p'.owner[ip] == p.owner[ip]
    ensures Pointed(dns[host := rec], p') <==> Pointed(dns, p) && PointsHome(dns[host := rec], p', host)
  {
    forall h | h in p.where ensures PointsHome(dns[host := rec], p', h) <==> PointsHome(dns, p, h) {
    }
  }

  lemma PlaceDns(w: Walk, pw: PlanWalk, homes: Homes, host: Host, first: Host, next: Addr, net: Net)
    requires InStep(w, pw, homes, next) && "" !in homes
    ensures Place(w, host, first, next, net).s.dns ==
      if host in pw.p.where then w.s.dns
      else w.s.dns[host := if host == first then ARec(next, net.netview) else CRec(first, net.netview)]
    ensures w.cur == pw.cur && (w.used <==> next in pw.p.owner)
  {
    hide Filed, AddRecord, Backed;
    NoEmptyAddress(Base(w, next), homes, pw.p);
    IpOfPlan(w.s.st, pw.p.where, host);
  }

  /** A turn that files no CNAME elsewhere keeps what was pointed, and never repairs what was not. */
  lemma PointedStep(w: Walk, pw: PlanWalk, homes: Homes, host: Host, first: Host, next: Addr, net: Net)
    requires InStep(w, pw, homes, next) && PlanOK(pw.p) && "" !in homes
    requires host !in pw.p.where ==> if host == first then !w.used && w.cur == next else w.cur in pw.p.owner
    ensures var w', pw' := Place(w, host, first, next, net), PlacePlan(pw, host, first, next);
      Pointed(w'.s.dns, pw'.p) <==>
        Pointed(w.s.dns, pw.p) && (host !in pw.p.where && host != first ==> pw.p.owner[w.cur] == first)
  {
    hide InStep, Pointed, Place;
    PlaceDns(w, pw, homes, host, first, next, net);
    var pw' := PlacePlan(pw, host, first, next);
    if host !in pw.p.where {
      PointedWithOneMore(w.s.dns, pw.p, host,
        if host == first then ARec(next, net.netview) else CRec(first, net.netview), pw'.p);
    }
  }

  /** The whole unit: either the condition holds so far and everything new is pointed and at the first
      host's address, or some new CNAME points astray, and stays so. */
  lemma {:induction false} PointedIff(homes: Homes, s: Sys, p: Plan, u: Unit, next: Addr, n: nat)
    requires Settled(s, homes, p, false) && "" !in homes && n <= |u.hosts|
    requires Available(homes, s, Turn(u, next)) && SameNet(homes, p.where, u)
    ensures Pointed(PlaceHosts(s, u, next, n).s.dns, PlanHosts(p, u, next, n).p) <==>
      Pointed(s.dns, p) && AttachableTo(p, u, n)
    ensures AttachableTo(p, u, n) ==> AtHome(p, PlanHosts(p, u, next, n), u, n)
  {
    hide Settled, Prefix, Pointed, Place, PlacePlan, Placed, InStep;
    SettledPlanOK(s, homes, p, false);
    PrefixStep(u.hosts, n);
    if n > 0 {
      PointedIff(homes, s, p, u, next, n - 1);
      PlaceHostsInStep(homes, s, p, u, next, n - 1);
      PlanHostsPlaced(p, u, next, n - 1);
      PointedTurn(homes, p, u, next, n - 1, PlaceHosts(s, u, next, n - 1), PlanHosts(p, u, next, n - 1));
      AttachableSplit(p, u, n);
    }
  }

  lemma AttachableSplit(p: Plan, u: Unit, n: nat)
    requires 0 < n <= |u.hosts|
    ensures AttachableTo(p, u, n) <==>
      AttachableTo(p, u, n - 1) && (n > 1 && IsNew(p, u, n - 1) ==> Follower(p, u, n - 1))
  {
    hide IsNew, Follower;
  }

  lemma PointedTurn(homes: Homes, p: Plan, u: Unit, next: Addr, n: nat, w: Walk, pw: PlanWalk)
    requires PlanOK(p) && next !in p.owner && "" !in homes && n < |u.hosts|
    requires InStep(w, pw, homes, next) && Placed(p, pw, u, next, n)
    ensures var w', pw' := Place(w, u.hosts[n], u.hosts[0], next, u.net), PlacePlan(pw, u.hosts[n], u.hosts[0], next);
      && (AtHome(p, pw, u, n) ==>
        (Pointed(w'.s.dns, pw'.p) <==> Pointed(w.s.dns, pw.p) && (n > 0 && IsNew(p, u, n) ==> Follower(p, u, n))))
      && (!Pointed(w.s.dns, pw.p) ==> !Pointed(w'.s.dns, pw'.p))
      && (AtHome(p, pw, u, n) && (n > 0 && IsNew(p, u, n) ==> Follower(p, u, n)) ==> AtHome(p, pw', u, n + 1))
  {
    hide Settled, Prefix, Pointed;
    PrefixStep(u.hosts, n);
    PointedStep(w, pw, homes, u.hosts[n], u.hosts[0], next, u.net);
    if n > 0 && AtHome(p, pw, u, n) {
      OwnerIsFirst(p, pw, u, next, n);
    }
  }

  /** Processing one unit from a coherent state keeps it coherent if and only if the unit is attachable. */
  lemma UnitCoherentIff(homes: Homes, s: Sys, p: Plan, u: Unit, next: Addr)
    requires Settled(s, homes, p, false) && "" !in homes
    requires Available(homes, s, Turn(u, next)) && SameNet(homes, p.where, u)
    ensures Settled(AddUnit(homes, s, u, next), homes, PlanUnit(p, u, next), true) <==>
      Settled(s, homes, p, true) && Attachable(p, u)
  {
    hide Settled, Pointed;
    AddUnitSettles(homes, s, p, u, next);
    PointedIff(homes, s, p, u, next, |u.hosts|);
    SettledStrict(s, homes, p);
    SettledStrict(AddUnit(homes, s, u, next), homes, PlanUnit(p, u, next));
  }
}
