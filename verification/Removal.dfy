/**
 The removal phase of a pass: the store is swept while its record types change under the loop, hosts
 promoted earlier may be doomed and visited later, and the doomed hosts leave the store at the end.
 The order in which Go visits a map is a parameter: every statement holds for every order.
 */
module Removal {
  import opened Types
  import opened StoreSpec
  import opened Reconcile

  /** The loop's running state at one address: availHosts and toRemove beside the system itself. */
  datatype Sweep = Sweep(s: Sys, avail: seq<Host>, gone: seq<Host>)

  /** One address as the loop meets it: the order mapKeys lists its hosts in, and the order they are
      visited in. */
  datatype Visit = Visit(ip: Addr, avail: seq<Host>, order: seq<Host>)

  /** One turn of the inner loop.  The hosts it is given are always filed under ip, which is what the
      two lookups in the guard say. */
  function SweepHost(homes: Homes, w: Sweep, ip: Addr, wanted: set<Host>, host: Host): Sweep {
    var avail := Without(w.avail, host);
    var newA := if avail == [] then host else avail[0];
    if host !in wanted && At(w.s.st, ip, host) && At(w.s.st, ip, newA) then
      Sweep(Drop(w.s, homes, ip, host, Elements(avail), newA), avail, w.gone + [host])
    else
      w
  }

  function SweepHosts(homes: Homes, w: Sweep, ip: Addr, wanted: set<Host>, order: seq<Host>): Sweep {
    if order == [] then w
    else SweepHost(homes, SweepHosts(homes, w, ip, wanted, order[..|order| - 1]), ip, wanted, order[|order| - 1])
  }

  /** The outer loop. */
  function SweepStore(homes: Homes, s: Sys, wanted: set<Host>, visits: seq<Visit>): Sweep {
    if visits == [] then Sweep(s, [], [])
    else
      var w, v := SweepStore(homes, s, wanted, visits[..|visits| - 1]), visits[|visits| - 1];
      SweepHosts(homes, Sweep(w.s, v.avail, w.gone), v.ip, wanted, v.order)
  }

  /** The whole removal phase. */
  ghost function RemovePhase(homes: Homes, s: Sys, wanted: set<Host>, visits: seq<Visit>): Sys {
    var w := SweepStore(homes, s, wanted, visits);
    w.s.(st := DeleteHosts(w.s.st, w.gone))
  }

  /** A visit lists every host of its address once, in two orders of its own. */
  ghost predicate VisitsAll(where: map<Host, Addr>, v: Visit) {
    && Distinct(v.avail) && Elements(v.avail) == Mates(where, v.ip)
    && Distinct(v.order) && Elements(v.order) == Mates(where, v.ip)
  }

  function Addresses(visits: seq<Visit>): set<Addr> {
    set v | v in visits :: v.ip
  }

  ghost predicate DistinctAddresses(visits: seq<Visit>) {
    forall i, j :: 0 <= i < j < |visits| ==> visits[i].ip != visits[j].ip
  }

  /** The visits a range over the store's two levels of maps can make. */
  ghost predicate SweepOrder(st: StoreVal, where: map<Host, Addr>, visits: seq<Visit>) {
    && DistinctAddresses(visits) && Addresses(visits) == st.records.Keys
    && forall v :: v in visits ==> VisitsAll(where, v)
  }

  /** The system follows some plan for exactly the hosts of where. */
  ghost predicate Tracks(s: Sys, homes: Homes, where: map<Host, Addr>, strict: bool) {
    exists p :: Follows(s, homes, p, strict) && p.where == where
  }

  lemma MatesMinus(where: map<Host, Addr>, gone: set<Host>, ip: Addr)
    ensures Mates(where - gone, ip) == Mates(where, ip) - gone
  {
  }

  lemma MinusTwice(where: map<Host, Addr>, a: set<Host>, b: set<Host>)
    ensures where - a - b == where - (a + b)
  {
  }

  lemma DropTracks(s: Sys, homes: Homes, where: map<Host, Addr>, strict: bool, ip: Addr, host: Host, rest: set<Host>,
      newA: Host)
    requires Tracks(s, homes, where, strict) && host in where && where[host] == ip
    requires rest == Mates(where, ip) - {host} && (if rest == {} then newA == host else newA in rest)
    ensures At(s.st, ip, host) && At(s.st, ip, newA)
    ensures var s' := Drop(s, homes, ip, host, rest, newA);
      Tracks(s', homes, where - {host}, strict) && SameHosts(s.st, s'.st)
  {
    var p :| Follows(s, homes, p, strict) && p.where == where;
    assert Leaving(s, homes, p, strict, ip, host, rest, newA);
    DropFollows(s, homes, p, strict, ip, host, rest, newA);
    assert Departed(p, ip, host, rest, newA).where == where - {host};
  }

  /** Mid-loop at one address: the hosts whose records still exist are exactly the available ones, so
      they hold exactly one A record while there are any. */
  ghost predicate Sweeping(w: Sweep, homes: Homes, where: map<Host, Addr>, ip: Addr, strict: bool) {
    Tracks(w.s, homes, where, strict) && Distinct(w.avail) && Elements(w.avail) == Mates(where, ip)
  }

  /** One turn on a doomed host. */
  lemma SweepDoomed(homes: Homes, w: Sweep, where: map<Host, Addr>, ip: Addr, wanted: set<Host>, host: Host,
      strict: bool)
    requires Sweeping(w, homes, where, ip, strict) && host in where && where[host] == ip && host !in wanted
    ensures var w' := SweepHost(homes, w, ip, wanted, host);
      && Sweeping(w', homes, where - {host}, ip, strict) && SameHosts(w.s.st, w'.s.st)
      && w'.gone == w.gone + [host]
  {
    var avail := Without(w.avail, host);
    WithoutDistinct(w.avail, host);
    var rest, newA := Elements(avail), if avail == [] then host else avail[0];
    assert avail != [] ==> avail[0] in rest;
    DropTracks(w.s, homes, where, strict, ip, host, rest, newA);
    MatesMinus(where, {host}, ip);
  }

  /** One turn: the record of the host met goes exactly when the host is doomed. */
  lemma SweepTurn(homes: Homes, w: Sweep, where: map<Host, Addr>, dropped: set<Host>, ip: Addr, wanted: set<Host>,
      host: Host, strict: bool)
    requires Sweeping(w, homes, where - dropped, ip, strict)
    requires host in Mates(where, ip) && host !in dropped
    ensures var w' := SweepHost(homes, w, ip, wanted, host);
      && Sweeping(w', homes, where - (dropped + ({host} - wanted)), ip, strict) && SameHosts(w.s.st, w'.s.st)
      && Elements(w'.gone) == Elements(w.gone) + ({host} - wanted)
  {
    hide Tracks, SameHosts;
    SameHostsSame(w.s.st);
    if host in wanted {
      assert dropped + ({host} - wanted) == dropped;
    } else {
      SweepDoomed(homes, w, where - dropped, ip, wanted, host, strict);
      MinusTwice(where, dropped, {host});
      assert {host} - wanted == {host};
      assert Elements(w.gone + [host]) == Elements(w.gone) + {host};
    }
  }

  /** The inner loop, after any prefix of any order. */
  lemma {:induction false} SweepHostsTrack(homes: Homes, w: Sweep, where: map<Host, Addr>, ip: Addr,
      wanted: set<Host>, order: seq<Host>, strict: bool)
    requires Sweeping(w, homes, where, ip, strict)
    requires Distinct(order) && Elements(order) <= Mates(where, ip)
    ensures var w', dropped := SweepHosts(homes, w, ip, wanted, order), Elements(order) - wanted;
      && Sweeping(w', homes, where - dropped, ip, strict) && SameHosts(w.s.st, w'.s.st)
      && Elements(w'.gone) == Elements(w.gone) + dropped
  {
    hide Tracks, SameHosts;
    SameHostsSame(w.s.st);
    if order == [] {
      assert where - (Elements(order) - wanted) == where;
    } else {
      var init, host := order[..|order| - 1], order[|order| - 1];
      SnocElements(order);
      SweepHostsTrack(homes, w, where, ip, wanted, init, strict);
      var mid, dropped := SweepHosts(homes, w, ip, wanted, init), Elements(init) - wanted;
      SweepTurn(homes, mid, where, dropped, ip, wanted, host, strict);
      assert dropped + ({host} - wanted) == Elements(order) - wanted;
      SameHostsTrans(w.s.st, mid.s.st, SweepHosts(homes, w, ip, wanted, order).s.st);
    }
  }

  /** The outer loop, after any prefix of any order: gone lists the doomed hosts of the addresses visited. */
  lemma {:induction false} SweepStoreTracks(homes: Homes, s: Sys, where: map<Host, Addr>, wanted: set<Host>,
      visits: seq<Visit>, strict: bool)
    requires Tracks(s, homes, where, strict)
    requires DistinctAddresses(visits) && forall v :: v in visits ==> VisitsAll(where, v)
    ensures var w := SweepStore(homes, s, wanted, visits);
      && Tracks(w.s, homes, where - Elements(w.gone), strict) && SameHosts(s.st, w.s.st)
      && Elements(w.gone) == DoomedAt(where, wanted, Addresses(visits))
  {
    if visits == [] {
      assert where - {} == where;
      assert DoomedAt(where, wanted, Addresses(visits)) == {};
    } else {
      var init, v := visits[..|visits| - 1], visits[|visits| - 1];
      SnocVisits(visits);
      SweepStoreTracks(homes, s, where, wanted, init, strict);
      var w := SweepStore(homes, s, wanted, init);
      var gone := Elements(w.gone);
      SweepVisitTracks(homes, w, where, wanted, v, strict, Addresses(init));
    }
  }

  function DoomedAt(where: map<Host, Addr>, wanted: set<Host>, ips: set<Addr>): set<Host> {
    set h | h in where && h !in wanted && where[h] in ips
  }

  lemma SnocVisits(visits: seq<Visit>)
    requires visits != [] && DistinctAddresses(visits)
    ensures var init, v := visits[..|visits| - 1], visits[|visits| - 1];
      DistinctAddresses(init) && Addresses(visits) == Addresses(init) + {v.ip} && v.ip !in Addresses(init)
    ensures forall v :: v in visits[..|visits| - 1] ==> v in visits
  {
    assert visits == visits[..|visits| - 1] + [visits[|visits| - 1]];
  }

  lemma SweepVisitTracks(homes: Homes, w: Sweep, where: map<Host, Addr>, wanted: set<Host>, v: Visit, strict: bool,
      before: set<Addr>)
    requires Tracks(w.s, homes, where - Elements(w.gone), strict)
    requires Elements(w.gone) == DoomedAt(where, wanted, before) && v.ip !in before && VisitsAll(where, v)
    ensures var w' := SweepHosts(homes, Sweep(w.s, v.avail, w.gone), v.ip, wanted, v.order);
      && Tracks(w'.s, homes, where - Elements(w'.gone), strict) && SameHosts(w.s.st, w'.s.st)
      && Elements(w'.gone) == DoomedAt(where, wanted, before + {v.ip})
  {
    hide Tracks, SameHosts;
    var gone, dropped := Elements(w.gone), Elements(v.order) - wanted;
    var live := where - gone;
    MatesMinus(where, gone, v.ip);
    assert Mates(where, v.ip) - gone == Mates(where, v.ip);
    SweepHostsTrack(homes, Sweep(w.s, v.avail, w.gone), live, v.ip, wanted, v.order, strict);
    MinusTwice(where, gone, dropped);
    assert gone + dropped == DoomedAt(where, wanted, before + {v.ip});
  }

  lemma FiledMeans(s: Sys, homes: Homes, p: Plan, strict: bool)
    requires Settled(s, homes, p, strict)
    ensures WellShaped(s.st) && HostOnce(s.st)
  {
    forall ip | ip in s.st.records ensures s.st.records[ip] != map[] {
      assert At(s.st, ip, p.owner[ip]);
    }
  }

  lemma SameHostsFiled(st: StoreVal, st': StoreVal, where: map<Host, Addr>)
    requires SameHosts(st, st') && Filed(st, where) && WellShaped(st)
    ensures Filed(st', where) && WellShaped(st') && HostOnce(st')
  {
    forall ip | ip in st'.records ensures st'.records[ip] != map[] {
      HasHost(st, ip);
      var h :| At(st, ip, h);
      assert At(st', ip, h);
    }
  }

  lemma RestrictBacked(s: Sys, fin: StoreVal, gone: set<Host>, p: Plan, h: Host, strict: bool)
    requires h in p.where && h !in gone && Backed(s, p, h, strict)
    requires Restricts(s.st, fin, gone)
    ensures Backed(s.(st := fin), p, h, strict)
  {
    assert At(fin, p.where[h], h);
  }

  lemma BackedFiled(s: Sys, p: Plan, where: map<Host, Addr>, gone: set<Host>, strict: bool)
    requires forall h :: h in p.where ==> Backed(s, p, h, strict)
    requires forall ip :: ip in p.owner ==> p.owner[ip] in p.where && p.where[p.owner[ip]] == ip
    requires WellShaped(s.st)
    requires p.where == where - gone && forall ip, h :: At(s.st, ip, h) ==> h in where && where[h] == ip && h !in gone
    ensures Filed(s.st, p.where) && s.st.records.Keys == p.owner.Keys
  {
    forall h | h in p.where ensures At(s.st, p.where[h], h) && p.where[h] in p.owner {
      assert Backed(s, p, h, strict);
    }
    forall ip | ip in s.st.records ensures ip in p.owner {
      HasHost(s.st, ip);
      var h :| At(s.st, ip, h);
      assert h in p.where && p.where[h] == ip;
    }
  }

  /** After the doomed hosts leave the store it holds exactly the hosts that still have records. */
  lemma RestrictSettles(s: Sys, homes: Homes, where: map<Host, Addr>, gone: set<Host>, fin: StoreVal, p: Plan,
      strict: bool)
    requires Follows(s, homes, p, strict) && p.where == where - gone && Filed(s.st, where)
    requires Restricts(s.st, fin, gone)
    ensures Settled(s.(st := fin), homes, p, strict)
  {
    hide Backed, NetAt;
    var s' := s.(st := fin);
    forall h | h in p.where ensures Backed(s', p, h, strict) {
      RestrictBacked(s, fin, gone, p, h, strict);
    }
    BackedFiled(s', p, where, gone, strict);
  }

  /** The removal phase, in any visiting order: it leaves exactly the wanted hosts, each where it was,
      and store, records and reservations still agree, even when promoted hosts were removed later. */
  lemma RemovePhaseSettles(homes: Homes, s: Sys, p: Plan, wanted: set<Host>, visits: seq<Visit>, strict: bool)
    requires Settled(s, homes, p, strict) && SweepOrder(s.st, p.where, visits)
    ensures exists p' :: (
      && Settled(RemovePhase(homes, s, wanted, visits), homes, p', strict)
      && p'.where == p.where - (p.where.Keys - wanted))
  {
    hide Follows, SweepStore, DeleteHosts;
    FiledMeans(s, homes, p, strict);
    SweepStoreTracks(homes, s, p.where, wanted, visits, strict);
    var w := SweepStore(homes, s, wanted, visits);
    var gone := Elements(w.gone);
    assert gone == p.where.Keys - wanted by {
      forall h | h in p.where ensures p.where[h] in Addresses(visits) {
        assert At(s.st, p.where[h], h);
      }
    }
    var p' :| Follows(w.s, homes, p', strict) && p'.where == p.where - gone;
    SameHostsFiled(s.st, w.s.st, p.where);
    DeleteHostsIsRestriction(w.s.st, w.gone);
    RestrictSettles(w.s, homes, p.where, gone, DeleteHosts(w.s.st, w.gone), p', strict);
  }

  // ---------- what the loop may rely on ----------

  /** The address of a host with a record is reserved in the network the store has for it. */
  lemma TracksHits(s: Sys, homes: Homes, where: map<Host, Addr>, h: Host)
    requires Tracks(s, homes, where, false) && h in where
    ensures Hits(s.reserved, homes, where[h], NetAt(s.st, where[h]))
  {
    var p :| Follows(s, homes, p, false) && p.where == where;
    assert Backed(s, p, h, false);
  }


  lemma FollowsAt(s: Sys, homes: Homes, p: Plan, h: Host)
    requires Follows(s, homes, p, false) && h in p.where
    ensures At(s.st, p.where[h], h)
  {
    assert Backed(s, p, h, false);
  }

  lemma TracksAt(s: Sys, homes: Homes, where: map<Host, Addr>, h: Host)
    requires Tracks(s, homes, where, false) && h in where
    ensures At(s.st, where[h], h)
  {
    hide Follows;
    var p :| Follows(s, homes, p, false) && p.where == where;
    FollowsAt(s, homes, p, h);
  }

  /** What the loop may rely on when it meets a host it has not met before. */
  lemma SweepReady(w: Sweep, homes: Homes, where: map<Host, Addr>, dropped: set<Host>, ip: Addr, host: Host)
    requires Sweeping(w, homes, where - dropped, ip, false)
    requires host in Mates(where, ip) && host !in dropped
    ensures var avail, live := Without(w.avail, host), where - dropped;
      && Distinct(avail) && Elements(avail) == Mates(live, ip) - {host}
      && host in live && live[host] == ip && At(w.s.st, ip, host)
      && (avail != [] ==> At(w.s.st, ip, avail[0]))
      && Tracks(w.s, homes, live, false)
  {
    hide Tracks;
    WithoutDistinct(w.avail, host);
    var avail, live := Without(w.avail, host), where - dropped;
    TracksAt(w.s, homes, live, host);
    if avail != [] {
      assert avail[0] in Elements(avail);
      TracksAt(w.s, homes, live, avail[0]);
    }
  }

  lemma UndoomedMates(where: map<Host, Addr>, wanted: set<Host>, ips: set<Addr>, ip: Addr)
    requires ip !in ips
    ensures Mates(where, ip) - DoomedAt(where, wanted, ips) == Mates(where, ip)
  {
  }

  lemma MatesAt(st: StoreVal, where: map<Host, Addr>, ip: Addr)
    requires Filed(st, where) && ip in st.records
    ensures Mates(where, ip) == st.records[ip].Keys
  {
    forall h ensures h in Mates(where, ip) <==> h in st.records[ip].Keys {
      assert At(st, ip, h) <==> h in st.records[ip];
    }
  }

  lemma SweptShape(homes: Homes, s: Sys, p: Plan, wanted: set<Host>, visits: seq<Visit>)
    requires Settled(s, homes, p, false)
    requires DistinctAddresses(visits) && forall v :: v in visits ==> VisitsAll(p.where, v)
    ensures var w := SweepStore(homes, s, wanted, visits);
      SameHosts(s.st, w.s.st) && WellShaped(w.s.st) && HostOnce(w.s.st)
  {
    hide Follows, SweepStore;
    FiledMeans(s, homes, p, false);
    SweepStoreTracks(homes, s, p.where, wanted, visits, false);
    SameHostsFiled(s.st, SweepStore(homes, s, wanted, visits).s.st, p.where);
  }

  lemma VisitSweeping(homes: Homes, w: Sweep, where: map<Host, Addr>, wanted: set<Host>, v: Visit, before: set<Addr>)
    requires Tracks(w.s, homes, where - Elements(w.gone), false)
    requires Elements(w.gone) == DoomedAt(where, wanted, before) && v.ip !in before && VisitsAll(where, v)
    ensures Sweeping(Sweep(w.s, v.avail, w.gone), homes, where - Elements(w.gone), v.ip, false)
    ensures Elements(v.order) <= Mates(where - Elements(w.gone), v.ip)
  {
    hide Tracks;
    MatesMinus(where, Elements(w.gone), v.ip);
    UndoomedMates(where, wanted, before, v.ip);
  }

  lemma VisitDistinct(where: map<Host, Addr>, v: Visit)
    requires VisitsAll(where, v)
    ensures Distinct(v.order)
  {
  }
}
