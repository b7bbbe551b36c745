/**
 Passes of a client that may lack references.  After a restart recordRef is empty, and CNAMEToA gives up on
 every host it has no reference to: the A record is deleted, the address released, and the store marks
 the empty name as the A host.
 */
module Lossy {
  import opened Types
  import opened StoreSpec
  import opened Reconcile
  import opened RecordTable
  import opened Addition
  import opened Attachment
  import opened Removal
  import opened Pass

  /** The system, the names recordRef does not lead to, and whether every release so far gave back an
      address that was reserved at that moment. */
  datatype Memory = Memory(s: Sys, lost: set<Host>, clean: bool)

  /** Lines 198-212 of controller.go, whatever references there are: avail are the hosts left at the
      address. */
  function LossyDrop(homes: Homes, m: Memory, ip: Addr, host: Host, avail: seq<Host>): Memory
    requires At(m.s.st, ip, host)
  {
    var s, net := m.s, NetAt(m.s.st, ip);
    match s.st.records[ip][host]
    case A =>
      if avail == [] then
        Memory(Sys(s.st, DeletedA(s.dns, homes, host, ip, net), Released(s.reserved, homes, ip, net)),
               m.lost, m.clean && Hits(s.reserved, homes, ip, net))
      else if host in m.lost || host == "" then
        Memory(Sys(MarkA(s.st, ip, ""), DeletedA(s.dns, homes, host, ip, net), Released(s.reserved, homes, ip, net)),
               m.lost, m.clean && Hits(s.reserved, homes, ip, net))
      else
        var n := Reach(avail, m.lost, 1);
        Memory(Sys(MarkA(s.st, ip, if n == |avail| then avail[0] else ""),
                   Promoted(s.dns, Elements(avail[..n]), avail[0], host, ip, net.netview), s.reserved),
               m.lost - {avail[0]}, m.clean)
    case CNAME =>
      Memory(Sys(s.st, DeletedC(s.dns, homes, host, ip, net), s.reserved), m.lost, m.clean)
  }

  datatype LossySweep = LossySweep(m: Memory, avail: seq<Host>, gone: seq<Host>) {
    function Plain(): Sweep { Sweep(m.s, avail, gone) }
  }

  function LossySweepHost(homes: Homes, w: LossySweep, ip: Addr, wanted: set<Host>, host: Host): LossySweep {
    if host !in wanted && At(w.m.s.st, ip, host) then
      var avail := Without(w.avail, host);
      LossySweep(LossyDrop(homes, w.m, ip, host, avail), avail, w.gone + [host])
    else
      w
  }

  function LossySweepHosts(homes: Homes, w: LossySweep, ip: Addr, wanted: set<Host>, order: seq<Host>): LossySweep {
    if order == [] then w
    else LossySweepHost(homes, LossySweepHosts(homes, w, ip, wanted, order[..|order| - 1]), ip, wanted,
      order[|order| - 1])
  }

  function LossySweepStore(homes: Homes, m: Memory, wanted: set<Host>, visits: seq<Visit>): LossySweep {
    if visits == [] then LossySweep(m, [], [])
    else
      var w, v := LossySweepStore(homes, m, wanted, visits[..|visits| - 1]), visits[|visits| - 1];
      LossySweepHosts(homes, LossySweep(w.m, v.avail, w.gone), v.ip, wanted, v.order)
  }

  /** The removal phase: the sweep, then the dropped hosts leave the store.  The empty name may be filed
      under several addresses, so it matters which one a scan finds first.  A name without a record is no
      longer missed. */
  ghost predicate LossyRemoval(homes: Homes, m: Memory, wanted: set<Host>, visits: seq<Visit>, m': Memory) {
    var w := LossySweepStore(homes, m, wanted, visits);
    && Deletes(w.m.s.st, w.gone, m'.s.st)
    && m' == Memory(Sys(m'.s.st, w.m.s.dns, w.m.s.reserved), w.m.lost * w.m.s.dns.Keys, w.m.clean)
  }

  /** A whole pass can lead from m to m': the addition phase keeps a reference to every record it makes. */
  ghost predicate LossyPass(homes: Homes, m: Memory, turns: seq<Turn>, visits: seq<Visit>, m': Memory) {
    LossyRemoval(homes, m.(s := AddPhase(homes, m.s, turns)), HostsOf(turns), visits, m')
  }

  /** A pass can be made from any state, in any order. */
  lemma SomePass(homes: Homes, m: Memory, turns: seq<Turn>, visits: seq<Visit>)
    ensures exists m' :: LossyPass(homes, m, turns, visits, m')
  {
    hide Deletes, LossySweepStore, AddPhase;
    var w := LossySweepStore(homes, m.(s := AddPhase(homes, m.s, turns)), HostsOf(turns), visits);
    DeletesSomehow(w.m.s.st, w.gone);
    var st' :| Deletes(w.m.s.st, w.gone, st');
    assert LossyPass(homes, m, turns, visits,
      Memory(Sys(st', w.m.s.dns, w.m.s.reserved), w.m.lost * w.m.s.dns.Keys, w.m.clean));
  }

  /** A range over the store while the loop may file the empty name: each address once; each of its hosts
      once, and the entry for the empty name perhaps, since a range may or may not produce an entry created
      while it runs. */
  ghost predicate LooseRange(st: StoreVal, visits: seq<Visit>) {
    && DistinctAddresses(visits) && Addresses(visits) == st.records.Keys
    && forall v :: v in visits ==> LooseVisit(st, v)
  }

  ghost predicate LooseVisit(st: StoreVal, v: Visit) {
    && v.ip in st.records
    && Distinct(v.avail) && Elements(v.avail) == st.records[v.ip].Keys
    && Distinct(v.order) && st.records[v.ip].Keys <= Elements(v.order) <= st.records[v.ip].Keys + {""}
  }

  /** The visits without the empty name. */
  function Named(v: Visit): Visit {
    Visit(v.ip, v.avail, Without(v.order, ""))
  }

  function NamedAll(visits: seq<Visit>): seq<Visit> {
    seq(|visits|, i requires 0 <= i < |visits| => Named(visits[i]))
  }

  // ---------- when nothing that is needed is lost ----------

  /** No promotion at the address will miss a reference: the A host stays, has no mates, or is at an
      address of which no name is lost. */
  ghost predicate Recalled(st: StoreVal, lost: set<Host>, wanted: set<Host>, ip: Addr, o: Host) {
    || o in wanted
    || (forall h :: At(st, ip, h) ==> h == o)
    || (forall h :: At(st, ip, h) ==> h !in lost)
  }

  ghost predicate Unbroken(st: StoreVal, lost: set<Host>, wanted: set<Host>) {
    forall ip, o :: AHost(st, ip, o) ==> Recalled(st, lost, wanted, ip, o)
  }

  /** An address whose A host has a reference has one for every host: so it is after a restart, when all
      are lost, and so it stays. */
  ghost predicate Uniform(st: StoreVal, lost: set<Host>) {
    forall ip, o, h :: AHost(st, ip, o) && At(st, ip, h) && h in lost ==> o in lost
  }

  lemma {:induction false} ReachesAll(avail: seq<Host>, lost: set<Host>, i: nat)
    requires i <= |avail| && forall h :: h in avail ==> h !in lost
    ensures Reach(avail, lost, i) == |avail|
    decreases |avail| - i
  {
    if i < |avail| {
      assert avail[i] in avail;
      ReachesAll(avail, lost, i + 1);
    }
  }

  /** One doomed host, with enough references: the promotion goes through, and a release hits. */
  lemma RecalledDrop(homes: Homes, m: Memory, wanted: set<Host>, ip: Addr, host: Host, avail: seq<Host>)
    requires Unbroken(m.s.st, m.lost, wanted) && At(m.s.st, ip, host) && host !in wanted && host != ""
    requires forall h :: h in avail ==> At(m.s.st, ip, h) && h != host
    requires Hits(m.s.reserved, homes, ip, NetAt(m.s.st, ip))
    ensures var newA, m' := if avail == [] then host else avail[0], LossyDrop(homes, m, ip, host, avail);
      && At(m.s.st, ip, newA) && m'.s == Drop(m.s, homes, ip, host, Elements(avail), newA)
      && Unbroken(m'.s.st, m'.lost, wanted) && m'.clean == m.clean && m'.lost <= m.lost
      && (Uniform(m.s.st, m.lost) ==> Uniform(m'.s.st, m'.lost))
  {
    hide Unbroken, Uniform;
    NoElements(avail);
    var m' := LossyDrop(homes, m, ip, host, avail);
    if m.s.st.records[ip][host] == A && avail != [] {
      assert avail[0] in avail;
      NoneLost(m, wanted, ip, host, avail[0]);
      ReachesAll(avail, m.lost, 1);
      assert avail[..|avail|] == avail;
      PromotionUnbroken(m.s.st, m.lost, wanted, ip, avail[0]);
    }
  }

  /** A promotion that stops at the host in place n, the first without a reference: the hosts before it lead to the
      new A host, those from there on keep a CNAME to the host that is gone, the address stays reserved, and the
      store files the empty name as A host. */
  lemma PartialDrop(homes: Homes, m: Memory, ip: Addr, host: Host, avail: seq<Host>, n: nat)
    requires AHost(m.s.st, ip, host) && host != "" && host !in m.lost && "" !in avail
    requires Promotable(m.s.dns, homes, avail, host, ip, NetAt(m.s.st, ip))
    requires 0 < n < |avail| && avail[n] in m.lost && forall i :: 0 < i < n ==> avail[i] !in m.lost
    ensures var m', view := LossyDrop(homes, m, ip, host, avail), NetAt(m.s.st, ip).netview;
      && host !in m'.s.dns
      && avail[0] in m'.s.dns && m'.s.dns[avail[0]] == ARec(ip, view)
      && (forall i :: 0 < i < n ==> avail[i] in m'.s.dns && m'.s.dns[avail[i]] == CRec(avail[0], view))
      && (forall i :: n <= i < |avail| ==> avail[i] in m'.s.dns && m'.s.dns[avail[i]] == m.s.dns[avail[i]])
      && m'.s.reserved == m.s.reserved && m'.lost == m.lost - {avail[0]}
      && AHost(m'.s.st, ip, "") && forall h :: h != "" && At(m.s.st, ip, h) ==>
          At(m'.s.st, ip, h) && m'.s.st.records[ip][h] == m.s.st.records[ip][h]
  {
    ReachStops(avail, m.lost, 1, n);
    forall i | 0 <= i < |avail| ensures avail[i] in Elements(avail[..n]) <==> i < n {
      if i < n { assert avail[..n][i] == avail[i]; }
    }
    forall i | 0 <= i < |avail| ensures HasCname(m.s.dns, avail[i], NetAt(m.s.st, ip).netview) && avail[i] != host {
      assert avail[i] in avail;
    }
  }

  lemma {:induction false} ReachStops(avail: seq<Host>, lost: set<Host>, i: nat, n: nat)
    requires i <= n < |avail| && avail[n] in lost && forall k :: i <= k < n ==> avail[k] !in lost
    ensures Reach(avail, lost, i) == n
    decreases n - i
  {
    if i < n { ReachStops(avail, lost, i + 1, n); }
  }

  lemma NoneLost(m: Memory, wanted: set<Host>, ip: Addr, host: Host, mate: Host)
    requires Unbroken(m.s.st, m.lost, wanted) && AHost(m.s.st, ip, host) && host !in wanted
    requires At(m.s.st, ip, mate) && mate != host
    ensures forall h :: At(m.s.st, ip, h) ==> h !in m.lost
  {
    assert Recalled(m.s.st, m.lost, wanted, ip, host);
  }

  lemma PromotionUnbroken(st: StoreVal, lost: set<Host>, wanted: set<Host>, ip: Addr, newA: Host)
    requires Unbroken(st, lost, wanted) && At(st, ip, newA) && forall h :: At(st, ip, h) ==> h !in lost
    ensures Unbroken(MarkA(st, ip, newA), lost - {newA}, wanted)
    ensures Uniform(st, lost) ==> Uniform(MarkA(st, ip, newA), lost - {newA})
  {
    MarkAKeepsHosts(st, ip, newA);
    var st', lost' := MarkA(st, ip, newA), lost - {newA};
    forall ip', o | AHost(st', ip', o) ensures Recalled(st', lost', wanted, ip', o) {
      if ip' != ip { assert Recalled(st, lost, wanted, ip', o); }
    }
  }

  lemma AvailFiled(w: Sweep, homes: Homes, where: map<Host, Addr>, dropped: set<Host>, ip: Addr, host: Host)
    requires Sweeping(w, homes, where - dropped, ip, false)
    requires host in Mates(where, ip) && host !in dropped
    ensures At(w.s.st, ip, host) && Hits(w.s.reserved, homes, ip, NetAt(w.s.st, ip))
    ensures forall h :: h in Without(w.avail, host) ==> At(w.s.st, ip, h) && h != host
  {
    hide Tracks, Hits;
    var avail, live := Without(w.avail, host), where - dropped;
    SweepReady(w, homes, where, dropped, ip, host);
    TracksHits(w.s, homes, live, host);
    forall h | h in avail ensures At(w.s.st, ip, h) && h != host {
      assert h in Elements(avail);
      TracksAt(w.s, homes, live, h);
    }
  }

  /** What a sweep with enough references keeps beside doing what the specification says. */
  ghost predicate Remembering(m: Memory, m': Memory, wanted: set<Host>) {
    && Unbroken(m'.s.st, m'.lost, wanted) && m'.clean == m.clean && m'.lost <= m.lost
    && (Uniform(m.s.st, m.lost) ==> Uniform(m'.s.st, m'.lost))
  }

  lemma RecalledTurn(homes: Homes, w: LossySweep, where: map<Host, Addr>, dropped: set<Host>, ip: Addr,
      wanted: set<Host>, host: Host)
    requires Sweeping(w.Plain(), homes, where - dropped, ip, false) && "" !in where
    requires host in Mates(where, ip) && host !in dropped && Unbroken(w.m.s.st, w.m.lost, wanted)
    ensures var w' := LossySweepHost(homes, w, ip, wanted, host);
      w'.Plain() == SweepHost(homes, w.Plain(), ip, wanted, host) && Remembering(w.m, w'.m, wanted)
  {
    hide Sweeping, Unbroken, Uniform, LossyDrop, Drop, Hits;
    AvailFiled(w.Plain(), homes, where, dropped, ip, host);
    if host !in wanted {
      RecalledDrop(homes, w.m, wanted, ip, host, Without(w.avail, host));
    }
  }

  /** The inner range, whose order may hold the empty name. */
  lemma {:induction false} RecalledHosts(homes: Homes, w: LossySweep, where: map<Host, Addr>, ip: Addr,
      wanted: set<Host>, order: seq<Host>)
    requires Sweeping(w.Plain(), homes, where, ip, false) && "" !in where && !At(w.m.s.st, ip, "")
    requires Unbroken(w.m.s.st, w.m.lost, wanted)
    requires Distinct(order) && Elements(order) <= Mates(where, ip) + {""}
    ensures var w' := LossySweepHosts(homes, w, ip, wanted, order);
      w'.Plain() == SweepHosts(homes, w.Plain(), ip, wanted, Without(order, "")) && Remembering(w.m, w'.m, wanted)
  {
    hide Sweeping, Unbroken, Uniform, LossySweepHost, SweepHost, SameHosts, Mates;
    if order != [] {
      var init, host := order[..|order| - 1], order[|order| - 1];
      SnocElements(order);
      NamedPrefix(order, where, ip);
      RecalledHosts(homes, w, where, ip, wanted, init);
      var named := Without(init, "");
      SweepHostsTrack(homes, w.Plain(), where, ip, wanted, named, false);
      var mid := LossySweepHosts(homes, w, ip, wanted, init);
      StillNamed(w.m.s.st, mid.m.s.st, ip);
      if host == "" {
        NoEmptyTurn(homes, mid, ip, wanted);
      } else {
        RecalledTurn(homes, mid, where, Elements(named) - wanted, ip, wanted, host);
        assert (named + [host])[..|named|] == named;
      }
    }
  }

  lemma NamedPrefix(order: seq<Host>, where: map<Host, Addr>, ip: Addr)
    requires order != [] && Distinct(order) && Elements(order) <= Mates(where, ip) + {""} && "" !in where
    ensures var init, host := order[..|order| - 1], order[|order| - 1];
      var named := Without(init, "");
      && Distinct(named) && Elements(named) <= Mates(where, ip)
      && (if host == "" then Without(order, "") == named
          else Without(order, "") == named + [host] && host in Mates(where, ip) && host !in Elements(named))
  {
    hide Mates;
    var init, host := order[..|order| - 1], order[|order| - 1];
    assert order == init + [host];
    SnocElements(order);
    WithoutSnoc(init, host, "");
    WithoutDistinct(init, "");
    if "" !in init { WithoutAbsent(init, ""); }
    assert host in Elements(order);
    assert "" in init <==> "" in Elements(init);
  }

  lemma StillNamed(st: StoreVal, st': StoreVal, ip: Addr)
    requires SameHosts(st, st') && !At(st, ip, "")
    ensures !At(st', ip, "")
  {
  }

  lemma NoEmptyTurn(homes: Homes, w: LossySweep, ip: Addr, wanted: set<Host>)
    requires !At(w.m.s.st, ip, "")
    ensures LossySweepHost(homes, w, ip, wanted, "") == w
  {
  }

  ghost predicate LooseVisits(where: map<Host, Addr>, v: Visit) {
    && Distinct(v.avail) && Elements(v.avail) == Mates(where, v.ip)
    && Distinct(v.order) && Mates(where, v.ip) <= Elements(v.order) <= Mates(where, v.ip) + {""}
  }

  lemma NamedVisits(where: map<Host, Addr>, v: Visit)
    requires LooseVisits(where, v) && "" !in where
    ensures VisitsAll(where, Named(v))
  {
    WithoutDistinct(v.order, "");
  }

  lemma NamedSnoc(visits: seq<Visit>)
    requires visits != []
    ensures var named := NamedAll(visits);
      && named != [] && named[..|named| - 1] == NamedAll(visits[..|visits| - 1])
      && named[|named| - 1] == Named(visits[|visits| - 1])
  {
  }

  lemma NamedDistinct(where: map<Host, Addr>, visits: seq<Visit>)
    requires DistinctAddresses(visits) && "" !in where && forall v :: v in visits ==> LooseVisits(where, v)
    ensures DistinctAddresses(NamedAll(visits)) && Addresses(NamedAll(visits)) == Addresses(visits)
    ensures forall v :: v in NamedAll(visits) ==> VisitsAll(where, v)
  {
    hide VisitsAll, LooseVisits;
    var named := NamedAll(visits);
    forall v | v in named ensures VisitsAll(where, v) {
      var i :| 0 <= i < |named| && named[i] == v;
      NamedVisits(where, visits[i]);
    }
    forall ip | ip in Addresses(visits) ensures ip in Addresses(named) {
      var i :| 0 <= i < |visits| && visits[i].ip == ip;
      assert named[i] in named && named[i].ip == ip;
    }
    forall ip | ip in Addresses(named) ensures ip in Addresses(visits) {
      var i :| 0 <= i < |named| && named[i].ip == ip;
      assert visits[i] in visits && visits[i].ip == ip;
    }
  }

  lemma {:induction false} RecalledStore(homes: Homes, m: Memory, where: map<Host, Addr>, wanted: set<Host>,
      visits: seq<Visit>)
    requires Tracks(m.s, homes, where, false) && "" !in where && Unbroken(m.s.st, m.lost, wanted)
    requires forall ip :: !At(m.s.st, ip, "")
    requires DistinctAddresses(visits) && forall v :: v in visits ==> LooseVisits(where, v)
    ensures var w := LossySweepStore(homes, m, wanted, visits);
      w.Plain() == SweepStore(homes, m.s, wanted, NamedAll(visits)) && Remembering(m, w.m, wanted)
  {
    hide Tracks, Unbroken, Uniform, SweepHosts, LossySweepHosts, DoomedAt, VisitsAll, LooseVisits, SameHosts;
    if visits != [] {
      var init, v := visits[..|visits| - 1], visits[|visits| - 1];
      NamedSnoc(visits);
      SnocVisits(visits);
      RecalledStore(homes, m, where, wanted, init);
      NamedDistinct(where, init);
      SweepStoreTracks(homes, m.s, where, wanted, NamedAll(init), false);
      var w := LossySweepStore(homes, m, wanted, init);
      NamedVisits(where, v);
      VisitSweeping(homes, w.Plain(), where, wanted, Named(v), Addresses(init));
      StillNamed(m.s.st, w.m.s.st, v.ip);
      LooseOrder(where, Elements(w.gone), v);
      RecalledHosts(homes, LossySweep(w.m, v.avail, w.gone), where - Elements(w.gone), v.ip, wanted, v.order);
    }
  }

  lemma LooseOrder(where: map<Host, Addr>, gone: set<Host>, v: Visit)
    requires LooseVisits(where, v) && "" !in where && Elements(Named(v).order) <= Mates(where - gone, v.ip)
    ensures Distinct(v.order) && Elements(v.order) <= Mates(where - gone, v.ip) + {""} && "" !in where - gone
  {
    hide Mates;
    WithoutDistinct(v.order, "");
  }

  /** The A host of an address is the plan's owner. */
  lemma AHostOwns(s: Sys, homes: Homes, p: Plan, ip: Addr, h: Host)
    requires Settled(s, homes, p, false) && At(s.st, ip, h)
    ensures h in p.where && p.where[h] == ip && ip in p.owner && h in s.dns
    ensures s.st.records[ip][h] == A <==> h == p.owner[ip]
  {
    assert Backed(s, p, h, false);
  }

  /** The addition phase breaks no address: new hosts join addresses that have a wanted host, and their
      names have references. */
  lemma UnbrokenAfterAdd(homes: Homes, s: Sys, p: Plan, s1: Sys, p1: Plan, turns: seq<Turn>, lost: set<Host>)
    requires Settled(s, homes, p, false) && Settled(s1, homes, p1, false)
    requires Extends(homes, p, p1, turns) && Grounded(p, p1, HostsOf(turns))
    requires Unbroken(s.st, lost, HostsOf(turns)) && lost <= s.dns.Keys
    ensures Unbroken(s1.st, lost, HostsOf(turns))
  {
    hide Follows, HostsOf, PlanOK, Recalled, Unbroken;
    var wanted := HostsOf(turns);
    forall ip, o | AHost(s1.st, ip, o) && o !in wanted ensures Recalled(s1.st, lost, wanted, ip, o) {
      AHostOwns(s1, homes, p1, ip, o);
      assert o in p.where;
      assert At(s.st, ip, o);
      AHostOwns(s, homes, p, ip, o);
      StillRecalled(homes, s, p, s1, p1, turns, lost, ip, o);
    }
    WantedUnbroken(s1.st, lost, wanted);
  }

  lemma WantedUnbroken(st: StoreVal, lost: set<Host>, wanted: set<Host>)
    requires forall ip, o :: AHost(st, ip, o) && o !in wanted ==> Recalled(st, lost, wanted, ip, o)
    ensures Unbroken(st, lost, wanted)
  {
  }

  lemma StillRecalled(homes: Homes, s: Sys, p: Plan, s1: Sys, p1: Plan, turns: seq<Turn>, lost: set<Host>, ip: Addr,
      o: Host)
    requires Settled(s, homes, p, false) && Settled(s1, homes, p1, false)
    requires Extends(homes, p, p1, turns) && Grounded(p, p1, HostsOf(turns))
    requires Unbroken(s.st, lost, HostsOf(turns)) && lost <= s.dns.Keys
    requires o !in HostsOf(turns) && AHost(s.st, ip, o)
    ensures Recalled(s1.st, lost, HostsOf(turns), ip, o)
  {
    hide HostsOf, PlanOK;
    var wanted := HostsOf(turns);
    AHostOwns(s, homes, p, ip, o);
    assert Recalled(s.st, lost, wanted, ip, o);
    if forall h :: At(s.st, ip, h) ==> h == o {
      AloneUnwanted(s, homes, p, wanted, ip, o);
      forall h | At(s1.st, ip, h) ensures h == o {
        if h in p.where { assert At(s.st, ip, h); }
      }
    } else {
      forall h | At(s1.st, ip, h) ensures h !in lost {
        if h in p.where { assert At(s.st, ip, h); }
      }
    }
  }

  lemma AloneUnwanted(s: Sys, homes: Homes, p: Plan, wanted: set<Host>, ip: Addr, o: Host)
    requires Settled(s, homes, p, false) && o !in wanted
    requires forall h :: At(s.st, ip, h) ==> h == o
    ensures !HasWanted(p.where, wanted, ip)
  {
    assert forall h :: At(s.st, ip, h) <==> h in p.where && p.where[h] == ip;
  }

  /** So does it keep uniform what was uniform. */
  lemma UniformAfterAdd(homes: Homes, s: Sys, p: Plan, s1: Sys, p1: Plan, turns: seq<Turn>, lost: set<Host>)
    requires Settled(s, homes, p, false) && Settled(s1, homes, p1, false) && Extends(homes, p, p1, turns)
    requires Uniform(s.st, lost) && lost <= s.dns.Keys
    ensures Uniform(s1.st, lost)
  {
    hide HostsOf, PlanOK;
    forall ip, o, h | AHost(s1.st, ip, o) && At(s1.st, ip, h) && h in lost ensures o in lost {
      AHostOwns(s1, homes, p1, ip, o);
      AHostOwns(s1, homes, p1, ip, h);
      assert At(s.st, ip, h);
      AHostOwns(s, homes, p, ip, h);
      OwnerStored(s, homes, p, ip);
    }
  }

  lemma OwnerStored(s: Sys, homes: Homes, p: Plan, ip: Addr)
    requires Settled(s, homes, p, false) && ip in p.owner
    ensures AHost(s.st, ip, p.owner[ip])
  {
    assert Backed(s, p, p.owner[ip], false);
  }

  lemma RecalledRun(homes: Homes, m: Memory, p: Plan, turns: seq<Turn>, visits: seq<Visit>, m': Memory)
    requires Settled(m.s, homes, p, false) && "" !in homes && "" !in p.where && "" !in HostsOf(turns)
    requires AllAvailable(homes, m.s, turns) && LooseRange(AddPhase(homes, m.s, turns).st, visits)
    requires NetsAgree(homes, p.where, turns) && LossyPass(homes, m, turns, visits, m')
    requires m.lost <= m.s.dns.Keys && Unbroken(m.s.st, m.lost, HostsOf(turns))
    ensures Possible(homes, m.s, turns, NamedAll(visits)) && m'.s == RunPass(homes, m.s, turns, NamedAll(visits))
    ensures m'.clean == m.clean
    ensures exists lost ::
      m'.lost == lost * m'.s.dns.Keys && lost <= m.lost && (Uniform(m.s.st, m.lost) ==> Uniform(m'.s.st, lost))
  {
    hide AddPhase, PlanPhase, HostsOf, Settled, NetsAgree, Grounded, Unbroken, Uniform, AllAvailable, LooseRange,
      LooseVisits, LossySweepStore, SweepStore, Extends, Deletes, DeleteHosts, RangeOrder, NamedAll, VisitsAll,
      SameHosts;
    var s1, p1, wanted := AddPhase(homes, m.s, turns), PlanPhase(p, turns), HostsOf(turns);
    AddPhaseSettles(homes, m.s, p, turns, turns);
    PlanPhaseGrounded(homes, m.s, p, turns, turns, wanted);
    UnbrokenAfterAdd(homes, m.s, p, s1, p1, turns, m.lost);
    if Uniform(m.s.st, m.lost) { UniformAfterAdd(homes, m.s, p, s1, p1, turns, m.lost); }
    NamesExtend(homes, p, p1, turns);
    LooseSettled(homes, s1, p1, visits);
    NoEmptyName(homes, s1, p1);
    RecalledStore(homes, m.(s := s1), p1.where, wanted, visits);
    NamedDistinct(p1.where, visits);
    NamedRange(s1, homes, p1, visits);
    SweptShape(homes, s1, p1, wanted, NamedAll(visits));
    var w := LossySweepStore(homes, m.(s := s1), wanted, visits);
    DeletesIsDeleteHosts(w.m.s.st, w.gone, m'.s.st);
    UniformLess(w.m.s.st, w.gone, m'.s.st, w.m.lost);
  }

  /** With the references its promotions need, a pass is the pass of the specification, whatever else is
      lost: every release of it hits, no reference gets lost, and addresses stay uniform. */
  lemma RecalledPass(homes: Homes, m: Memory, p: Plan, turns: seq<Turn>, visits: seq<Visit>, m': Memory)
    requires Settled(m.s, homes, p, false) && "" !in homes && "" !in p.where && "" !in HostsOf(turns)
    requires AllAvailable(homes, m.s, turns) && LooseRange(AddPhase(homes, m.s, turns).st, visits)
    requires NetsAgree(homes, p.where, turns) && LossyPass(homes, m, turns, visits, m')
    requires m.lost <= m.s.dns.Keys && Unbroken(m.s.st, m.lost, HostsOf(turns))
    ensures Possible(homes, m.s, turns, NamedAll(visits)) && m'.s == RunPass(homes, m.s, turns, NamedAll(visits))
    ensures m'.clean == m.clean && m'.lost <= m.lost && m'.lost <= m'.s.dns.Keys
    ensures Uniform(m.s.st, m.lost) ==> Uniform(m'.s.st, m'.lost)
  {
    hide AddPhase, HostsOf, Settled, NetsAgree, Unbroken, Uniform, AllAvailable, LooseRange, LossyPass, NamedAll,
      RunPass, Possible, Sound, Converged;
    RecalledRun(homes, m, p, turns, visits, m');
    var lost :| m'.lost == lost * m'.s.dns.Keys && lost <= m.lost &&
      (Uniform(m.s.st, m.lost) ==> Uniform(m'.s.st, lost));
    PassConverges(homes, m.s, p, turns, NamedAll(visits));
    SoundMeans(m'.s, homes);
    if Uniform(m.s.st, m.lost) { UniformLive(m'.s, lost); }
  }

  lemma UniformLess(st: StoreVal, hs: seq<Host>, st': StoreVal, lost: set<Host>)
    requires Deletes(st, hs, st') && WellShaped(st) && HostOnce(st)
    ensures Uniform(st, lost) ==> Uniform(st', lost)
  {
    DeletesIsDeleteHosts(st, hs, st');
    DeleteHostsIsRestriction(st, hs);
  }

  lemma UniformLive(s: Sys, lost: set<Host>)
    requires Uniform(s.st, lost) && forall h :: h in s.dns <==> Stored(s.st, h)
    ensures Uniform(s.st, lost * s.dns.Keys)
  {
    forall ip, o, h | AHost(s.st, ip, o) && At(s.st, ip, h) && h in lost ensures o in s.dns {
      assert Stored(s.st, o);
    }
  }

  lemma NamesExtend(homes: Homes, p: Plan, p1: Plan, turns: seq<Turn>)
    requires Extends(homes, p, p1, turns)
    ensures p1.where.Keys == p.where.Keys + HostsOf(turns)
  {
  }

  lemma LooseSettled(homes: Homes, s: Sys, p: Plan, visits: seq<Visit>)
    requires Settled(s, homes, p, false) && LooseRange(s.st, visits)
    ensures Tracks(s, homes, p.where, false) && Filed(s.st, p.where)
    ensures DistinctAddresses(visits) && Addresses(visits) == s.st.records.Keys
    ensures forall v :: v in visits ==> LooseVisits(p.where, v)
  {
    hide DistinctAddresses, Addresses, Follows, Filed, Distinct, Elements;
    forall v | v in visits ensures LooseVisits(p.where, v) {
      assert LooseVisit(s.st, v);
      MatesAt(s.st, p.where, v.ip);
    }
  }

  lemma NamedRange(s: Sys, homes: Homes, p: Plan, visits: seq<Visit>)
    requires Settled(s, homes, p, false) && LooseRange(s.st, visits) && "" !in p.where
    ensures RangeOrder(s.st, NamedAll(visits))
  {
    hide Settled, NamedAll, LooseRange, VisitsAll, RangeOrder, LooseVisits;
    LooseSettled(homes, s, p, visits);
    NamedDistinct(p.where, visits);
    SweepIsRange(s.st, p.where, NamedAll(visits));
  }

  lemma NoEmptyName(homes: Homes, s1: Sys, p1: Plan)
    requires Settled(s1, homes, p1, false) && "" !in p1.where
    ensures "" !in s1.dns && forall ip :: !At(s1.st, ip, "")
  {
  }

  /** With all references there, as from the first pass over an empty IPAM system on, nothing is missed. */
  lemma NothingLost(st: StoreVal, wanted: set<Host>)
    ensures Unbroken(st, {}, wanted) && Uniform(st, {})
  {
    forall ip, o | AHost(st, ip, o) ensures Recalled(st, {}, wanted, ip, o) {
    }
  }

  /** After a restart every name is lost, and every address uniform. */
  lemma AllLostUniform(st: StoreVal, dns: map<Host, Rec>)
    requires forall ip, h :: At(st, ip, h) ==> h in dns
    ensures Uniform(st, dns.Keys)
  {
  }
}
