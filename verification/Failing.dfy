/**
 A pass that has no reference to any host it drops, such as the first one after a restart: what it leaves
 of records, reservations and store, in full.
 */
module Failing {
  import opened Types
  import opened StoreSpec
  import opened Reconcile
  import opened RecordTable
  import opened Addition
  import opened Removal
  import opened Pass
  import opened Lossy

  /** The A host of the address has been dropped. */
  ghost predicate OwnerGone(st: StoreVal, gone: set<Host>, ip: Addr) {
    exists o :: o in gone && AHost(st, ip, o)
  }

  /** Where the loop stands when it has dropped the hosts in gone, none of which had a reference. */
  ghost predicate Failing(s1: Sys, m: Memory, lost: set<Host>, gone: set<Host>) {
    && m.lost == lost
    && m.s.dns == s1.dns - gone
    && (forall ip :: ip in m.s.reserved <==> ip in s1.reserved && !OwnerGone(s1.st, gone, ip))
    && SameButEmpty(s1.st, m.s.st)
    && (forall ip :: At(m.s.st, ip, "") ==> m.s.st.records[ip][""] == A && OwnerGone(s1.st, gone, ip))
  }

  /** The same store but for entries of the empty name. */
  ghost predicate SameButEmpty(st: StoreVal, st': StoreVal) {
    && st'.netviews == st.netviews && st'.cidrs == st.cidrs && st'.records.Keys == st.records.Keys
    && (forall ip, h :: h != "" ==> (At(st', ip, h) <==> At(st, ip, h)))
    && (forall ip, h :: h != "" && At(st, ip, h) ==> st'.records[ip][h] == st.records[ip][h])
  }

  lemma MarkEmpty(st: StoreVal, st': StoreVal, ip: Addr)
    requires SameButEmpty(st, st') && ip in st'.records
    ensures SameButEmpty(st, MarkA(st', ip, ""))
    ensures forall ip' :: At(MarkA(st', ip, ""), ip', "") <==> At(st', ip', "") || ip' == ip
    ensures forall ip' :: At(MarkA(st', ip, ""), ip', "") && ip' != ip ==>
      MarkA(st', ip, "").records[ip'][""] == st'.records[ip'][""]
    ensures MarkA(st', ip, "").records[ip][""] == A
  {
  }

  /** What a doomed host's record is, before the loop reaches it. */
  lemma DoomedRecord(s1: Sys, homes: Homes, p1: Plan, ip: Addr, host: Host)
    requires Settled(s1, homes, p1, false) && At(s1.st, ip, host)
    ensures ip in homes && homes[ip] == NetAt(s1.st, ip) && host in s1.dns
    ensures if AHost(s1.st, ip, host) then RefusesA(s1.dns, host, ip, NetAt(s1.st, ip).netview)
      else s1.st.records[ip][host] == CNAME && HasCname(s1.dns, host, NetAt(s1.st, ip).netview)
    ensures forall ip' :: At(s1.st, ip', host) ==> ip' == ip
  {
    assert Backed(s1, p1, host, false);
  }

  lemma OwnerGoneMore(st: StoreVal, gone: set<Host>, host: Host)
    ensures forall ip :: OwnerGone(st, gone + {host}, ip) <==> OwnerGone(st, gone, ip) || AHost(st, ip, host)
  {
    forall ip ensures OwnerGone(st, gone + {host}, ip) <==> OwnerGone(st, gone, ip) || AHost(st, ip, host) {
      if AHost(st, ip, host) { assert host in gone + {host}; }
    }
  }

  /** One doomed host without a reference: its record goes, and with an A record its address. */
  lemma FailingDrop(homes: Homes, s1: Sys, p1: Plan, m: Memory, lost: set<Host>, gone: set<Host>, ip: Addr, host: Host,
      avail: seq<Host>)
    requires Settled(s1, homes, p1, false) && "" !in p1.where && Failing(s1, m, lost, gone)
    requires At(m.s.st, ip, host) && (host != "" ==> host in lost)
    ensures Failing(s1, LossyDrop(homes, m, ip, host, avail), lost, gone + {host})
  {
    hide Settled, OwnerGone, MarkA, SameButEmpty, NetAt;
    OwnerGoneMore(s1.st, gone, host);
    SameNets(s1.st, m.s.st, ip, host);
    NoEmptyName(homes, s1, p1);
    MarkEmpty(s1.st, m.s.st, ip);
    if host != "" {
      DoomedRecord(s1, homes, p1, ip, host);
    }
  }

  lemma SameNets(st: StoreVal, st': StoreVal, ip: Addr, host: Host)
    requires SameButEmpty(st, st')
    ensures NetAt(st', ip) == NetAt(st, ip)
    ensures host != "" ==> (At(st', ip, host) <==> At(st, ip, host))
    ensures host != "" && At(st, ip, host) ==> st'.records[ip][host] == st.records[ip][host]
  {
  }

  /** No stored host that is not wanted has a reference. */
  ghost predicate AllLost(st: StoreVal, lost: set<Host>, wanted: set<Host>) {
    forall ip, h :: At(st, ip, h) && h !in wanted ==> h in lost
  }

  /** gone' adds unwanted hosts to gone, among them those of hs that are stored at ip. */
  ghost predicate Dropped(st: StoreVal, wanted: set<Host>, gone: seq<Host>, gone': seq<Host>, ip: Addr, hs: seq<Host>) {
    && Elements(gone) <= Elements(gone') && (forall h :: h in Elements(gone') ==> h in Elements(gone) || h !in wanted)
    && (forall h :: h in hs && At(st, ip, h) && h !in wanted ==> h in Elements(gone'))
  }

  lemma FailingTurn(homes: Homes, s1: Sys, p1: Plan, w: LossySweep, lost: set<Host>, ip: Addr, wanted: set<Host>,
      host: Host)
    requires Settled(s1, homes, p1, false) && "" !in p1.where && AllLost(s1.st, lost, wanted)
    requires Failing(s1, w.m, lost, Elements(w.gone))
    ensures var w' := LossySweepHost(homes, w, ip, wanted, host);
      Failing(s1, w'.m, lost, Elements(w'.gone)) && Dropped(s1.st, wanted, w.gone, w'.gone, ip, [host])
  {
    hide Settled, OwnerGone, LossyDrop, NetAt;
    SameNets(s1.st, w.m.s.st, ip, host);
    NoEmptyName(homes, s1, p1);
    AppendElements(w.gone, host);
    if host !in wanted && At(w.m.s.st, ip, host) {
      FailingDrop(homes, s1, p1, w.m, lost, Elements(w.gone), ip, host, Without(w.avail, host));
    }
  }

  lemma {:induction false} FailingHosts(homes: Homes, s1: Sys, p1: Plan, w: LossySweep, lost: set<Host>, ip: Addr,
      wanted: set<Host>, order: seq<Host>)
    requires Settled(s1, homes, p1, false) && "" !in p1.where && AllLost(s1.st, lost, wanted)
    requires Failing(s1, w.m, lost, Elements(w.gone))
    ensures var w' := LossySweepHosts(homes, w, ip, wanted, order);
      Failing(s1, w'.m, lost, Elements(w'.gone)) && Dropped(s1.st, wanted, w.gone, w'.gone, ip, order)
  {
    hide Settled, Failing, AllLost, Elements, LossySweepHost;
    if order != [] {
      var init, host := order[..|order| - 1], order[|order| - 1];
      FailingHosts(homes, s1, p1, w, lost, ip, wanted, init);
      FailingTurn(homes, s1, p1, LossySweepHosts(homes, w, ip, wanted, init), lost, ip, wanted, host);
      assert order == init + [host];
    }
  }

  /** Everything the visits meet and nobody wants is gone. */
  ghost predicate Cleared(st: StoreVal, wanted: set<Host>, gone: seq<Host>, visits: seq<Visit>) {
    && (forall h :: h in Elements(gone) ==> h !in wanted)
    && (forall v, h :: v in visits && h in v.order && At(st, v.ip, h) && h !in wanted ==> h in Elements(gone))
  }

  lemma {:induction false} FailingStore(homes: Homes, s1: Sys, p1: Plan, lost: set<Host>, wanted: set<Host>,
      visits: seq<Visit>, clean: bool)
    requires Settled(s1, homes, p1, false) && "" !in p1.where && AllLost(s1.st, lost, wanted)
    ensures var w := LossySweepStore(homes, Memory(s1, lost, clean), wanted, visits);
      Failing(s1, w.m, lost, Elements(w.gone)) && Cleared(s1.st, wanted, w.gone, visits)
  {
    hide Settled, Failing, AllLost, Elements, LossySweepHosts;
    if visits == [] {
      NothingFailing(homes, s1, p1, lost, clean);
    } else {
      var init, v := visits[..|visits| - 1], visits[|visits| - 1];
      FailingStore(homes, s1, p1, lost, wanted, init, clean);
      var w := LossySweepStore(homes, Memory(s1, lost, clean), wanted, init);
      FailingHosts(homes, s1, p1, LossySweep(w.m, v.avail, w.gone), lost, v.ip, wanted, v.order);
      assert visits == init + [v];
    }
  }

  lemma NothingFailing(homes: Homes, s1: Sys, p1: Plan, lost: set<Host>, clean: bool)
    requires Settled(s1, homes, p1, false) && "" !in p1.where
    ensures Failing(s1, Memory(s1, lost, clean), lost, Elements([])) && Elements<Host>([]) == {}
  {
    NoEmptyName(homes, s1, p1);
    assert s1.dns - {} == s1.dns;
  }

  /** In full: exactly the wanted hosts keep their records; they stay where they were stored, and no other
      named host is stored; an address stays reserved exactly when its A host is wanted, and the empty name is
      filed only under addresses that are not reserved any more. */
  lemma RestartPass(homes: Homes, m: Memory, p: Plan, turns: seq<Turn>, visits: seq<Visit>, m': Memory)
    requires Settled(m.s, homes, p, false) && "" !in homes && "" !in p.where && "" !in HostsOf(turns)
    requires AllAvailable(homes, m.s, turns) && LooseRange(AddPhase(homes, m.s, turns).st, visits)
    requires NetsAgree(homes, p.where, turns) && LossyPass(homes, m, turns, visits, m')
    requires AllLost(m.s.st, m.lost, HostsOf(turns))
    ensures var s1 := AddPhase(homes, m.s, turns);
      && m'.s.dns == s1.dns - (s1.dns.Keys - HostsOf(turns))
      && (forall ip, h :: h != "" ==> (At(m'.s.st, ip, h) <==> At(s1.st, ip, h) && h in HostsOf(turns)))
      && (forall ip :: ip in m'.s.reserved <==>
        ip in s1.reserved && exists o :: o in HostsOf(turns) && AHost(s1.st, ip, o))
      && (forall ip :: At(m'.s.st, ip, "") ==> ip !in m'.s.reserved)
  {
    hide AddPhase, PlanPhase, HostsOf, Settled, NetsAgree, AllAvailable, LossySweepStore, Extends, Reaches, LooseRange,
      Deletes, Cleared, Failing;
    var s1, p1, wanted := AddPhase(homes, m.s, turns), PlanPhase(p, turns), HostsOf(turns);
    AddPhaseSettles(homes, m.s, p, turns, turns);
    NamesExtend(homes, p, p1, turns);
    StillLost(homes, m.s, p, s1, p1, turns, m.lost);
    LooseReaches(s1.st, visits);
    FailingStore(homes, s1, p1, m.lost, wanted, visits, m.clean);
    var w := LossySweepStore(homes, m.(s := s1), wanted, visits);
    GoneExactly(homes, s1, p1, wanted, w.gone, visits);
    FailingMeans(s1, w.m, m.lost, Elements(w.gone));
    forall ip, h | h != "" ensures At(m'.s.st, ip, h) <==> At(s1.st, ip, h) && h in wanted {
      EndsFiled(homes, s1, p1, w, m.lost, wanted, m'.s.st, ip, h);
    }
    forall ip | At(m'.s.st, ip, "") ensures OwnerGone(s1.st, Elements(w.gone), ip) {
      DeletesShrinks(w.m.s.st, w.gone, m'.s.st, ip, "");
    }
    forall ip | ip in s1.reserved
      ensures OwnerGone(s1.st, Elements(w.gone), ip) <==> !exists o :: o in wanted && AHost(s1.st, ip, o)
    {
      OwnerWantedIff(homes, s1, p1, wanted, Elements(w.gone), ip);
    }
  }

  lemma FailingMeans(s1: Sys, m: Memory, lost: set<Host>, gone: set<Host>)
    requires Failing(s1, m, lost, gone)
    ensures m.s.dns == s1.dns - gone
    ensures forall ip :: ip in m.s.reserved <==> ip in s1.reserved && !OwnerGone(s1.st, gone, ip)
    ensures forall ip :: At(m.s.st, ip, "") ==> OwnerGone(s1.st, gone, ip)
  {
  }

  lemma EndsFiled(homes: Homes, s1: Sys, p1: Plan, w: LossySweep, lost: set<Host>, wanted: set<Host>, st': StoreVal,
      ip: Addr, h: Host)
    requires Settled(s1, homes, p1, false) && Failing(s1, w.m, lost, Elements(w.gone)) && Deletes(w.m.s.st, w.gone, st')
    requires forall x :: x in Elements(w.gone) ==> x !in wanted
    requires forall x :: x in s1.dns && x !in wanted ==> x in Elements(w.gone)
    requires h != ""
    ensures At(st', ip, h) <==> At(s1.st, ip, h) && h in wanted
  {
    hide Follows, OwnerGone, Deletes;
    assert h in w.gone <==> h in Elements(w.gone);
    assert At(w.m.s.st, ip, h) <==> At(s1.st, ip, h);
    if h in w.gone {
      assert forall a :: At(w.m.s.st, a, h) <==> At(s1.st, a, h);
      DeletesTakes(w.m.s.st, w.gone, st', ip, h);
    } else {
      DeletesSpares(w.m.s.st, w.gone, st', ip, h);
      if At(s1.st, ip, h) { HasRecord(homes, s1, p1, ip, h); }
    }
  }

  lemma HasRecord(homes: Homes, s1: Sys, p1: Plan, ip: Addr, h: Host)
    requires Settled(s1, homes, p1, false) && At(s1.st, ip, h)
    ensures h in s1.dns
  {
  }

  /** Every stored host is met. */
  ghost predicate Reaches(st: StoreVal, visits: seq<Visit>) {
    forall ip, h :: At(st, ip, h) ==> exists v :: v in visits && v.ip == ip && h in v.order
  }

  lemma LooseReaches(st: StoreVal, visits: seq<Visit>)
    requires LooseRange(st, visits)
    ensures Reaches(st, visits)
  {
    hide DistinctAddresses, Distinct;
    forall ip, h | At(st, ip, h) ensures exists v :: v in visits && v.ip == ip && h in v.order {
      assert ip in Addresses(visits);
      var v :| v in visits && v.ip == ip;
      assert LooseVisit(st, v);
      assert h in Elements(v.order);
    }
  }

  lemma StillLost(homes: Homes, s: Sys, p: Plan, s1: Sys, p1: Plan, turns: seq<Turn>, lost: set<Host>)
    requires Settled(s, homes, p, false) && Settled(s1, homes, p1, false) && Extends(homes, p, p1, turns)
    requires AllLost(s.st, lost, HostsOf(turns))
    ensures AllLost(s1.st, lost, HostsOf(turns))
  {
    hide HostsOf, Follows, PlanOK;
    forall ip, h | At(s1.st, ip, h) && h !in HostsOf(turns) ensures h in lost {
      assert h in p.where;
      assert At(s.st, p.where[h], h);
    }
  }

  lemma GoneExactly(homes: Homes, s1: Sys, p1: Plan, wanted: set<Host>, gone: seq<Host>, visits: seq<Visit>)
    requires Settled(s1, homes, p1, false) && Cleared(s1.st, wanted, gone, visits) && Reaches(s1.st, visits)
    ensures forall h :: h in Elements(gone) ==> h !in wanted
    ensures forall h :: h in s1.dns && h !in wanted ==> h in Elements(gone)
  {
    hide Elements;
    forall h | h in s1.dns && h !in wanted ensures h in Elements(gone) {
      assert At(s1.st, p1.where[h], h);
      var v :| v in visits && v.ip == p1.where[h] && h in v.order;
    }
  }

  lemma OwnerWantedIff(homes: Homes, s1: Sys, p1: Plan, wanted: set<Host>, gone: set<Host>, ip: Addr)
    requires Settled(s1, homes, p1, false) && ip in s1.reserved
    requires forall h :: h in gone ==> h !in wanted
    requires forall h :: h in s1.dns && h !in wanted ==> h in gone
    ensures OwnerGone(s1.st, gone, ip) <==> !exists o :: o in wanted && AHost(s1.st, ip, o)
  {
    var o := p1.owner[ip];
    assert Backed(s1, p1, o, false);
    assert AHost(s1.st, ip, o);
    forall h | AHost(s1.st, ip, h) ensures h == o {
      AHostOwns(s1, homes, p1, ip, h);
    }
  }
}
