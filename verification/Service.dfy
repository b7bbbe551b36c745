/**
 Which wanted hosts keep their service over a pass, whatever references the client has: decided address by
 address, on the store and the references before the pass.
 */
module Service {
  import opened Types
  import opened StoreSpec
  import opened Reconcile
  import opened RecordTable
  import opened Addition
  import opened Attachment
  import opened Removal
  import opened Pass
  import opened Lossy
  import opened OneAddress
  import opened Failing

  // ---------- addresses do not disturb each other ----------

  /** The reservation of ip, the records of its hosts and the references to them are the same. */
  ghost predicate SameAt(m: Memory, m': Memory, ip: Addr, mates: set<Host>) {
    && (ip in m'.s.reserved <==> ip in m.s.reserved)
    && (forall n :: n in mates ==> (n in m'.s.dns <==> n in m.s.dns) && (n in m.s.dns ==> m'.s.dns[n] == m.s.dns[n]))
    && (forall n :: n in mates ==> (n in m'.lost <==> n in m.lost))
  }

  ghost predicate SameOthers(m: Memory, m': Memory, where: map<Host, Addr>, ip: Addr) {
    forall ip' :: ip' != ip ==> SameAt(m, m', ip', Mates(where, ip'))
  }

  lemma SameOthersTrans(m: Memory, mid: Memory, m': Memory, where: map<Host, Addr>, ip: Addr)
    requires SameOthers(m, mid, where, ip) && SameOthers(mid, m', where, ip)
    ensures SameOthers(m, m', where, ip)
  {
    hide Mates;
    forall ip' | ip' != ip ensures SameAt(m, m', ip', Mates(where, ip')) {
      assert SameAt(m, mid, ip', Mates(where, ip')) && SameAt(mid, m', ip', Mates(where, ip'));
    }
  }

  lemma TurnOthers(homes: Homes, s1: Sys, where: map<Host, Addr>, ip: Addr, w: LossySweep, unmet: set<Host>,
      rest: set<Addr>, wanted: set<Host>, host: Host)
    requires Ground(s1, where) && Meeting(s1, homes, where, ip, w, unmet, rest)
    ensures SameOthers(w.m, LossySweepHost(homes, w, ip, wanted, host).m, where, ip)
  {
    hide LossyDrop, Midvisit, Fresh;
    if host !in wanted && At(w.m.s.st, ip, host) {
      var avail := Without(w.avail, host);
      MidvisitFiled(w.m.s, homes, ip, w.avail);
      WithoutIn(w.avail, host);
      ElementsIn(w.avail);
      DropElsewhere(homes, w.m, ip, host, avail);
      assert host == "" || host in Mates(where, ip) by {
        assert host != "" ==> At(s1.st, ip, host);
      }
    }
  }

  /** The range over one address: what holds between its turns, and that it disturbs no other address. */
  lemma {:induction false} MeetHosts(homes: Homes, s1: Sys, where: map<Host, Addr>, ip: Addr, w: LossySweep,
      unmet: set<Host>, rest: set<Addr>, wanted: set<Host>, order: seq<Host>)
    requires Ground(s1, where) && Meeting(s1, homes, where, ip, w, unmet, rest)
    requires Distinct(order) && Elements(order) <= unmet + {""}
    ensures var w' := LossySweepHosts(homes, w, ip, wanted, order);
      Meeting(s1, homes, where, ip, w', unmet - Elements(order), rest) && SameOthers(w.m, w'.m, where, ip)
  {
    hide Meeting, Ground, SameOthers, LossySweepHost;
    if order == [] {
      assert unmet - Elements(order) == unmet;
      SameOthersSame(w.m, where, ip);
    } else {
      var init, host := order[..|order| - 1], order[|order| - 1];
      SnocElements(order);
      MeetHosts(homes, s1, where, ip, w, unmet, rest, wanted, init);
      var mid := LossySweepHosts(homes, w, ip, wanted, init);
      assert host in Elements(order);
      MeetingTurn(homes, s1, where, ip, mid, unmet - Elements(init), rest, wanted, host);
      TurnOthers(homes, s1, where, ip, mid, unmet - Elements(init), rest, wanted, host);
      SameOthersTrans(w.m, mid.m, LossySweepHost(homes, mid, ip, wanted, host).m, where, ip);
      assert unmet - Elements(init) - {host} == unmet - Elements(order);
    }
  }

  lemma SameOthersSame(m: Memory, where: map<Host, Addr>, ip: Addr)
    ensures SameOthers(m, m, where, ip)
  {
  }

  /** The visits of a loose range made so far. */
  ghost predicate LoosePrefix(st: StoreVal, visits: seq<Visit>) {
    DistinctAddresses(visits) && forall v :: v in visits ==> LooseVisit(st, v)
  }

  /** Between two visits: the addresses to come are fresh, with the references they had. */
  ghost predicate Between(s1: Sys, where: map<Host, Addr>, m1: Memory, m: Memory, rest: set<Addr>) {
    && SameFrame(s1.st, m.s.st) && "" !in m.s.dns
    && forall ip :: ip in rest ==> Fresh(s1, m.s, ip) && SameAt(m1, m, ip, Mates(where, ip))
  }

  lemma MeetVisit(homes: Homes, s1: Sys, p1: Plan, m1: Memory, w: LossySweep, wanted: set<Host>, v: Visit,
      rest: set<Addr>)
    requires Settled(s1, homes, p1, false) && "" !in p1.where && Between(s1, p1.where, m1, w.m, rest)
    requires LooseVisit(s1.st, v) && v.ip in rest
    ensures var w0 := LossySweep(w.m, v.avail, w.gone);
      var w' := LossySweepHosts(homes, w0, v.ip, wanted, v.order);
      && Ground(s1, p1.where) && Meeting(s1, homes, p1.where, v.ip, w0, Elements(v.avail), rest - {v.ip})
      && Mates(p1.where, v.ip) == Elements(v.avail) && Whole(w.m.s, v.ip, v.avail)
      && SameOthers(w.m, w'.m, p1.where, v.ip) && Between(s1, p1.where, m1, w'.m, rest - {v.ip})
  {
    hide Settled, SameFrame, Whole, Mates, LossySweepHosts;
    var w0 := LossySweep(w.m, v.avail, w.gone);
    assert Fresh(s1, w.m.s, v.ip);
    MeetingStart(homes, s1, p1, w.m.s, v.ip, v.avail, w0, rest - {v.ip});
    MeetHosts(homes, s1, p1.where, v.ip, w0, Elements(v.avail), rest - {v.ip}, wanted, v.order);
    var w' := LossySweepHosts(homes, w0, v.ip, wanted, v.order);
    forall ip | ip in rest - {v.ip} ensures Fresh(s1, w'.m.s, ip) && SameAt(m1, w'.m, ip, Mates(p1.where, ip)) {
      assert SameAt(w.m, w'.m, ip, Mates(p1.where, ip)) && SameAt(m1, w.m, ip, Mates(p1.where, ip));
    }
  }

  lemma {:induction false} MeetStore(homes: Homes, s1: Sys, p1: Plan, m1: Memory, wanted: set<Host>, visits: seq<Visit>)
    requires Settled(s1, homes, p1, false) && "" !in p1.where && m1.s == s1 && LoosePrefix(s1.st, visits)
    ensures Between(s1, p1.where, m1, LossySweepStore(homes, m1, wanted, visits).m,
      s1.st.records.Keys - Addresses(visits))
  {
    hide Settled, Between, LossySweepHosts, LooseVisit, Ground, Meeting, Whole, SameOthers, Mates;
    if visits == [] {
      BetweenStart(homes, s1, p1, m1);
      assert s1.st.records.Keys - Addresses(visits) == s1.st.records.Keys;
    } else {
      var init, v := visits[..|visits| - 1], visits[|visits| - 1];
      SnocVisits(visits);
      MeetStore(homes, s1, p1, m1, wanted, init);
      VisitFiled(s1.st, v);
      MeetVisit(homes, s1, p1, m1, LossySweepStore(homes, m1, wanted, init), wanted, v,
        s1.st.records.Keys - Addresses(init));
      assert s1.st.records.Keys - Addresses(init) - {v.ip} == s1.st.records.Keys - Addresses(visits);
    }
  }

  lemma VisitFiled(st: StoreVal, v: Visit)
    requires LooseVisit(st, v)
    ensures v.ip in st.records
  {
  }

  lemma BetweenStart(homes: Homes, s1: Sys, p1: Plan, m1: Memory)
    requires Settled(s1, homes, p1, false) && "" !in p1.where && m1.s == s1
    ensures Between(s1, p1.where, m1, m1, s1.st.records.Keys)
  {
    forall ip, h | At(s1.st, ip, h) ensures h in s1.dns {
    }
  }

  // ---------- the address whose A host stays ----------

  ghost predicate Staying(s1: Sys, m: Memory, ip: Addr, mates: set<Host>, wanted: set<Host>) {
    && ip in s1.st.records && ip in m.s.st.records && m.s.st.records[ip] == s1.st.records[ip]
    && (ip in m.s.reserved <==> ip in s1.reserved)
    && forall h :: h in mates && h in wanted ==> h in s1.dns && h in m.s.dns && m.s.dns[h] == s1.dns[h]
  }

  lemma StayingTurn(homes: Homes, s1: Sys, w: LossySweep, ip: Addr, mates: set<Host>, wanted: set<Host>, host: Host)
    requires Staying(s1, w.m, ip, mates, wanted) && forall o :: AHost(s1.st, ip, o) ==> o in wanted
    ensures Staying(s1, LossySweepHost(homes, w, ip, wanted, host).m, ip, mates, wanted)
  {
  }

  lemma {:induction false} StayingHosts(homes: Homes, s1: Sys, w: LossySweep, ip: Addr, mates: set<Host>,
      wanted: set<Host>, order: seq<Host>)
    requires Staying(s1, w.m, ip, mates, wanted) && forall o :: AHost(s1.st, ip, o) ==> o in wanted
    ensures Staying(s1, LossySweepHosts(homes, w, ip, wanted, order).m, ip, mates, wanted)
  {
    hide Staying, LossySweepHost;
    if order != [] {
      var init := order[..|order| - 1];
      StayingHosts(homes, s1, w, ip, mates, wanted, init);
      StayingTurn(homes, s1, LossySweepHosts(homes, w, ip, wanted, init), ip, mates, wanted, order[|order| - 1]);
    }
  }

  // ---------- the address whose A host goes without a reference ----------

  /** Until the A host o is met nothing is stored differently; then the reservation is gone. */
  ghost predicate Losing(s1: Sys, homes: Homes, m: Memory, ip: Addr, o: Host, met: set<Host>) {
    if o in met then ip !in m.s.reserved
    else
      && ip in s1.st.records && ip in m.s.st.records && m.s.st.records[ip] == s1.st.records[ip]
      && o in m.lost && ip in homes && homes[ip] == NetAt(m.s.st, ip)
  }

  lemma LosingTurn(homes: Homes, s1: Sys, w: LossySweep, ip: Addr, o: Host, met: set<Host>, wanted: set<Host>,
      host: Host)
    requires Losing(s1, homes, w.m, ip, o, met) && AHost(s1.st, ip, o) && o !in wanted
    requires forall h :: AHost(s1.st, ip, h) ==> h == o
    ensures Losing(s1, homes, LossySweepHost(homes, w, ip, wanted, host).m, ip, o, met + {host})
  {
    assert AHost(s1.st, ip, host) ==> host == o;
  }

  lemma {:induction false} LosingHosts(homes: Homes, s1: Sys, w: LossySweep, ip: Addr, o: Host, wanted: set<Host>,
      order: seq<Host>)
    requires Losing(s1, homes, w.m, ip, o, {}) && AHost(s1.st, ip, o) && o !in wanted
    requires forall h :: AHost(s1.st, ip, h) ==> h == o
    ensures Losing(s1, homes, LossySweepHosts(homes, w, ip, wanted, order).m, ip, o, Elements(order))
  {
    hide Losing, LossySweepHost;
    if order == [] {
      assert Elements(order) == {};
    } else {
      var init, host := order[..|order| - 1], order[|order| - 1];
      SnocElements(order);
      LosingHosts(homes, s1, w, ip, o, wanted, init);
      LosingTurn(homes, s1, LossySweepHosts(homes, w, ip, wanted, init), ip, o, Elements(init), wanted, host);
    }
  }

  // ---------- the address whose A host hands over ----------

  /** Every host left leads to cur. */
  ghost predicate Leads(dns: map<Host, Rec>, avail: seq<Host>, cur: Host) {
    forall a :: a in avail && a != cur ==> a in dns && dns[a].CRec? && dns[a].canonical == cur
  }

  ghost predicate LeadsTo(m: Memory, ip: Addr, avail: seq<Host>, o: Host, cur: Host) {
    Intact(m.s, ip, avail, cur) && (cur == o || Leads(m.s.dns, avail, cur))
  }

  /** No reference is missing here; the hosts left lead to whoever has taken over from o. */
  ghost predicate Moving(m: Memory, ip: Addr, avail: seq<Host>, o: Host) {
    && ip in m.s.reserved && !At(m.s.st, ip, "") && (forall a :: a in avail ==> a !in m.lost)
    && exists cur :: LeadsTo(m, ip, avail, o, cur)
  }

  lemma MovingCname(homes: Homes, w: LossySweep, ip: Addr, o: Host, host: Host, m': Memory)
    requires Midvisit(w.m.s, homes, ip, w.avail) && Moving(w.m, ip, w.avail, o) && host in w.avail
    requires w.m.s.st.records[ip][host] == CNAME
    requires m'.s.st == w.m.s.st && m'.s.reserved == w.m.s.reserved && m'.lost == w.m.lost
    requires m'.s.dns == w.m.s.dns || m'.s.dns == w.m.s.dns - {host}
    ensures Moving(m', ip, Without(w.avail, host), o)
  {
    WithoutIn(w.avail, host);
    var cur :| LeadsTo(w.m, ip, w.avail, o, cur);
    assert Typed(w.m.s, ip, cur, cur);
    forall h | h in Without(w.avail, host) ensures Typed(m'.s, ip, h, cur) {
      assert Typed(w.m.s, ip, h, cur);
    }
    assert LeadsTo(m', ip, Without(w.avail, host), o, cur);
  }

  lemma MovingA(homes: Homes, w: LossySweep, ip: Addr, o: Host, host: Host)
    requires Midvisit(w.m.s, homes, ip, w.avail) && Moving(w.m, ip, w.avail, o) && host in w.avail && host != ""
    requires AHost(w.m.s.st, ip, host) && Without(w.avail, host) != []
    ensures Moving(LossyDrop(homes, w.m, ip, host, Without(w.avail, host)), ip, Without(w.avail, host), o)
  {
    hide Midvisit, Intact, MarkA, Promoted;
    var rest := Without(w.avail, host);
    var m' := LossyDrop(homes, w.m, ip, host, rest);
    MidvisitFiled(w.m.s, homes, ip, w.avail);
    WithoutIn(w.avail, host);
    ReachesAll(rest, w.m.lost, 1);
    assert rest[..|rest|] == rest;
    assert rest[0] in rest;
    PromotionLeads(homes, w.m.s, m'.s, ip, w.avail, host);
    MarkFiled(w.m.s.st, ip, rest[0]);
    assert LeadsTo(m', ip, rest, o, rest[0]);
  }

  lemma MarkFiled(st: StoreVal, ip: Addr, h: Host)
    requires ip in st.records && h != ""
    ensures At(MarkA(st, ip, h), ip, "") <==> At(st, ip, "")
  {
  }

  lemma PromotionLeads(homes: Homes, s: Sys, s': Sys, ip: Addr, avail: seq<Host>, host: Host)
    requires Midvisit(s, homes, ip, avail) && AHost(s.st, ip, host) && host in avail && Without(avail, host) != []
    requires var rest, netview := Without(avail, host), NetAt(s.st, ip).netview;
      s'.st == MarkA(s.st, ip, rest[0]) && s'.dns == Promoted(s.dns, Elements(rest), rest[0], host, ip, netview)
    ensures var rest := Without(avail, host); Intact(s', ip, rest, rest[0]) && Leads(s'.dns, rest, rest[0])
  {
    WithoutIn(avail, host);
    var rest := Without(avail, host);
    var cur :| Intact(s, ip, avail, cur);
    assert Typed(s, ip, host, cur);
    assert rest[0] in rest;
    forall h | h in rest ensures At(s'.st, ip, h) && Typed(s', ip, h, rest[0]) && h in s'.dns {
      assert Typed(s, ip, h, cur);
      assert h in Elements(rest);
    }
  }

  lemma MovingTurn(homes: Homes, w: LossySweep, ip: Addr, o: Host, wanted: set<Host>, h: Host, host: Host)
    requires Midvisit(w.m.s, homes, ip, w.avail) && Moving(w.m, ip, w.avail, o) && h in w.avail && h in wanted
    requires host in w.avail || host == ""
    ensures var w' := LossySweepHost(homes, w, ip, wanted, host);
      && Moving(w'.m, ip, w'.avail, o) && h in w'.avail
      && Elements(w'.avail) == Elements(w.avail) - ({host} - wanted)
  {
    hide Midvisit, Moving;
    MidvisitFiled(w.m.s, homes, ip, w.avail);
    MovingNamed(w.m, ip, w.avail, o);
    WithoutDistinct(w.avail, host);
    ElementsIn(w.avail);
    if host !in wanted && At(w.m.s.st, ip, host) {
      WithoutIn(w.avail, host);
      if w.m.s.st.records[ip][host] == CNAME {
        MovingCname(homes, w, ip, o, host, LossyDrop(homes, w.m, ip, host, Without(w.avail, host)));
      } else {
        MovingA(homes, w, ip, o, host);
      }
    }
  }

  lemma MovingNamed(m: Memory, ip: Addr, avail: seq<Host>, o: Host)
    requires Moving(m, ip, avail, o)
    ensures !At(m.s.st, ip, "")
  {
  }

  lemma {:induction false} MovingHosts(homes: Homes, s1: Sys, where: map<Host, Addr>, ip: Addr, w: LossySweep,
      rest: set<Addr>, o: Host, wanted: set<Host>, h: Host, order: seq<Host>)
    requires Ground(s1, where) && Meeting(s1, homes, where, ip, w, Elements(w.avail), rest)
    requires Distinct(order) && Elements(order) <= Elements(w.avail) + {""}
    requires Moving(w.m, ip, w.avail, o) && h in w.avail && h in wanted
    ensures var w' := LossySweepHosts(homes, w, ip, wanted, order);
      && Moving(w'.m, ip, w'.avail, o) && h in w'.avail
      && Elements(w'.avail) == Elements(w.avail) - (Elements(order) - wanted)
  {
    hide Ground, Moving, LossySweepHost, Midvisit, SameFrame, Fresh, Mates;
    if order == [] {
      assert Elements(w.avail) - (Elements(order) - wanted) == Elements(w.avail);
    } else {
      var init, host := order[..|order| - 1], order[|order| - 1];
      SnocElements(order);
      MovingHosts(homes, s1, where, ip, w, rest, o, wanted, h, init);
      MeetHosts(homes, s1, where, ip, w, Elements(w.avail), rest, wanted, init);
      var mid := LossySweepHosts(homes, w, ip, wanted, init);
      ElementsIn(mid.avail);
      assert host in Elements(order);
      MovingTurn(homes, mid, ip, o, wanted, h, host);
    }
  }

  /** The host leads to the address, through one of the hosts of the address at most. */
  predicate ResolvesAmong(dns: map<Host, Rec>, h: Host, ip: Addr, mates: set<Host>) {
    && Resolves(dns, h, ip) && h in mates && (dns[h].CRec? ==> dns[h].canonical in mates)
  }

  /** Once o has gone, every host left resolves. */
  lemma MovedResolves(m: Memory, ip: Addr, avail: seq<Host>, o: Host, h: Host, mates: set<Host>)
    requires Moving(m, ip, avail, o) && o !in avail && h in avail && Elements(avail) <= mates
    ensures ip in m.s.reserved && ResolvesAmong(m.s.dns, h, ip, mates)
  {
    ElementsIn(avail);
    var cur :| LeadsTo(m, ip, avail, o, cur);
    assert Typed(m.s, ip, h, cur);
  }

  // ---------- what becomes of an address ----------

  /** The outcome at address ip, whose A host was o, for the wanted host h stored there. */
  ghost predicate Outcome(s1: Sys, lost: set<Host>, m: Memory, ip: Addr, mates: set<Host>, wanted: set<Host>, o: Host,
      h: Host) {
    if o in wanted then
      && (ip in m.s.reserved <==> ip in s1.reserved)
      && forall n :: n in mates && n in wanted ==> n in s1.dns && n in m.s.dns && m.s.dns[n] == s1.dns[n]
    else if o in lost then ip !in m.s.reserved
    else ip in m.s.reserved && ResolvesAmong(m.s.dns, h, ip, mates)
  }

  lemma OutcomeStays(s1: Sys, lost: set<Host>, m: Memory, m': Memory, ip: Addr, mates: set<Host>, wanted: set<Host>,
      o: Host, h: Host)
    requires Outcome(s1, lost, m, ip, mates, wanted, o, h) && SameAt(m, m', ip, mates)
    ensures Outcome(s1, lost, m', ip, mates, wanted, o, h)
  {
  }

  /** The A host stays, or has no reference, or none is missing at its address. */
  predicate SteadyOwner(lost: set<Host>, wanted: set<Host>, mates: set<Host>, o: Host) {
    o in wanted || o in lost || mates !! lost
  }

  lemma VisitDecides(homes: Homes, s1: Sys, p1: Plan, m1: Memory, w: LossySweep, wanted: set<Host>, v: Visit,
      rest: set<Addr>, h: Host)
    requires Settled(s1, homes, p1, false) && "" !in p1.where && m1.s == s1 && Between(s1, p1.where, m1, w.m, rest)
    requires LooseVisit(s1.st, v) && v.ip in rest && h in Mates(p1.where, v.ip) && h in wanted
    requires v.ip in p1.owner && SteadyOwner(m1.lost, wanted, Mates(p1.where, v.ip), p1.owner[v.ip])
    ensures var w' := LossySweepHosts(homes, LossySweep(w.m, v.avail, w.gone), v.ip, wanted, v.order);
      Outcome(s1, m1.lost, w'.m, v.ip, Mates(p1.where, v.ip), wanted, p1.owner[v.ip], h)
  {
    hide Settled, Between, LossySweepHosts, Meeting, Ground, Whole, SameOthers, Staying, Losing, Moving, Intact, Mates,
      ResolvesAmong;
    var ip, mates, o, w0 := v.ip, Mates(p1.where, v.ip), p1.owner[v.ip], LossySweep(w.m, v.avail, w.gone);
    MeetVisit(homes, s1, p1, m1, w, wanted, v, rest);
    VisitStarts(homes, s1, p1, m1, w, v, rest);
    ElementsIn(v.avail);
    if o in wanted {
      StayingHosts(homes, s1, w0, ip, mates, wanted, v.order);
      StayingMeans(s1, LossySweepHosts(homes, w0, ip, wanted, v.order).m, ip, mates, wanted);
    } else if o in m1.lost {
      LosingHosts(homes, s1, w0, ip, o, wanted, v.order);
      LosingMeans(s1, homes, LossySweepHosts(homes, w0, ip, wanted, v.order).m, ip, o, Elements(v.order));
    } else {
      MovingHosts(homes, s1, p1.where, ip, w0, rest - {ip}, o, wanted, h, v.order);
      var w' := LossySweepHosts(homes, w0, ip, wanted, v.order);
      ElementsIn(w'.avail);
      MovedResolves(w'.m, ip, w'.avail, o, h, mates);
    }
  }

  lemma StayingMeans(s1: Sys, m: Memory, ip: Addr, mates: set<Host>, wanted: set<Host>)
    requires Staying(s1, m, ip, mates, wanted)
    ensures ip in m.s.reserved <==> ip in s1.reserved
    ensures forall n :: n in mates && n in wanted ==> n in s1.dns && n in m.s.dns && m.s.dns[n] == s1.dns[n]
  {
  }

  lemma LosingMeans(s1: Sys, homes: Homes, m: Memory, ip: Addr, o: Host, met: set<Host>)
    requires Losing(s1, homes, m, ip, o, met) && o in met
    ensures ip !in m.s.reserved
  {
  }

  /** How the visit of a fresh address starts. */
  lemma VisitStarts(homes: Homes, s1: Sys, p1: Plan, m1: Memory, w: LossySweep, v: Visit, rest: set<Addr>)
    requires Settled(s1, homes, p1, false) && "" !in p1.where && m1.s == s1 && Between(s1, p1.where, m1, w.m, rest)
    requires LooseVisit(s1.st, v) && v.ip in rest && v.ip in p1.owner
    ensures var ip, mates, o := v.ip, Mates(p1.where, v.ip), p1.owner[v.ip];
      && (forall wanted :: Staying(s1, w.m, ip, mates, wanted))
      && AHost(s1.st, ip, o) && (forall x :: AHost(s1.st, ip, x) ==> x == o) && o in mates && mates <= Elements(v.order)
      && (o in m1.lost ==> Losing(s1, homes, w.m, ip, o, {}))
      && (mates !! m1.lost ==> Moving(w.m, ip, v.avail, o))
      && Distinct(v.order) && Elements(v.order) <= Elements(v.avail) + {""} && Elements(v.avail) == mates
  {
    hide Distinct, Settled, Fresh, SameAt, SameFrame, AHost, Staying, Losing, Moving, Mates;
    var ip, mates, o := v.ip, Mates(p1.where, v.ip), p1.owner[v.ip];
    assert Fresh(s1, w.m.s, ip) && SameAt(m1, w.m, ip, mates);
    OwnerHere(homes, s1, p1, ip);
    FreshNetworks(homes, s1, p1, w.m.s, ip);
    FreshStays(s1, m1, w.m, ip, mates);
    FreshLoses(homes, s1, m1, w.m, ip, mates, o);
    FreshMoves(homes, s1, p1, m1, w.m, ip, v.avail);
  }

  lemma OwnerHere(homes: Homes, s1: Sys, p1: Plan, ip: Addr)
    requires Settled(s1, homes, p1, false) && ip in p1.owner
    ensures var o := p1.owner[ip];
      && AHost(s1.st, ip, o) && (forall x :: AHost(s1.st, ip, x) ==> x == o) && o in Mates(p1.where, ip)
      && ip in s1.st.records && Mates(p1.where, ip) == s1.st.records[ip].Keys
  {
    hide Follows;
    OwnerStored(s1, homes, p1, ip);
    MatesAt(s1.st, p1.where, ip);
    forall x | AHost(s1.st, ip, x) ensures x == p1.owner[ip] {
      AHostOwns(s1, homes, p1, ip, x);
    }
  }

  lemma FreshStays(s1: Sys, m1: Memory, m: Memory, ip: Addr, mates: set<Host>)
    requires Fresh(s1, m.s, ip) && mates == s1.st.records[ip].Keys
    ensures forall wanted :: Staying(s1, m, ip, mates, wanted)
  {
    forall n | n in mates ensures At(s1.st, ip, n) {
    }
  }

  lemma FreshLoses(homes: Homes, s1: Sys, m1: Memory, m: Memory, ip: Addr, mates: set<Host>, o: Host)
    requires Fresh(s1, m.s, ip) && SameAt(m1, m, ip, mates) && o in mates && ip in homes &&
      homes[ip] == NetAt(m.s.st, ip)
    ensures o in m1.lost ==> Losing(s1, homes, m, ip, o, {})
  {
  }

  lemma FreshMoves(homes: Homes, s1: Sys, p1: Plan, m1: Memory, m: Memory, ip: Addr, avail: seq<Host>)
    requires Settled(s1, homes, p1, false) && "" !in p1.where && SameFrame(s1.st, m.s.st) && Fresh(s1, m.s, ip) &&
      ip in p1.owner
    requires SameAt(m1, m, ip, Mates(p1.where, ip)) && Elements(avail) == s1.st.records[ip].Keys == Mates(p1.where, ip)
    ensures Mates(p1.where, ip) !! m1.lost ==> Moving(m, ip, avail, p1.owner[ip])
  {
    hide SameFrame, Intact, Follows, Mates;
    FreshNetworks(homes, s1, p1, m.s, ip);
    FreshWhole(homes, s1, p1, m.s, ip, avail);
    ElementsIn(avail);
    assert LeadsTo(m, ip, avail, p1.owner[ip], p1.owner[ip]);
    OwnersAt(homes, s1, p1, ip);
  }

  lemma {:induction false} StoreDecides(homes: Homes, s1: Sys, p1: Plan, m1: Memory, wanted: set<Host>,
      visits: seq<Visit>, ip: Addr, h: Host)
    requires Settled(s1, homes, p1, false) && "" !in p1.where && m1.s == s1 && LoosePrefix(s1.st, visits)
    requires ip in Addresses(visits) && h in Mates(p1.where, ip) && h in wanted
    requires ip in p1.owner && SteadyOwner(m1.lost, wanted, Mates(p1.where, ip), p1.owner[ip])
    ensures Outcome(s1, m1.lost, LossySweepStore(homes, m1, wanted, visits).m, ip, Mates(p1.where, ip), wanted,
      p1.owner[ip], h)
  {
    hide Settled, Between, LossySweepHosts, LooseVisit, Outcome, Ground, Meeting, Whole, Mates, SameAt, SteadyOwner;
    var init, v := visits[..|visits| - 1], visits[|visits| - 1];
    SnocVisits(visits);
    MeetStore(homes, s1, p1, m1, wanted, init);
    VisitFiled(s1.st, v);
    var w, rest := LossySweepStore(homes, m1, wanted, init), s1.st.records.Keys - Addresses(init);
    if v.ip == ip {
      VisitDecides(homes, s1, p1, m1, w, wanted, v, rest, h);
    } else {
      StoreDecides(homes, s1, p1, m1, wanted, init, ip, h);
      MeetVisit(homes, s1, p1, m1, w, wanted, v, rest);
      OutcomeStays(s1, m1.lost, w.m, LossySweepStore(homes, m1, wanted, visits).m, ip, Mates(p1.where, ip), wanted,
        p1.owner[ip], h);
    }
  }

  // ---------- wanted hosts stay ----------

  /** Nobody wanted has been dropped, and every wanted name that had a record has one. */
  ghost predicate Sparing(dns: map<Host, Rec>, w: LossySweep, wanted: set<Host>) {
    (forall x :: x in w.gone ==> x !in wanted) && forall h :: h in dns && h in wanted ==> h in w.m.s.dns
  }

  lemma SparingTurn(homes: Homes, dns: map<Host, Rec>, w: LossySweep, ip: Addr, wanted: set<Host>, host: Host)
    requires Sparing(dns, w, wanted)
    ensures Sparing(dns, LossySweepHost(homes, w, ip, wanted, host), wanted)
  {
    hide Reach, MarkA, Without;
  }

  lemma {:induction false} SparingHosts(homes: Homes, dns: map<Host, Rec>, w: LossySweep, ip: Addr, wanted: set<Host>,
      order: seq<Host>)
    requires Sparing(dns, w, wanted)
    ensures Sparing(dns, LossySweepHosts(homes, w, ip, wanted, order), wanted)
  {
    hide Sparing, LossySweepHost;
    if order != [] {
      SparingHosts(homes, dns, w, ip, wanted, order[..|order| - 1]);
      SparingTurn(homes, dns, LossySweepHosts(homes, w, ip, wanted, order[..|order| - 1]), ip, wanted,
        order[|order| - 1]);
    }
  }

  lemma {:induction false} SparingStore(homes: Homes, m: Memory, wanted: set<Host>, visits: seq<Visit>)
    ensures Sparing(m.s.dns, LossySweepStore(homes, m, wanted, visits), wanted)
  {
    hide LossySweepHosts;
    if visits != [] {
      var init, v := visits[..|visits| - 1], visits[|visits| - 1];
      SparingStore(homes, m, wanted, init);
      var w := LossySweepStore(homes, m, wanted, init);
      SparingHosts(homes, m.s.dns, LossySweep(w.m, v.avail, w.gone), v.ip, wanted, v.order);
    }
  }

  // ---------- doomed hosts go ----------

  lemma ListedTurn(homes: Homes, s1: Sys, w: LossySweep, ip: Addr, wanted: set<Host>, host: Host)
    requires SameFrame(s1.st, w.m.s.st) && !At(s1.st, ip, "")
    ensures Dropped(s1.st, wanted, w.gone, LossySweepHost(homes, w, ip, wanted, host).gone, ip, [host])
  {
    hide LossyDrop, Without;
    AppendElements(w.gone, host);
  }

  /** The range over one address drops every host of the address that nobody wants, and nobody else. */
  lemma {:induction false} ListedHosts(homes: Homes, s1: Sys, where: map<Host, Addr>, ip: Addr, w: LossySweep,
      unmet: set<Host>, rest: set<Addr>, wanted: set<Host>, order: seq<Host>)
    requires Ground(s1, where) && Meeting(s1, homes, where, ip, w, unmet, rest)
    requires Distinct(order) && Elements(order) <= unmet + {""}
    ensures Dropped(s1.st, wanted, w.gone, LossySweepHosts(homes, w, ip, wanted, order).gone, ip, order)
  {
    hide Ground, LossySweepHost, Elements, Midvisit, SameFrame, Fresh, Mates;
    if order != [] {
      var init, host := order[..|order| - 1], order[|order| - 1];
      SnocElements(order);
      GroundOnce(s1, where);
      ListedHosts(homes, s1, where, ip, w, unmet, rest, wanted, init);
      MeetHosts(homes, s1, where, ip, w, unmet, rest, wanted, init);
      ListedTurn(homes, s1, LossySweepHosts(homes, w, ip, wanted, init), ip, wanted, host);
      assert order == init + [host];
    }
  }

  lemma {:induction false} ListedStore(homes: Homes, s1: Sys, p1: Plan, m1: Memory, wanted: set<Host>,
      visits: seq<Visit>)
    requires Settled(s1, homes, p1, false) && "" !in p1.where && m1.s == s1 && LoosePrefix(s1.st, visits)
    ensures Cleared(s1.st, wanted, LossySweepStore(homes, m1, wanted, visits).gone, visits)
  {
    hide Settled, Between, LossySweepHosts, Ground, Meeting, Whole, SameOthers, Mates, Elements;
    if visits == [] {
      NoElements<Host>([]);
    } else {
      var init, v := visits[..|visits| - 1], visits[|visits| - 1];
      SnocVisits(visits);
      MeetStore(homes, s1, p1, m1, wanted, init);
      ListedStore(homes, s1, p1, m1, wanted, init);
      VisitFiled(s1.st, v);
      var w, rest := LossySweepStore(homes, m1, wanted, init), s1.st.records.Keys - Addresses(init);
      MeetVisit(homes, s1, p1, m1, w, wanted, v, rest);
      VisitOrder(s1.st, v);
      ListedHosts(homes, s1, p1.where, v.ip, LossySweep(w.m, v.avail, w.gone), Elements(v.avail), rest - {v.ip}, wanted,
        v.order);
      assert visits == init + [v];
    }
  }

  lemma VisitOrder(st: StoreVal, v: Visit)
    requires LooseVisit(st, v)
    ensures Distinct(v.order) && Elements(v.order) <= Elements(v.avail) + {""}
  {
  }

  // ---------- records of the addition phase ----------

  /** Every record of dns is still there. */
  ghost predicate KeepsRecords(dns: map<Host, Rec>, dns': map<Host, Rec>) {
    forall h :: h in dns ==> h in dns' && dns'[h] == dns[h]
  }

  lemma PlaceKeepsRecords(homes: Homes, w: Walk, pw: PlanWalk, host: Host, first: Host, next: Addr, net: Net)
    requires InStep(w, pw, homes, next) && "" !in homes
    ensures KeepsRecords(w.s.dns, Place(w, host, first, next, net).s.dns)
  {
    hide Place, Filed, Backed, InNetwork, KeysAgree, PlacePlan;
    PlaceDns(w, pw, homes, host, first, next, net);
    assert w.s.dns.Keys == pw.p.where.Keys;
  }

  lemma {:induction false} PlaceHostsKeepRecords(homes: Homes, s: Sys, p: Plan, u: Unit, next: Addr, n: nat)
    requires Settled(s, homes, p, false) && "" !in homes && n <= |u.hosts|
    requires Available(homes, s, Turn(u, next)) && SameNet(homes, p.where, u)
    ensures KeepsRecords(s.dns, PlaceHosts(s, u, next, n).s.dns)
  {
    hide Settled, Place, InStep, Available, SameNet;
    if n > 0 {
      PlaceHostsKeepRecords(homes, s, p, u, next, n - 1);
      PlaceHostsInStep(homes, s, p, u, next, n - 1);
      PlaceKeepsRecords(homes, PlaceHosts(s, u, next, n - 1), PlanHosts(p, u, next, n - 1), u.hosts[n - 1], u.hosts[0],
        next, u.net);
    }
  }

  /** The addition phase changes no record that exists. */
  lemma {:induction false} AddPhaseKeepsRecords(homes: Homes, s: Sys, p: Plan, turns: seq<Turn>, all: seq<Turn>)
    requires Settled(s, homes, p, false) && "" !in homes
    requires AllAvailable(homes, s, turns) && NetsAgree(homes, p.where, all)
    requires forall t :: t in turns ==> t in all
    ensures KeepsRecords(s.dns, AddPhase(homes, s, turns).dns)
  {
    hide Settled, Extends, HostsOf, PlaceHosts, Available;
    if turns != [] {
      var init, t := turns[..|turns| - 1], turns[|turns| - 1];
      SnocTurns(turns);
      AddPhaseKeepsRecords(homes, s, p, init, all);
      AddPhaseSettles(homes, s, p, init, all);
      NetsStillAgree(homes, p, PlanPhase(p, init), init, all);
      PlaceHostsKeepRecords(homes, AddPhase(homes, s, init), PlanPhase(p, init), t.unit, t.next, |t.unit.hosts|);
    }
  }

  // ---------- whole passes ----------

  /** Beside the empty name exactly the wanted hosts are stored, each once; those that were stored, where they were. */
  ghost predicate FiledNames(st: StoreVal, st': StoreVal, wanted: set<Host>) {
    && (forall h :: h != "" ==> (Stored(st', h) <==> h in wanted))
    && (forall ip, ip', h :: h != "" && At(st', ip, h) && At(st', ip', h) ==> ip == ip')
    && (forall ip, h :: At(st, ip, h) && h in wanted ==> At(st', ip, h))
  }

  lemma NamesFiled(homes: Homes, s: Sys, p: Plan, p1: Plan, turns: seq<Turn>, st': StoreVal)
    requires Settled(s, homes, p, false) && Extends(homes, p, p1, turns) && "" !in HostsOf(turns)
    requires forall ip, h :: h != "" ==>
      (At(st', ip, h) <==> h in HostsOf(turns) && h in p1.where && p1.where[h] == ip)
    ensures FiledNames(s.st, st', HostsOf(turns))
  {
    hide HostsOf, PlanOK, Follows;
    forall h | h != "" ensures Stored(st', h) <==> h in HostsOf(turns) {
      if h in HostsOf(turns) { assert At(st', p1.where[h], h); }
    }
  }

  lemma FiledAt(homes: Homes, s1: Sys, p1: Plan, ip: Addr, h: Host)
    requires Settled(s1, homes, p1, false)
    ensures At(s1.st, ip, h) <==> h in p1.where && p1.where[h] == ip
    ensures h in p1.where <==> h in s1.dns
  {
  }

  lemma OnceAt(homes: Homes, s1: Sys, p1: Plan, h: Host)
    requires Settled(s1, homes, p1, false)
    ensures forall a, b :: At(s1.st, a, h) && At(s1.st, b, h) ==> a == b
  {
    hide Follows;
  }

  lemma LoosePrefixes(st: StoreVal, visits: seq<Visit>)
    requires LooseRange(st, visits)
    ensures LoosePrefix(st, visits)
  {
    hide DistinctAddresses;
  }

  lemma OwnersAt(homes: Homes, s: Sys, p: Plan, ip: Addr)
    requires Settled(s, homes, p, false)
    ensures ip in p.owner <==> ip in s.reserved
    ensures forall o :: AHost(s.st, ip, o) <==> ip in p.owner && o == p.owner[ip]
  {
    forall o ensures AHost(s.st, ip, o) <==> ip in p.owner && o == p.owner[ip] {
      if At(s.st, ip, o) { AHostOwns(s, homes, p, ip, o); }
      if ip in p.owner { OwnerStored(s, homes, p, ip); }
    }
  }

  /** In a coherent system a host leads to its address through the A host at most. */
  lemma OwnerResolves(homes: Homes, s: Sys, p: Plan, ip: Addr, h: Host)
    requires Settled(s, homes, p, true) && At(s.st, ip, h)
    ensures ip in p.owner && p.owner[ip] in s.dns && s.dns[p.owner[ip]].ARec? && s.dns[p.owner[ip]].ip == ip
    ensures h in s.dns && (h == p.owner[ip] || (s.dns[h].CRec? && s.dns[h].canonical == p.owner[ip]))
  {
    assert Backed(s, p, h, true);
    assert Backed(s, p, p.owner[ip], true);
  }

  /** Decided on the store before the pass: the A host of the address stays, or has no reference, or the
      address misses none. */
  ghost predicate Steady(st: StoreVal, lost: set<Host>, wanted: set<Host>, ip: Addr) {
    forall o, k :: AHost(st, ip, o) && At(st, ip, k) && k in lost ==> o in wanted || o in lost
  }

  lemma SteadyAfterAdd(homes: Homes, s: Sys, p: Plan, s1: Sys, p1: Plan, turns: seq<Turn>, lost: set<Host>, ip: Addr)
    requires Settled(s, homes, p, false) && Settled(s1, homes, p1, false) && Extends(homes, p, p1, turns)
    requires lost <= s.dns.Keys && ip in p.owner && Steady(s.st, lost, HostsOf(turns), ip)
    ensures ip in p1.owner && p1.owner[ip] == p.owner[ip]
    ensures SteadyOwner(lost, HostsOf(turns), Mates(p1.where, ip), p1.owner[ip])
  {
    hide HostsOf, PlanOK;
    OwnerStored(s, homes, p, ip);
    forall k | k in Mates(p1.where, ip) && k in lost ensures At(s.st, ip, k) {
      assert k in p.where;
    }
  }

  /** One wanted host that was stored, after any pass with any references and any orders: it is stored where
      it was and has a record.  At a steady address it keeps its service, that is it leads to its address and
      the address is reserved, if and only if the A host there is wanted or has a reference. */
  lemma PassServesIff(homes: Homes, m: Memory, p: Plan, turns: seq<Turn>, visits: seq<Visit>, m': Memory, ip: Addr,
      h: Host)
    requires Settled(m.s, homes, p, true) && "" !in homes && "" !in p.where && "" !in HostsOf(turns)
    requires AllAvailable(homes, m.s, turns) && LooseRange(AddPhase(homes, m.s, turns).st, visits)
    requires NetsAgree(homes, p.where, turns) && LossyPass(homes, m, turns, visits, m') && m.lost <= m.s.dns.Keys
    requires At(m.s.st, ip, h) && h in HostsOf(turns)
    ensures At(m'.s.st, ip, h) && h in m'.s.dns
    ensures Steady(m.s.st, m.lost, HostsOf(turns), ip) ==>
      (ip in m'.s.reserved && Resolves(m'.s.dns, h, ip) <==>
        forall o :: AHost(m.s.st, ip, o) ==> o in HostsOf(turns) || o !in m.lost)
  {
    hide AddPhase, PlanPhase, HostsOf, Settled, NetsAgree, AllAvailable, LooseRange, Extends, Resolves, KeepsRecords,
      Deletes, LossySweepStore, Outcome, Steady, SteadyOwner, Mates, Between, Sparing, Addresses;
    var s1, p1, wanted := AddPhase(homes, m.s, turns), PlanPhase(p, turns), HostsOf(turns);
    var m1 := m.(s := s1);
    SettledStrict(m.s, homes, p);
    AddPhaseSettles(homes, m.s, p, turns, turns);
    AddPhaseKeepsRecords(homes, m.s, p, turns, turns);
    NamesExtend(homes, p, p1, turns);
    StaysFiled(homes, m.s, p, s1, p1, turns, ip, h);
    LooseIsPrefix(s1.st, visits, ip, h);
    var w := LossySweepStore(homes, m1, wanted, visits);
    SparingStore(homes, m1, wanted, visits);
    SparingMeans(s1.dns, w, wanted, h);
    MeetStore(homes, s1, p1, m1, wanted, visits);
    BetweenMeans(s1, p1.where, m1, w.m, s1.st.records.Keys - Addresses(visits), ip, h);
    DeletesSpares(w.m.s.st, w.gone, m'.s.st, ip, h);
    if Steady(m.s.st, m.lost, wanted, ip) {
      OwnerResolves(homes, m.s, p, ip, h);
      SteadyAfterAdd(homes, m.s, p, s1, p1, turns, m.lost, ip);
      StoreDecides(homes, s1, p1, m1, wanted, visits, ip, h);
      OwnersAt(homes, m.s, p, ip);
      OwnersAt(homes, s1, p1, ip);
      OutcomeServes(m.s.dns, s1, m.lost, w.m, ip, Mates(p1.where, ip), wanted, p.owner[ip], h);
    }
  }

  /** After any pass with any references and any orders, failed promotions or not: beside the empty name exactly the
      wanted hosts are stored, where the addition phase left them, so a host that was stored stays where it was; and
      each of them has a record. */
  lemma PassFilesWanted(homes: Homes, m: Memory, p: Plan, turns: seq<Turn>, visits: seq<Visit>, m': Memory)
    requires Settled(m.s, homes, p, false) && "" !in homes && "" !in p.where && "" !in HostsOf(turns)
    requires AllAvailable(homes, m.s, turns) && LooseRange(AddPhase(homes, m.s, turns).st, visits)
    requires NetsAgree(homes, p.where, turns) && LossyPass(homes, m, turns, visits, m')
    ensures FiledNames(m.s.st, m'.s.st, HostsOf(turns)) && HostsOf(turns) <= m'.s.dns.Keys
  {
    hide AddPhase, PlanPhase, HostsOf, Settled, NetsAgree, AllAvailable, LooseRange, Extends, Deletes, LossySweepStore,
      Between, Cleared, Reaches, Addresses, FiledNames, Sparing;
    var s1, p1, wanted := AddPhase(homes, m.s, turns), PlanPhase(p, turns), HostsOf(turns);
    var m1 := m.(s := s1);
    AddPhaseSettles(homes, m.s, p, turns, turns);
    NamesExtend(homes, p, p1, turns);
    LooseReaches(s1.st, visits);
    LoosePrefixes(s1.st, visits);
    var w := LossySweepStore(homes, m1, wanted, visits);
    MeetStore(homes, s1, p1, m1, wanted, visits);
    ListedStore(homes, s1, p1, m1, wanted, visits);
    GoneExactly(homes, s1, p1, wanted, w.gone, visits);
    forall ip, h | h != "" ensures At(m'.s.st, ip, h) <==> h in wanted && h in p1.where && p1.where[h] == ip {
      BetweenMeans(s1, p1.where, m1, w.m, s1.st.records.Keys - Addresses(visits), ip, h);
      FiledAt(homes, s1, p1, ip, h);
      assert h in w.gone <==> h in Elements(w.gone);
      if h in w.gone {
        forall a ensures At(w.m.s.st, a, h) <==> At(s1.st, a, h) {
          BetweenMeans(s1, p1.where, m1, w.m, s1.st.records.Keys - Addresses(visits), a, h);
        }
        OnceAt(homes, s1, p1, h);
        DeletesTakes(w.m.s.st, w.gone, m'.s.st, ip, h);
      } else {
        DeletesSpares(w.m.s.st, w.gone, m'.s.st, ip, h);
      }
    }
    NamesFiled(homes, m.s, p, p1, turns, m'.s.st);
    SparingStore(homes, m1, wanted, visits);
    forall h | h in wanted ensures h in m'.s.dns {
      SparingMeans(s1.dns, w, wanted, h);
      WantedHasRecord(homes, p, s1, p1, turns, h);
    }
  }

  lemma WantedHasRecord(homes: Homes, p: Plan, s1: Sys, p1: Plan, turns: seq<Turn>, h: Host)
    requires Settled(s1, homes, p1, false) && Extends(homes, p, p1, turns) && h in HostsOf(turns)
    ensures h in s1.dns
  {
    hide HostsOf, PlanOK;
  }

  lemma StaysFiled(homes: Homes, s: Sys, p: Plan, s1: Sys, p1: Plan, turns: seq<Turn>, ip: Addr, h: Host)
    requires Settled(s, homes, p, false) && Settled(s1, homes, p1, false) && Extends(homes, p, p1, turns)
    requires At(s.st, ip, h)
    ensures At(s1.st, ip, h) && h in s1.dns && h in Mates(p1.where, ip)
    ensures ip in p.owner ==> p.owner[ip] in Mates(p1.where, ip)
  {
    hide HostsOf, PlanOK;
    assert p1.where[h] == ip;
    SettledPlanOK(s1, homes, p1, false);
    SettledPlanOK(s, homes, p, false);
    OwnerHome(p, ip);
  }

  lemma OwnerHome(p: Plan, ip: Addr)
    requires PlanOK(p)
    ensures ip in p.owner ==> p.owner[ip] in p.where && p.where[p.owner[ip]] == ip
  {
  }

  lemma LooseIsPrefix(st: StoreVal, visits: seq<Visit>, ip: Addr, h: Host)
    requires LooseRange(st, visits) && At(st, ip, h)
    ensures LoosePrefix(st, visits) && ip in Addresses(visits)
  {
    hide DistinctAddresses;
  }

  lemma SparingMeans(dns: map<Host, Rec>, w: LossySweep, wanted: set<Host>, h: Host)
    requires Sparing(dns, w, wanted) && h in wanted
    ensures h !in w.gone && (h in dns ==> h in w.m.s.dns)
  {
  }

  lemma BetweenMeans(s1: Sys, where: map<Host, Addr>, m1: Memory, m: Memory, rest: set<Addr>, ip: Addr, h: Host)
    requires Between(s1, where, m1, m, rest) && h != ""
    ensures At(m.s.st, ip, h) <==> At(s1.st, ip, h)
  {
    hide Fresh, SameAt;
  }

  lemma OutcomeServes(dns: map<Host, Rec>, s1: Sys, lost: set<Host>, m: Memory, ip: Addr, mates: set<Host>,
      wanted: set<Host>, o: Host, h: Host)
    requires Outcome(s1, lost, m, ip, mates, wanted, o, h) && KeepsRecords(dns, s1.dns) && ip in s1.reserved
    requires o in dns && dns[o].ARec? && dns[o].ip == ip && o in mates
    requires h in dns && (h == o || (dns[h].CRec? && dns[h].canonical == o)) && h in mates && h in wanted
    ensures ip in m.s.reserved && Resolves(m.s.dns, h, ip) <==> o in wanted || o !in lost
  {
  }

  /** Every wanted host that was stored still leads to its address, and the address is still reserved. */
  ghost predicate KeepsService(st: StoreVal, s': Sys, wanted: set<Host>) {
    forall ip, h :: At(st, ip, h) && h in wanted ==> ip in s'.reserved && Resolves(s'.dns, h, ip)
  }

  /** No wanted host shares its address with a doomed A host without a reference. */
  ghost predicate OwnersKnown(st: StoreVal, lost: set<Host>, wanted: set<Host>) {
    forall ip, o, h :: AHost(st, ip, o) && At(st, ip, h) && h in wanted ==> o in wanted || o !in lost
  }

  /** A pass from a uniform system, such as a restart leaves and runs keep: the wanted hosts keep their service if
      and only if none of them shares its address with a dropped A host that has no reference. */
  lemma PassKeepsServiceIff(homes: Homes, m: Memory, p: Plan, turns: seq<Turn>, visits: seq<Visit>, m': Memory)
    requires Settled(m.s, homes, p, true) && "" !in homes && "" !in p.where && "" !in HostsOf(turns)
    requires AllAvailable(homes, m.s, turns) && LooseRange(AddPhase(homes, m.s, turns).st, visits)
    requires NetsAgree(homes, p.where, turns) && LossyPass(homes, m, turns, visits, m') && m.lost <= m.s.dns.Keys
    requires Uniform(m.s.st, m.lost)
    ensures KeepsService(m.s.st, m'.s, HostsOf(turns)) <==> OwnersKnown(m.s.st, m.lost, HostsOf(turns))
  {
    hide AddPhase, HostsOf, Settled, NetsAgree, AllAvailable, LooseRange, LossyPass, Resolves, Uniform;
    forall ip, h | At(m.s.st, ip, h) && h in HostsOf(turns)
      ensures ip in m'.s.reserved && Resolves(m'.s.dns, h, ip) <==>
        forall o :: AHost(m.s.st, ip, o) ==> o in HostsOf(turns) || o !in m.lost
    {
      UniformSteady(m.s.st, m.lost, HostsOf(turns), ip);
      PassServesIff(homes, m, p, turns, visits, m', ip, h);
    }
  }

  lemma UniformSteady(st: StoreVal, lost: set<Host>, wanted: set<Host>, ip: Addr)
    requires Uniform(st, lost)
    ensures Steady(st, lost, wanted, ip)
  {
  }
}
