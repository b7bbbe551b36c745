/**
 One address while its hosts are met, whatever references the client has: what holds there after every
 turn, and that a turn touches no other address.
 */
module OneAddress {
  import opened Types
  import opened StoreSpec
  import opened Reconcile
  import opened RecordTable
  import opened Addition
  import opened Removal
  import opened Lossy

  /** cur holds the A record, as the store says; every other host still available is a CNAME. */
  ghost predicate Intact(s: Sys, ip: Addr, avail: seq<Host>, cur: Host) {
    && cur in avail && RefusesA(s.dns, cur, ip, NetAt(s.st, ip).netview)
    && forall h :: h in avail ==> At(s.st, ip, h) && Typed(s, ip, h, cur)
  }

  predicate Typed(s: Sys, ip: Addr, h: Host, cur: Host)
    requires At(s.st, ip, h)
  {
    if h == cur then s.st.records[ip][h] == A
    else s.st.records[ip][h] == CNAME && HasCname(s.dns, h, NetAt(s.st, ip).netview)
  }

  /** No host that is still available is stored as an A host: a promotion has failed here, or none is left. */
  ghost predicate Spent(s: Sys, ip: Addr, avail: seq<Host>) {
    forall h :: h in avail ==> At(s.st, ip, h) && s.st.records[ip][h] == CNAME
  }

  ghost predicate Whole(s: Sys, ip: Addr, avail: seq<Host>) {
    exists cur :: Intact(s, ip, avail, cur)
  }

  /** What the loop can rely on between two turns at address ip. */
  ghost predicate Midvisit(s: Sys, homes: Homes, ip: Addr, avail: seq<Host>) {
    && Distinct(avail) && "" !in avail
    && ip in s.st.records && ip in s.st.netviews && ip in s.st.cidrs && ip in homes && homes[ip] == NetAt(s.st, ip)
    && (At(s.st, ip, "") ==> s.st.records[ip][""] == A)
    && (Spent(s, ip, avail) || Whole(s, ip, avail))
  }

  lemma WithoutIn(avail: seq<Host>, host: Host)
    requires Distinct(avail)
    ensures Distinct(Without(avail, host)) && forall h :: h in Without(avail, host) <==> h in avail && h != host
  {
    WithoutDistinct(avail, host);
    forall h ensures h in Without(avail, host) <==> h in avail && h != host {
      assert h in Without(avail, host) <==> h in Elements(Without(avail, host));
    }
  }

  /** A host that is met with an A record and leaves mates behind can hand it over. */
  lemma CanPromote(s: Sys, homes: Homes, ip: Addr, avail: seq<Host>, host: Host)
    requires Midvisit(s, homes, ip, avail) && host in avail && AHost(s.st, ip, host) && Without(avail, host) != []
    ensures Promotable(s.dns, homes, Without(avail, host), host, ip, NetAt(s.st, ip)) && host in s.dns
    ensures forall h :: h in Without(avail, host) ==> h in s.dns
  {
    WithoutIn(avail, host);
    var cur :| Intact(s, ip, avail, cur);
    assert Typed(s, ip, host, cur);
    forall h | h in Without(avail, host) ensures HasCname(s.dns, h, NetAt(s.st, ip).netview) {
      assert Typed(s, ip, h, cur);
    }
  }

  // ---------- a turn at the address ----------

  lemma SpentLess(s: Sys, s': Sys, homes: Homes, ip: Addr, avail: seq<Host>, host: Host)
    requires Midvisit(s, homes, ip, avail) && s'.st == s.st
    requires Spent(s, ip, avail)
    ensures Midvisit(s', homes, ip, Without(avail, host))
  {
    WithoutIn(avail, host);
    assert Spent(s', ip, Without(avail, host));
  }

  /** A CNAME goes: whoever holds the A record still does. */
  lemma CnameGoes(s: Sys, s': Sys, homes: Homes, ip: Addr, avail: seq<Host>, host: Host)
    requires Midvisit(s, homes, ip, avail) && At(s.st, ip, host) && s.st.records[ip][host] == CNAME
    requires s'.st == s.st && (s'.dns == s.dns || s'.dns == s.dns - {host})
    ensures Midvisit(s', homes, ip, Without(avail, host))
  {
    if Spent(s, ip, avail) {
      SpentLess(s, s', homes, ip, avail, host);
    } else {
      WithoutIn(avail, host);
      var cur :| Intact(s, ip, avail, cur);
      assert Typed(s, ip, cur, cur);
      forall h | h in Without(avail, host) ensures Typed(s', ip, h, cur) {
        assert Typed(s, ip, h, cur);
      }
      assert Intact(s', ip, Without(avail, host), cur);
    }
  }

  /** The A host goes without a promotion: the others are CNAMEs. */
  lemma AGoes(s: Sys, s': Sys, homes: Homes, ip: Addr, avail: seq<Host>, host: Host)
    requires Midvisit(s, homes, ip, avail) && AHost(s.st, ip, host) && (host in avail || host == "")
    requires s'.st == s.st || s'.st == MarkA(s.st, ip, "")
    requires host == "" ==> s'.dns == s.dns
    ensures Midvisit(s', homes, ip, Without(avail, host))
  {
    WithoutIn(avail, host);
    if host == "" {
      WithoutAbsent(avail, host);
      if Spent(s, ip, avail) {
        assert Spent(s', ip, avail);
      } else {
        var cur :| Intact(s, ip, avail, cur);
        forall h | h in avail ensures Typed(s', ip, h, cur) {
          assert Typed(s, ip, h, cur);
        }
        assert Intact(s', ip, avail, cur);
      }
    } else {
      var cur :| Intact(s, ip, avail, cur);
      assert Typed(s, ip, host, cur);
      forall h | h in Without(avail, host) ensures At(s'.st, ip, h) && s'.st.records[ip][h] == CNAME {
        assert Typed(s, ip, h, cur);
      }
      assert Spent(s', ip, Without(avail, host));
    }
  }

  /** A promotion goes through: the first host left holds the A record, the others are CNAMEs. */
  lemma AMoves(s: Sys, s': Sys, homes: Homes, ip: Addr, avail: seq<Host>, host: Host)
    requires Midvisit(s, homes, ip, avail) && AHost(s.st, ip, host) && host in avail && Without(avail, host) != []
    requires var rest, netview := Without(avail, host), NetAt(s.st, ip).netview;
      s'.st == MarkA(s.st, ip, rest[0]) && s'.dns == Promoted(s.dns, Elements(rest), rest[0], host, ip, netview)
    ensures Midvisit(s', homes, ip, Without(avail, host)) && Whole(s', ip, Without(avail, host))
  {
    WithoutIn(avail, host);
    var rest := Without(avail, host);
    var cur :| Intact(s, ip, avail, cur);
    assert Typed(s, ip, host, cur);
    assert rest[0] in rest;
    forall h | h in rest ensures At(s'.st, ip, h) && Typed(s', ip, h, rest[0]) && h in s'.dns {
      assert Typed(s, ip, h, cur);
      assert h in Elements(rest);
    }
    assert Intact(s', ip, rest, rest[0]);
  }

  /** A promotion stops half-way: nobody left is stored as A host. */
  lemma AStops(s: Sys, s': Sys, homes: Homes, ip: Addr, avail: seq<Host>, host: Host)
    requires Midvisit(s, homes, ip, avail) && AHost(s.st, ip, host) && host in avail
    requires s'.st == MarkA(s.st, ip, "")
    ensures Midvisit(s', homes, ip, Without(avail, host))
  {
    AGoes(s, s', homes, ip, avail, host);
  }

  /** One turn, whatever references there are. */
  lemma DropMidvisit(homes: Homes, m: Memory, ip: Addr, avail: seq<Host>, host: Host)
    requires Midvisit(m.s, homes, ip, avail) && At(m.s.st, ip, host) &&
      (host in avail || (host == "" && "" !in m.s.dns))
    ensures Midvisit(LossyDrop(homes, m, ip, host, Without(avail, host)).s, homes, ip, Without(avail, host))
  {
    hide Midvisit, MarkA, Promoted, Reach, Without;
    var s', rest := LossyDrop(homes, m, ip, host, Without(avail, host)).s, Without(avail, host);
    EmptyIsA(m.s, homes, ip, avail);
    if m.s.st.records[ip][host] == CNAME {
      CnameGoes(m.s, s', homes, ip, avail, host);
    } else if rest == [] || host in m.lost || host == "" {
      AGoes(m.s, s', homes, ip, avail, host);
    } else if Reach(rest, m.lost, 1) == |rest| {
      assert rest[..|rest|] == rest;
      AMoves(m.s, s', homes, ip, avail, host);
    } else {
      AStops(m.s, s', homes, ip, avail, host);
    }
  }

  lemma EmptyIsA(s: Sys, homes: Homes, ip: Addr, avail: seq<Host>)
    requires Midvisit(s, homes, ip, avail)
    ensures At(s.st, ip, "") ==> s.st.records[ip][""] == A
    ensures "" !in avail
  {
  }

  // ---------- what a turn leaves alone ----------

  /** The same store but for entries of the empty name and the types at one address. */
  ghost predicate SameElsewhere(st: StoreVal, st': StoreVal, ip: Addr) {
    && st'.netviews == st.netviews && st'.cidrs == st.cidrs && st'.records.Keys == st.records.Keys
    && (forall ip' :: ip' in st.records && ip' != ip ==> st'.records[ip'] == st.records[ip'])
    && (ip in st.records ==> forall h :: h != "" ==> (h in st'.records[ip] <==> h in st.records[ip]))
  }

  /** Names other than host and those available, and reservations of other addresses, are as before. */
  ghost predicate OthersKept(s: Sys, s': Sys, ip: Addr, names: set<Host>) {
    && (forall n :: n !in names ==> (n in s'.dns <==> n in s.dns) && (n in s.dns ==> s'.dns[n] == s.dns[n]))
    && (forall ip' :: ip' != ip ==> (ip' in s'.reserved <==> ip' in s.reserved))
  }

  lemma MarkElsewhere(st: StoreVal, ip: Addr, h: Host)
    requires ip in st.records && (h == "" || h in st.records[ip])
    ensures SameElsewhere(st, MarkA(st, ip, h), ip) && SameElsewhere(st, st, ip)
  {
  }

  lemma PromotedElsewhere(dns: map<Host, Rec>, avail: seq<Host>, n: nat, host: Host, ip: Addr, netview: string)
    requires 0 < n <= |avail|
    ensures var dns' := Promoted(dns, Elements(avail[..n]), avail[0], host, ip, netview);
      forall x :: x !in Elements(avail) + {host} ==> (x in dns' <==> x in dns) && (x in dns ==> dns'[x] == dns[x])
  {
    assert avail[0] in Elements(avail);
    forall x | x in Elements(avail[..n]) ensures x in Elements(avail) {
    }
  }

  lemma OnlyHost(s: Sys, s': Sys, ip: Addr, host: Host, names: set<Host>)
    requires host in names && (s'.dns == s.dns || s'.dns == s.dns - {host})
    requires s'.reserved == s.reserved || s'.reserved == s.reserved - {ip}
    ensures OthersKept(s, s', ip, names)
  {
  }

  lemma DropElsewhere(homes: Homes, m: Memory, ip: Addr, host: Host, avail: seq<Host>)
    requires At(m.s.st, ip, host) && forall h :: h in avail ==> At(m.s.st, ip, h)
    ensures var m' := LossyDrop(homes, m, ip, host, avail);
      && SameElsewhere(m.s.st, m'.s.st, ip) && OthersKept(m.s, m'.s, ip, Elements(avail) + {host})
      && m'.lost <= m.lost <= m'.lost + Elements(avail)
  {
    hide Reach, MarkA, Promoted, SameElsewhere, OthersKept;
    MarkElsewhere(m.s.st, ip, "");
    var m' := LossyDrop(homes, m, ip, host, avail);
    if avail != [] {
      assert avail[0] in avail && avail[0] in Elements(avail);
      MarkElsewhere(m.s.st, ip, avail[0]);
    }
    if avail != [] && m.s.st.records[ip][host] == A && !(host in m.lost || host == "") {
      PromotedElsewhere(m.s.dns, avail, Reach(avail, m.lost, 1), host, ip, NetAt(m.s.st, ip).netview);
      PromotionKeeps(m.s, m'.s, ip, Elements(avail) + {host});
    } else {
      OnlyHost(m.s, m'.s, ip, host, Elements(avail) + {host});
    }
  }

  lemma PromotionKeeps(s: Sys, s': Sys, ip: Addr, names: set<Host>)
    requires forall x :: x !in names ==> (x in s'.dns <==> x in s.dns) && (x in s.dns ==> s'.dns[x] == s.dns[x])
    requires s'.reserved == s.reserved
    ensures OthersKept(s, s', ip, names)
  {
  }

  /** The same hosts but for the empty name, and the same networks. */
  ghost predicate SameFrame(st: StoreVal, st': StoreVal) {
    && st'.netviews == st.netviews && st'.cidrs == st.cidrs && st'.records.Keys == st.records.Keys
    && (forall ip, h :: h != "" ==> (At(st', ip, h) <==> At(st, ip, h)))
  }

  /** Address ip is as it was in s1: its entries and the records of its hosts. */
  ghost predicate Fresh(s1: Sys, s: Sys, ip: Addr) {
    && ip in s1.st.records && ip in s.st.records && s.st.records[ip] == s1.st.records[ip]
    && (forall h :: At(s1.st, ip, h) ==> h in s1.dns && h in s.dns && s.dns[h] == s1.dns[h])
    && (ip in s.reserved <==> ip in s1.reserved)
  }

  /** Every host of an address that is met is filed there alone, so a turn leaves the other addresses fresh. */
  lemma DropFresh(homes: Homes, s1: Sys, m: Memory, ip: Addr, host: Host, avail: seq<Host>, ip': Addr)
    requires HostOnce(s1.st) && SameFrame(s1.st, m.s.st) && Fresh(s1, m.s, ip') && ip' != ip && !At(s1.st, ip', "")
    requires At(m.s.st, ip, host) && forall h :: h in avail ==> At(m.s.st, ip, h)
    ensures SameFrame(s1.st, LossyDrop(homes, m, ip, host, avail).s.st)
    ensures Fresh(s1, LossyDrop(homes, m, ip, host, avail).s, ip')
  {
    hide LossyDrop;
    DropElsewhere(homes, m, ip, host, avail);
    var s' := LossyDrop(homes, m, ip, host, avail).s;
    forall h | At(s1.st, ip', h) ensures h !in Elements(avail) + {host} {
      assert At(m.s.st, ip, h) ==> At(s1.st, ip, h);
    }
  }

  lemma FrameDrop(homes: Homes, s1: Sys, m: Memory, ip: Addr, host: Host, avail: seq<Host>)
    requires SameFrame(s1.st, m.s.st) && At(m.s.st, ip, host) && forall h :: h in avail ==> At(m.s.st, ip, h)
    ensures SameFrame(s1.st, LossyDrop(homes, m, ip, host, avail).s.st)
    ensures "" !in m.s.dns && "" !in avail ==> "" !in LossyDrop(homes, m, ip, host, avail).s.dns
  {
    hide LossyDrop;
    DropElsewhere(homes, m, ip, host, avail);
    if host == "" && "" !in m.s.dns { EmptyDrop(homes, m, ip, avail); }
  }

  lemma EmptyDrop(homes: Homes, m: Memory, ip: Addr, avail: seq<Host>)
    requires At(m.s.st, ip, "") && "" !in m.s.dns
    ensures LossyDrop(homes, m, ip, "", avail).s.dns == m.s.dns
  {
  }

  // ---------- the inner range ----------

  /** Where the inner range stands at address ip: the hosts not met yet are available, the addresses in
      rest have not been visited. */
  ghost predicate Meeting(s1: Sys, homes: Homes, where: map<Host, Addr>, ip: Addr, w: LossySweep, unmet: set<Host>,
      rest: set<Addr>) {
    && Midvisit(w.m.s, homes, ip, w.avail) && "" !in w.m.s.dns && SameFrame(s1.st, w.m.s.st)
    && unmet <= Elements(w.avail) <= Mates(where, ip)
    && (forall ip' :: ip' in rest ==> Fresh(s1, w.m.s, ip')) && ip !in rest
  }

  /** What the sweep starts from: a store that files the hosts of where, each at its one address. */
  ghost predicate Ground(s1: Sys, where: map<Host, Addr>) {
    Filed(s1.st, where) && "" !in where
  }

  lemma GroundOnce(s1: Sys, where: map<Host, Addr>)
    requires Ground(s1, where)
    ensures HostOnce(s1.st) && forall ip :: !At(s1.st, ip, "")
  {
  }

  lemma MidvisitFiled(s: Sys, homes: Homes, ip: Addr, avail: seq<Host>)
    requires Midvisit(s, homes, ip, avail)
    ensures Distinct(avail) && "" !in avail && forall h :: h in avail ==> At(s.st, ip, h)
  {
  }

  lemma MeetingTurn(homes: Homes, s1: Sys, where: map<Host, Addr>, ip: Addr, w: LossySweep, unmet: set<Host>,
      rest: set<Addr>, wanted: set<Host>, host: Host)
    requires Ground(s1, where) && Meeting(s1, homes, where, ip, w, unmet, rest) && (host in unmet || host == "")
    ensures Meeting(s1, homes, where, ip, LossySweepHost(homes, w, ip, wanted, host), unmet - {host}, rest)
    ensures At(w.m.s.st, ip, "") ==> At(LossySweepHost(homes, w, ip, wanted, host).m.s.st, ip, "")
  {
    hide Midvisit, SameFrame, Fresh, Filed, LossyDrop, Mates, HostOnce, Elements;
    GroundOnce(s1, where);
    MidvisitFiled(w.m.s, homes, ip, w.avail);
    ElementsIn(w.avail);
    if host !in wanted && At(w.m.s.st, ip, host) {
      var avail := Without(w.avail, host);
      WithoutIn(w.avail, host);
      WithoutDistinct(w.avail, host);
      EmptyStays(homes, w.m, ip, host, avail);
      DropMidvisit(homes, w.m, ip, w.avail, host);
      FrameDrop(homes, s1, w.m, ip, host, avail);
      forall ip' | ip' in rest ensures Fresh(s1, LossyDrop(homes, w.m, ip, host, avail).s, ip') {
        DropFresh(homes, s1, w.m, ip, host, avail, ip');
      }
    }
  }

  lemma EmptyStays(homes: Homes, m: Memory, ip: Addr, host: Host, avail: seq<Host>)
    requires At(m.s.st, ip, host)
    ensures At(m.s.st, ip, "") ==> At(LossyDrop(homes, m, ip, host, avail).s.st, ip, "")
  {
  }

  lemma ElementsIn(hs: seq<Host>)
    ensures forall h :: h in hs <==> h in Elements(hs)
  {
  }

  /** The visit of a fresh address starts whole. */
  lemma MeetingStart(homes: Homes, s1: Sys, p1: Plan, s: Sys, ip: Addr, avail: seq<Host>, w: LossySweep,
      rest: set<Addr>)
    requires Settled(s1, homes, p1, false) && "" !in p1.where && SameFrame(s1.st, s.st) && "" !in s.dns
    requires Fresh(s1, s, ip) && Distinct(avail) && Elements(avail) == s.st.records[ip].Keys
    requires w.m.s == s && w.avail == avail && ip !in rest && forall ip' :: ip' in rest ==> Fresh(s1, s, ip')
    ensures Ground(s1, p1.where) && Meeting(s1, homes, p1.where, ip, w, Elements(avail), rest)
    ensures Mates(p1.where, ip) == Elements(avail) && Whole(s, ip, avail)
  {
    hide SameFrame;
    MatesAt(s1.st, p1.where, ip);
    FreshWhole(homes, s1, p1, s, ip, avail);
    FreshNetworks(homes, s1, p1, s, ip);
    ElementsIn(avail);
    assert "" !in avail;
  }

  lemma FreshNetworks(homes: Homes, s1: Sys, p1: Plan, s: Sys, ip: Addr)
    requires Settled(s1, homes, p1, false) && "" !in p1.where && SameFrame(s1.st, s.st) && Fresh(s1, s, ip)
    ensures ip in s.st.records && ip in s.st.netviews && ip in s.st.cidrs && ip in homes && homes[ip] == NetAt(s.st, ip)
    ensures !At(s.st, ip, "")
  {
    assert !At(s1.st, ip, "");
  }

  lemma FreshWhole(homes: Homes, s1: Sys, p1: Plan, s: Sys, ip: Addr, avail: seq<Host>)
    requires Settled(s1, homes, p1, false) && SameFrame(s1.st, s.st) && Fresh(s1, s, ip)
    requires Elements(avail) == s.st.records[ip].Keys
    ensures Whole(s, ip, avail) && ip in p1.owner && Intact(s, ip, avail, p1.owner[ip])
  {
    ElementsIn(avail);
    assert ip in p1.owner;
    var cur := p1.owner[ip];
    assert Backed(s1, p1, cur, false);
    assert At(s1.st, ip, cur);
    forall h | h in avail ensures At(s.st, ip, h) && Typed(s, ip, h, cur) {
      assert At(s1.st, ip, h);
      assert Backed(s1, p1, h, false);
    }
    assert Intact(s, ip, avail, cur);
  }
}
