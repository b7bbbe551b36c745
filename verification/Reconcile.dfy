/**
 The state the reconciler works on, and the effect of each call the controller makes on it.
 DNS is a map from name to record; the record table with opaque references behind it is in
 Infoblox.dfy, whose client is proved against the functions here.
 */
module Reconcile {
  import opened Types
  import opened StoreSpec

  /** The network each address of the IPAM system belongs to. */
  type Homes = map<Addr, Net>

  /** The controller's store, the managed DNS records by name, and the reserved addresses. */
  datatype Sys = Sys(st: StoreVal, dns: map<Host, Rec>, reserved: set<Addr>)

  function CidrOf(homes: Homes, netview: string, ip: Addr): string {
    if ip in homes && homes[ip].netview == netview then homes[ip].cidr else ""
  }

  // ---------- effects of the IPAM client's calls ----------

  predicate RefusesA(dns: map<Host, Rec>, name: Host, ip: Addr, netview: string) {
    name in dns && dns[name] == ARec(ip, netview)
  }

  predicate HasCname(dns: map<Host, Rec>, name: Host, netview: string) {
    name in dns && dns[name].CRec? && dns[name].netview == netview
  }

  function CreatedC(dns: map<Host, Rec>, name: Host, canonical: Host, netview: string): map<Host, Rec> {
    if HasCname(dns, name, netview) then dns else dns[name := CRec(canonical, netview)]
  }

  function DeletedA(dns: map<Host, Rec>, homes: Homes, name: Host, ip: Addr, net: Net): map<Host, Rec> {
    if RefusesA(dns, name, ip, net.netview) && CidrOf(homes, net.netview, ip) == net.cidr then dns - {name} else dns
  }

  function DeletedC(dns: map<Host, Rec>, homes: Homes, name: Host, ip: Addr, net: Net): map<Host, Rec> {
    if HasCname(dns, name, net.netview) && CidrOf(homes, net.netview, ip) == net.cidr then dns - {name} else dns
  }

  function Released(reserved: set<Addr>, homes: Homes, ip: Addr, net: Net): set<Addr> {
    if ip in homes && homes[ip] == net then reserved - {ip} else reserved
  }

  /** A release that gives back an address reserved at that moment. */
  predicate Hits(reserved: set<Addr>, homes: Homes, ip: Addr, net: Net) {
    ip in reserved && ip in homes && homes[ip] == net
  }

  /** The A record of del passes to newA; every other name in rest points at newA. */
  function Promoted(dns: map<Host, Rec>, rest: set<Host>, newA: Host, del: Host, ip: Addr,
      netview: string): map<Host, Rec> {
    map n | n in dns && n != del ::
      if n == newA then ARec(ip, netview)
      else if n in rest then CRec(newA, netview)
      else dns[n]
  }

  lemma PromotedKeys(dns: map<Host, Rec>, rest: set<Host>, newA: Host, del: Host, ip: Addr, netview: string)
    ensures Promoted(dns, rest, newA, del, ip, netview).Keys == dns.Keys - {del}
  {
  }

  lemma DeletedKeys(dns: map<Host, Rec>, homes: Homes, name: Host, ip: Addr, net: Net)
    ensures DeletedA(dns, homes, name, ip, net).Keys <= dns.Keys && DeletedC(dns, homes, name, ip, net).Keys <= dns.Keys
  {
  }

  // ---------- what the store, the records and the reservations owe each other ----------

  /** Where every host with a live record is, and which host holds the A record of each address. */
  datatype Plan = Plan(where: map<Host, Addr>, owner: map<Addr, Host>)

  /** Host h is stored at its address under the right record type, and its DNS record matches; when
      strict, a CNAME's canonical name is the owner of the address. */
  ghost predicate Backed(s: Sys, p: Plan, h: Host, strict: bool)
    requires h in p.where
  {
    var ip := p.where[h];
    && At(s.st, ip, h) && ip in p.owner && h in s.dns
    && if h == p.owner[ip] then
         s.st.records[ip][h] == A && s.dns[h] == ARec(ip, NetAt(s.st, ip).netview)
       else
         && s.st.records[ip][h] == CNAME && HasCname(s.dns, h, NetAt(s.st, ip).netview)
         && (strict ==> s.dns[h].canonical == p.owner[ip])
  }

  ghost predicate InNetwork(st: StoreVal, homes: Homes) {
    forall ip :: ip in st.records ==> ip in homes && homes[ip] == NetAt(st, ip)
  }

  /** The records and reservations of s are exactly those of plan p, and the store agrees on the
      hosts of p (it may hold more hosts, whose records are already gone). */
  ghost predicate Follows(s: Sys, homes: Homes, p: Plan, strict: bool) {
    && KeysAgree(s.st) && InNetwork(s.st, homes)
    && s.dns.Keys == p.where.Keys && s.reserved == p.owner.Keys
    && (forall h :: h in p.where ==> Backed(s, p, h, strict))
    && (forall ip :: ip in p.owner ==> p.owner[ip] in p.where && p.where[p.owner[ip]] == ip)
  }

  /** The store holds exactly the hosts of where, each at its one address. */
  ghost predicate Filed(st: StoreVal, where: map<Host, Addr>) {
    forall ip, h :: At(st, ip, h) <==> h in where && where[h] == ip
  }

  ghost predicate Settled(s: Sys, homes: Homes, p: Plan, strict: bool) {
    Follows(s, homes, p, strict) && Filed(s.st, p.where) && s.st.records.Keys == p.owner.Keys
  }

  /** Store, records and reservations agree on hosts, addresses and record types: one A record per
      address, each host at one address, the reserved addresses are the stored ones. */
  ghost predicate Sound(s: Sys, homes: Homes) {
    exists p :: Settled(s, homes, p, false)
  }

  /** Sound, and every CNAME points at the A record of the address it is stored under. */
  ghost predicate Coherent(s: Sys, homes: Homes) {
    exists p :: Settled(s, homes, p, true)
  }

  /** Exactly one host of the address is stored as its A record. */
  ghost predicate OneA(st: StoreVal) {
    && (forall ip :: ip in st.records ==> exists o :: At(st, ip, o) && st.records[ip][o] == A)
    && (forall ip, o, o' :: At(st, ip, o) && At(st, ip, o') && st.records[ip][o] == A && st.records[ip][o'] == A ==>
      o == o')
  }

  predicate AHost(st: StoreVal, ip: Addr, o: Host) {
    At(st, ip, o) && st.records[ip][o] == A
  }

  /** What soundness means in the terms of the store, the records and the reservations. */
  lemma SoundMeans(s: Sys, homes: Homes)
    requires Sound(s, homes)
    ensures WellShaped(s.st) && HostOnce(s.st) && OneA(s.st)
    ensures s.reserved == s.st.records.Keys
    ensures forall h :: h in s.dns <==> Stored(s.st, h)
    ensures forall ip, h :: At(s.st, ip, h) ==>
      if s.st.records[ip][h] == A then s.dns[h] == ARec(ip, NetAt(s.st, ip).netview)
      else HasCname(s.dns, h, NetAt(s.st, ip).netview)
  {
    var p :| Settled(s, homes, p, false);
    forall ip | ip in s.st.records ensures At(s.st, ip, p.owner[ip]) && s.st.records[ip][p.owner[ip]] == A {
      assert Backed(s, p, p.owner[ip], false);
    }
    forall ip, h | At(s.st, ip, h)
      ensures if s.st.records[ip][h] == A then h == p.owner[ip] && s.dns[h] == ARec(ip, NetAt(s.st, ip).netview)
              else HasCname(s.dns, h, NetAt(s.st, ip).netview)
    {
      assert Backed(s, p, h, false);
    }
    forall h ensures h in s.dns <==> Stored(s.st, h) {
      if h in p.where { assert At(s.st, p.where[h], h); }
    }
  }

  // ---------- the removal loop, one doomed host at a time ----------

  /** Line 206 of controller.go: the promoted host becomes the A host of its address in the store. */
  function MarkA(st: StoreVal, ip: Addr, h: Host): StoreVal
    requires ip in st.records
  {
    st.(records := st.records[ip := st.records[ip][h := A]])
  }

  /** Lines 198-212 of controller.go: host is doomed, rest are the hosts still available at its address, and newA is the
      one the IPAM client will promote when a promotion is due. */
  function Drop(s: Sys, homes: Homes, ip: Addr, host: Host, rest: set<Host>, newA: Host): Sys
    requires At(s.st, ip, host) && At(s.st, ip, newA)
  {
    var net := NetAt(s.st, ip);
    match s.st.records[ip][host]
    case A =>
      if rest != {} then
        Sys(MarkA(s.st, ip, newA), Promoted(s.dns, rest, newA, host, ip, net.netview), s.reserved)
      else
        Sys(s.st, DeletedA(s.dns, homes, host, ip, net), Released(s.reserved, homes, ip, net))
    case CNAME =>
      Sys(s.st, DeletedC(s.dns, homes, host, ip, net), s.reserved)
  }

  /** Same addresses, hosts and networks; only record types may differ. */
  ghost predicate SameHosts(st: StoreVal, st': StoreVal) {
    && st'.netviews == st.netviews && st'.cidrs == st.cidrs
    && st'.records.Keys == st.records.Keys
    && (forall ip, h :: At(st, ip, h) <==> At(st', ip, h))
  }

  lemma SameHostsSame(st: StoreVal)
    ensures SameHosts(st, st)
  {
  }

  lemma SameHostsTrans(st: StoreVal, mid: StoreVal, fin: StoreVal)
    requires SameHosts(st, mid) && SameHosts(mid, fin)
    ensures SameHosts(st, fin)
  {
  }

  lemma MarkAKeepsHosts(st: StoreVal, ip: Addr, o: Host)
    requires At(st, ip, o)
    ensures SameHosts(st, MarkA(st, ip, o))
    ensures forall ip', h :: At(st, ip', h) ==>
      MarkA(st, ip, o).records[ip'][h] == if ip' == ip && h == o then A else st.records[ip'][h]
  {
  }

  /** The hosts of one address. */
  function Mates(where: map<Host, Addr>, ip: Addr): set<Host> {
    set h | h in where && where[h] == ip
  }

  /** The plan without host: the address passes to newA when host owned it, or ends with host. */
  function Departed(p: Plan, ip: Addr, host: Host, rest: set<Host>, newA: Host): Plan {
    Plan(p.where - {host},
         if rest == {} then p.owner - {ip}
         else if ip in p.owner && p.owner[ip] == host then p.owner[ip := newA]
         else p.owner)
  }

  lemma DepartedOwners(p: Plan, ip: Addr, host: Host, rest: set<Host>, newA: Host)
    requires forall ip' :: ip' in p.owner ==> p.owner[ip'] in p.where && p.where[p.owner[ip']] == ip'
    requires host in p.where && p.where[host] == ip
    requires newA in p.where && p.where[newA] == ip && (newA == host <==> rest == {})
    ensures var p' := Departed(p, ip, host, rest, newA);
      forall ip' :: ip' in p'.owner ==> p'.owner[ip'] in p'.where && p'.where[p'.owner[ip']] == ip'
  {
  }

  /** What the removal loop knows when it drops host from address ip. */
  ghost predicate Leaving(s: Sys, homes: Homes, p: Plan, strict: bool, ip: Addr, host: Host, rest: set<Host>,
      newA: Host) {
    && Follows(s, homes, p, strict)
    && host in p.where && p.where[host] == ip
    && rest == Mates(p.where, ip) - {host}
    && newA in p.where && p.where[newA] == ip && (newA == host <==> rest == {})
  }

  lemma LeavingAt(s: Sys, homes: Homes, p: Plan, strict: bool, ip: Addr, host: Host, rest: set<Host>, newA: Host)
    requires Leaving(s, homes, p, strict, ip, host, rest, newA)
    ensures At(s.st, ip, host) && At(s.st, ip, newA) && ip in p.owner
    ensures s.st.records[ip][host] == if p.owner[ip] == host then A else CNAME
    ensures rest == {} ==> p.owner[ip] == host
  {
    assert Backed(s, p, host, strict);
    assert Backed(s, p, newA, strict);
    assert p.owner[ip] in Mates(p.where, ip);
    assert p.owner[ip] == host || p.owner[ip] in rest;
  }

  /** A host that stays is backed after a promotion: as owner, as CNAME of the owner, or unchanged. */
  lemma PromotedBacks(s: Sys, p: Plan, strict: bool, ip: Addr, host: Host, rest: set<Host>, newA: Host, h: Host)
    requires h in p.where && h != host && Backed(s, p, h, strict)
    requires ip in p.owner && p.owner[ip] == host && At(s.st, ip, newA)
    requires newA in rest && (h in rest <==> p.where[h] == ip)
    ensures Backed(Sys(MarkA(s.st, ip, newA), Promoted(s.dns, rest, newA, host, ip, NetAt(s.st, ip).netview),
      s.reserved),
      Departed(p, ip, host, rest, newA), h, strict)
  {
    var p' := Departed(p, ip, host, rest, newA);
    assert p'.where[h] == p.where[h];
  }

  /** What a step owes for the system to follow the next plan. */
  lemma FollowsNext(s: Sys, s': Sys, homes: Homes, p: Plan, p': Plan, strict: bool)
    requires Follows(s, homes, p, strict) && SameHosts(s.st, s'.st)
    requires s'.dns.Keys == p'.where.Keys && s'.reserved == p'.owner.Keys
    requires forall h :: h in p'.where ==> Backed(s', p', h, strict)
    requires forall ip :: ip in p'.owner ==> p'.owner[ip] in p'.where && p'.where[p'.owner[ip]] == ip
    ensures Follows(s', homes, p', strict)
  {
    hide Backed;
  }

  lemma StaysBacked(s: Sys, homes: Homes, p: Plan, strict: bool, ip: Addr, host: Host, rest: set<Host>, newA: Host,
      h: Host)
    requires Leaving(s, homes, p, strict, ip, host, rest, newA) && rest != {}
    requires ip in p.owner && p.owner[ip] == host && At(s.st, ip, newA)
    requires h in p.where && h != host
    ensures Backed(Sys(MarkA(s.st, ip, newA), Promoted(s.dns, rest, newA, host, ip, NetAt(s.st, ip).netview),
      s.reserved),
      Departed(p, ip, host, rest, newA), h, strict)
  {
    hide MarkA, Promoted, Departed;
    PromotedBacks(s, p, strict, ip, host, rest, newA, h);
  }

  /** The A host goes and other hosts are left: one of them takes the A record over. */
  lemma DropPromotes(s: Sys, homes: Homes, p: Plan, strict: bool, ip: Addr, host: Host, rest: set<Host>, newA: Host)
    requires Leaving(s, homes, p, strict, ip, host, rest, newA)
    requires At(s.st, ip, host) && At(s.st, ip, newA)
    requires rest != {} && ip in p.owner && p.owner[ip] == host && s.st.records[ip][host] == A
    ensures var s' := Drop(s, homes, ip, host, rest, newA);
      Follows(s', homes, Departed(p, ip, host, rest, newA), strict) && SameHosts(s.st, s'.st)
  {
    hide Backed, Mates, Promoted, MarkA;
    var s', p' := Drop(s, homes, ip, host, rest, newA), Departed(p, ip, host, rest, newA);
    MarkAKeepsHosts(s.st, ip, newA);
    forall h | h in p'.where ensures Backed(s', p', h, strict) {
      StaysBacked(s, homes, p, strict, ip, host, rest, newA, h);
    }
    PromotedKeys(s.dns, rest, newA, host, ip, NetAt(s.st, ip).netview);
    DepartedOwners(p, ip, host, rest, newA);
    FollowsNext(s, s', homes, p, p', strict);
  }

  /** The last host of an address goes: its A record is deleted and the address released. */
  lemma DropReleases(s: Sys, homes: Homes, p: Plan, strict: bool, ip: Addr, host: Host)
    requires Leaving(s, homes, p, strict, ip, host, {}, host)
    requires At(s.st, ip, host) && ip in p.owner && p.owner[ip] == host && s.st.records[ip][host] == A
    ensures var s' := Drop(s, homes, ip, host, {}, host);
      Follows(s', homes, Departed(p, ip, host, {}, host), strict) && SameHosts(s.st, s'.st)
  {
    var s', p' := Drop(s, homes, ip, host, {}, host), Departed(p, ip, host, {}, host);
    assert Backed(s, p, host, strict);
    forall h | h in p'.where ensures Backed(s', p', h, strict) {
      assert Backed(s, p, h, strict);
      assert p.where[h] == ip ==> h in Mates(p.where, ip) - {host};
    }
  }

  /** A CNAME goes: nothing else changes. */
  lemma DropUnlinks(s: Sys, homes: Homes, p: Plan, strict: bool, ip: Addr, host: Host, rest: set<Host>, newA: Host)
    requires Leaving(s, homes, p, strict, ip, host, rest, newA)
    requires At(s.st, ip, host) && At(s.st, ip, newA)
    requires rest != {} && ip in p.owner && p.owner[ip] != host && s.st.records[ip][host] == CNAME
    ensures var s' := Drop(s, homes, ip, host, rest, newA);
      Follows(s', homes, Departed(p, ip, host, rest, newA), strict) && SameHosts(s.st, s'.st)
  {
    var s', p' := Drop(s, homes, ip, host, rest, newA), Departed(p, ip, host, rest, newA);
    assert Backed(s, p, host, strict);
    DepartedOwners(p, ip, host, rest, newA);
    forall h | h in p'.where ensures Backed(s', p', h, strict) {
      assert Backed(s, p, h, strict);
    }
  }

  /** One doomed host, whichever branch the loop takes: the system follows the plan without it. */
  lemma DropFollows(s: Sys, homes: Homes, p: Plan, strict: bool, ip: Addr, host: Host, rest: set<Host>, newA: Host)
    requires Leaving(s, homes, p, strict, ip, host, rest, newA)
    ensures At(s.st, ip, host) && At(s.st, ip, newA)
    ensures var s' := Drop(s, homes, ip, host, rest, newA);
      Follows(s', homes, Departed(p, ip, host, rest, newA), strict) && SameHosts(s.st, s'.st)
  {
    LeavingAt(s, homes, p, strict, ip, host, rest, newA);
    if rest == {} {
      DropReleases(s, homes, p, strict, ip, host);
    } else if p.owner[ip] == host {
      DropPromotes(s, homes, p, strict, ip, host, rest, newA);
    } else {
      DropUnlinks(s, homes, p, strict, ip, host, rest, newA);
    }
  }
}
