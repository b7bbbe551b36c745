/**
 The store GetRecords rebuilds from the IPAM system's records, zone by zone, and when it is the store
 the controller already has.
 */
module Rebuild {
  import opened Types
  import opened StoreSpec
  import opened Reconcile
  import opened Attachment

  type ZoneOf = Host -> string

  /** The address a record is loaded under: a CNAME's is found among the A records of its own zone. */
  function LoadIp(dns: map<Host, Rec>, zone: ZoneOf, h: Host): Addr
    requires h in dns
  {
    match dns[h]
    case ARec(ip, _) => ip
    case CRec(c, _) => if c in dns && dns[c].ARec? && zone(c) == zone(h) then dns[c].ip else ""
  }

  function LoadType(r: Rec): RecordType {
    if r.ARec? then A else CNAME
  }

  function LoadNet(dns: map<Host, Rec>, homes: Homes, zone: ZoneOf, h: Host): Net
    requires h in dns
  {
    Net(dns[h].netview, CidrOf(homes, dns[h].netview, LoadIp(dns, zone, h)))
  }

  /** st is what loading the records of names gives, in any order; the network of an address is that of one
      of the records loaded under it. */
  ghost predicate Loaded(st: StoreVal, dns: map<Host, Rec>, homes: Homes, zone: ZoneOf, names: set<Host>) {
    && WellShaped(st) && names <= dns.Keys
    && (forall ip, h :: At(st, ip, h) <==> h in names && LoadIp(dns, zone, h) == ip)
    && (forall ip, h :: At(st, ip, h) ==> st.records[ip][h] == LoadType(dns[h]))
    && (forall ip :: ip in st.records ==> NetLoaded(st, dns, homes, zone, names, ip))
  }

  ghost predicate NetLoaded(st: StoreVal, dns: map<Host, Rec>, homes: Homes, zone: ZoneOf, names: set<Host>, ip: Addr) {
    exists h :: h in names && LoadsNet(st, dns, homes, zone, ip, h)
  }

  predicate LoadsNet(st: StoreVal, dns: map<Host, Rec>, homes: Homes, zone: ZoneOf, ip: Addr, h: Host) {
    h in dns && LoadIp(dns, zone, h) == ip && NetAt(st, ip) == LoadNet(dns, homes, zone, h)
  }

  /** Records loaded under one address have one network view. */
  ghost predicate OneView(dns: map<Host, Rec>, zone: ZoneOf) {
    forall h, k :: h in dns && k in dns && LoadIp(dns, zone, h) == LoadIp(dns, zone, k) ==>
      dns[h].netview == dns[k].netview
  }

  /** Then each of them gives the network of its address. */
  lemma LoadedNet(st: StoreVal, dns: map<Host, Rec>, homes: Homes, zone: ZoneOf, names: set<Host>, ip: Addr, h: Host)
    requires Loaded(st, dns, homes, zone, names) && OneView(dns, zone) && At(st, ip, h)
    ensures h in dns && NetAt(st, ip) == LoadNet(dns, homes, zone, h)
  {
    hide LoadType, WellShaped, LoadIp;
    assert NetLoaded(st, dns, homes, zone, names, ip);
    var k :| k in names && LoadsNet(st, dns, homes, zone, ip, k);
  }

  /** Loading one more record. */
  lemma LoadStep(st: StoreVal, dns: map<Host, Rec>, homes: Homes, zone: ZoneOf, names: set<Host>, h: Host)
    requires Loaded(st, dns, homes, zone, names) && h in dns
    ensures Loaded(AddRecord(st, LoadIp(dns, zone, h), h, LoadType(dns[h]), LoadNet(dns, homes, zone, h)),
      dns, homes, zone, names + {h})
  {
    hide AddRecord, LoadIp, LoadNet, LoadType, Files, WellShaped, NetLoaded;
    var ip, t, net := LoadIp(dns, zone, h), LoadType(dns[h]), LoadNet(dns, homes, zone, h);
    if At(st, ip, h) {
      LoadAgain(st, ip, h, t, net);
      assert names + {h} == names;
    } else {
      var st' := AddRecord(st, ip, h, t, net);
      AddRecordFiles(st, ip, h, t, net);
      FilesShape(st, st', ip, h, t, net);
      LoadOneMore(st, st', dns, homes, zone, names, h);
      forall ip' | ip' in st'.records ensures NetLoaded(st', dns, homes, zone, names + {h}, ip') {
        NetOneMore(st, st', dns, homes, zone, names, h, ip');
      }
    }
  }

  lemma LoadOneMore(st: StoreVal, st': StoreVal, dns: map<Host, Rec>, homes: Homes, zone: ZoneOf, names: set<Host>,
      h: Host)
    requires Loaded(st, dns, homes, zone, names) && h in dns
    requires Files(st, st', LoadIp(dns, zone, h), h, LoadType(dns[h]), LoadNet(dns, homes, zone, h))
    ensures forall ip, k :: At(st', ip, k) <==> k in names + {h} && LoadIp(dns, zone, k) == ip
    ensures forall ip, k :: At(st', ip, k) ==> st'.records[ip][k] == LoadType(dns[k])
  {
    hide LoadIp, WellShaped, LoadType, LoadNet;
  }

  lemma NetOneMore(st: StoreVal, st': StoreVal, dns: map<Host, Rec>, homes: Homes, zone: ZoneOf, names: set<Host>,
      h: Host, ip: Addr)
    requires Loaded(st, dns, homes, zone, names) && h in dns && ip in st'.records
    requires Files(st, st', LoadIp(dns, zone, h), h, LoadType(dns[h]), LoadNet(dns, homes, zone, h))
    ensures NetLoaded(st', dns, homes, zone, names + {h}, ip)
  {
    hide WellShaped, LoadType, LoadIp, LoadNet;
    if ip == LoadIp(dns, zone, h) {
      assert LoadsNet(st', dns, homes, zone, ip, h);
    } else {
      assert NetLoaded(st, dns, homes, zone, names, ip);
      var k :| k in names && LoadsNet(st, dns, homes, zone, ip, k);
      assert LoadsNet(st', dns, homes, zone, ip, k);
    }
  }

  lemma LoadAgain(st: StoreVal, ip: Addr, h: Host, t: RecordType, net: Net)
    requires At(st, ip, h)
    ensures AddRecord(st, ip, h, t, net) == st
  {
  }

  lemma FilesShape(st: StoreVal, st': StoreVal, ip: Addr, h: Host, t: RecordType, net: Net)
    requires WellShaped(st) && Files(st, st', ip, h, t, net)
    ensures WellShaped(st')
  {
    hide Files;
    FiledKeys(st, st', ip, h, t, net);
    forall ip' | ip' in st'.records ensures st'.records[ip'] != map[] {
      FiledAddress(st, st', ip, h, t, net, ip');
    }
  }

  lemma FiledKeys(st: StoreVal, st': StoreVal, ip: Addr, h: Host, t: RecordType, net: Net)
    requires KeysAgree(st) && Files(st, st', ip, h, t, net)
    ensures KeysAgree(st')
  {
    hide At, NetAt;
  }

  lemma FiledAddress(st: StoreVal, st': StoreVal, ip: Addr, h: Host, t: RecordType, net: Net, ip': Addr)
    requires WellShaped(st) && Files(st, st', ip, h, t, net) && ip' in st'.records
    ensures st'.records[ip'] != map[]
  {
    if ip' in st.records {
      HasHost(st, ip');
      var k :| At(st, ip', k);
      assert At(st', ip', k);
    }
  }

  /** The order of loading does not matter when one address has one view: there is one store with these
      hosts, types and networks. */
  lemma LoadedUnique(st: StoreVal, st': StoreVal, dns: map<Host, Rec>, homes: Homes, zone: ZoneOf, names: set<Host>)
    requires Loaded(st, dns, homes, zone, names) && Loaded(st', dns, homes, zone, names) && OneView(dns, zone)
    ensures st == st'
  {
    hide LoadIp, LoadNet, LoadType, Loaded, OneView;
    LoadedKeys(st, st', dns, homes, zone, names);
    LoadedKeys(st', st, dns, homes, zone, names);
    forall ip | ip in st.records
      ensures st.records[ip] == st'.records[ip] && st.netviews[ip] == st'.netviews[ip] && st.cidrs[ip] == st'.cidrs[ip]
    {
      LoadedAddress(st, st', dns, homes, zone, names, ip);
    }
  }

  lemma LoadedAddress(st: StoreVal, st': StoreVal, dns: map<Host, Rec>, homes: Homes, zone: ZoneOf, names: set<Host>,
      ip: Addr)
    requires Loaded(st, dns, homes, zone, names) && Loaded(st', dns, homes, zone, names) && OneView(dns, zone)
    requires ip in st.records && ip in st'.records
    ensures st.records[ip] == st'.records[ip] && st.netviews[ip] == st'.netviews[ip] && st.cidrs[ip] == st'.cidrs[ip]
  {
    hide LoadIp, LoadNet, LoadType, OneView;
    forall h ensures h in st.records[ip] <==> h in st'.records[ip] {
      assert At(st, ip, h) <==> At(st', ip, h);
    }
    forall h | h in st.records[ip] ensures st.records[ip][h] == st'.records[ip][h] {
      assert At(st, ip, h) && At(st', ip, h);
    }
    HasHost(st, ip);
    var h :| At(st, ip, h);
    assert At(st', ip, h);
    LoadedNet(st, dns, homes, zone, names, ip, h);
    LoadedNet(st', dns, homes, zone, names, ip, h);
  }

  lemma LoadedKeys(st: StoreVal, st': StoreVal, dns: map<Host, Rec>, homes: Homes, zone: ZoneOf, names: set<Host>)
    requires Loaded(st, dns, homes, zone, names) && Loaded(st', dns, homes, zone, names)
    ensures KeysAgree(st) && KeysAgree(st') && forall ip :: ip in st.records ==> ip in st'.records
  {
    hide LoadIp, LoadNet, LoadType;
    forall ip | ip in st.records ensures ip in st'.records {
      HasHost(st, ip);
      var h :| At(st, ip, h);
      assert At(st', ip, h);
    }
  }

  /** Every CNAME is in the zone of its canonical name. */
  ghost predicate OneZone(dns: map<Host, Rec>, zone: ZoneOf) {
    forall h :: h in dns && dns[h].CRec? ==> zone(dns[h].canonical) == zone(h)
  }

  lemma BackedLoads(s: Sys, homes: Homes, zone: ZoneOf, p: Plan, h: Host)
    requires Settled(s, homes, p, true) && h in p.where && "" !in homes
    ensures h in s.dns && p.where[h] != ""
    ensures LoadIp(s.dns, zone, h) == (if s.dns[h].CRec? && zone(s.dns[h].canonical) != zone(h) then "" else p.where[h])
    ensures At(s.st, p.where[h], h) && s.st.records[p.where[h]][h] == LoadType(s.dns[h])
    ensures NetAt(s.st, p.where[h]) == Net(s.dns[h].netview, CidrOf(homes, s.dns[h].netview, p.where[h]))
    ensures s.dns[h].CRec? ==> (
      && s.dns[h].canonical in s.dns && s.dns[s.dns[h].canonical].ARec?
      && s.dns[s.dns[h].canonical].netview == s.dns[h].netview)
    ensures s.dns[h].ARec? ==> (
      && s.dns[h].ip in s.reserved && p.owner[s.dns[h].ip] == h
      && s.dns[h].ip in homes && homes[s.dns[h].ip].netview == s.dns[h].netview)
  {
    hide Filed;
    assert Backed(s, p, h, true);
    assert Backed(s, p, p.owner[p.where[h]], true);
  }

  /** A coherent store is the rebuilt one exactly when no CNAME crosses a zone. */
  lemma LoadedIffOneZone(s: Sys, homes: Homes, zone: ZoneOf)
    requires Coherent(s, homes) && "" !in homes
    ensures Loaded(s.st, s.dns, homes, zone, s.dns.Keys) <==> OneZone(s.dns, zone)
  {
    hide LoadIp, LoadType, Follows, CidrOf;
    var p :| Settled(s, homes, p, true);
    CoherentShape(s, homes, p);
    forall h | h in p.where
      ensures p.where[h] != ""
      ensures LoadIp(s.dns, zone, h) ==
        (if s.dns[h].CRec? && zone(s.dns[h].canonical) != zone(h) then "" else p.where[h])
    {
      BackedLoads(s, homes, zone, p, h);
    }
    if OneZone(s.dns, zone) {
      forall ip, h | At(s.st, ip, h)
        ensures s.st.records[ip][h] == LoadType(s.dns[h]) && LoadsNet(s.st, s.dns, homes, zone, ip, h)
      {
        BackedLoads(s, homes, zone, p, h);
      }
      forall ip | ip in s.st.records ensures NetLoaded(s.st, s.dns, homes, zone, s.dns.Keys, ip) {
        HasHost(s.st, ip);
        var h :| At(s.st, ip, h);
      }
    } else {
      var h :| h in s.dns && s.dns[h].CRec? && zone(s.dns[h].canonical) != zone(h);
      assert At(s.st, p.where[h], h);
    }
  }

  lemma CoherentShape(s: Sys, homes: Homes, p: Plan)
    requires Settled(s, homes, p, true)
    ensures WellShaped(s.st) && p.where.Keys == s.dns.Keys && p.owner.Keys == s.reserved
  {
    forall ip | ip in s.st.records ensures s.st.records[ip] != map[] {
      assert Backed(s, p, p.owner[ip], true);
      assert At(s.st, ip, p.owner[ip]);
    }
  }

  /** What the IPAM system must hold for a freshly loaded store to be coherent with it. */
  ghost predicate Healthy(dns: map<Host, Rec>, reserved: set<Addr>, homes: Homes, zone: ZoneOf) {
    && (forall h :: h in dns && dns[h].ARec? ==>
      dns[h].ip in reserved && dns[h].ip in homes && homes[dns[h].ip].netview == dns[h].netview)
    && (forall h :: h in dns && dns[h].CRec? ==>
      dns[h].canonical in dns && dns[dns[h].canonical].ARec? && dns[dns[h].canonical].netview == dns[h].netview)
    && (forall h, k :: h in dns && k in dns && dns[h].ARec? && dns[k].ARec? && dns[h].ip == dns[k].ip ==> h == k)
    && (forall ip :: ip in reserved ==> exists h :: IsAOf(dns, h, ip))
    && OneZone(dns, zone)
  }

  ghost predicate IsAOf(dns: map<Host, Rec>, h: Host, ip: Addr) {
    h in dns && dns[h].ARec? && dns[h].ip == ip
  }

  ghost function LoadedPlan(dns: map<Host, Rec>, reserved: set<Addr>, homes: Homes, zone: ZoneOf): Plan
    requires Healthy(dns, reserved, homes, zone)
  {
    Plan(map h | h in dns :: LoadIp(dns, zone, h),
         map ip | ip in reserved :: var h :| IsAOf(dns, h, ip); h)
  }

  lemma HealthyOneView(dns: map<Host, Rec>, reserved: set<Addr>, homes: Homes, zone: ZoneOf)
    requires Healthy(dns, reserved, homes, zone)
    ensures OneView(dns, zone)
  {
    forall h | h in dns ensures LoadIp(dns, zone, h) in homes && homes[LoadIp(dns, zone, h)].netview == dns[h].netview {
    }
  }

  lemma LoadedBacked(s: Sys, homes: Homes, zone: ZoneOf, h: Host)
    requires Healthy(s.dns, s.reserved, homes, zone) && Loaded(s.st, s.dns, homes, zone, s.dns.Keys) && h in s.dns
    ensures Backed(s, LoadedPlan(s.dns, s.reserved, homes, zone), h, true)
  {
    hide NetLoaded, OneView, WellShaped;
    var ip, p := LoadIp(s.dns, zone, h), LoadedPlan(s.dns, s.reserved, homes, zone);
    assert At(s.st, ip, h);
    HealthyOneView(s.dns, s.reserved, homes, zone);
    LoadedNet(s.st, s.dns, homes, zone, s.dns.Keys, ip, h);
    assert ip in p.owner;
    assert IsAOf(s.dns, p.owner[ip], ip);
  }

  /** A store loaded from a healthy IPAM system is coherent with it. */
  lemma LoadedIsCoherent(s: Sys, homes: Homes, zone: ZoneOf)
    requires Healthy(s.dns, s.reserved, homes, zone) && Loaded(s.st, s.dns, homes, zone, s.dns.Keys)
    ensures Settled(s, homes, LoadedPlan(s.dns, s.reserved, homes, zone), true)
    ensures Coherent(s, homes)
  {
    hide Backed, Loaded, LoadedPlan, InNetwork, Filed, KeysAgree;
    var p := LoadedPlan(s.dns, s.reserved, homes, zone);
    LoadedFiled(s, homes, zone);
    LoadedOwners(s, homes, zone);
    forall h | h in p.where ensures Backed(s, p, h, true) {
      LoadedBacked(s, homes, zone, h);
    }
    assert Settled(s, homes, p, true);
  }

  lemma LoadedFiled(s: Sys, homes: Homes, zone: ZoneOf)
    requires Healthy(s.dns, s.reserved, homes, zone) && Loaded(s.st, s.dns, homes, zone, s.dns.Keys)
    ensures var p := LoadedPlan(s.dns, s.reserved, homes, zone);
      p.where.Keys == s.dns.Keys && p.owner.Keys == s.reserved && Filed(s.st, p.where) && KeysAgree(s.st)
  {
    hide LoadIp, LoadType, NetLoaded;
  }

  lemma LoadedOwners(s: Sys, homes: Homes, zone: ZoneOf)
    requires Healthy(s.dns, s.reserved, homes, zone) && Loaded(s.st, s.dns, homes, zone, s.dns.Keys)
    ensures var p := LoadedPlan(s.dns, s.reserved, homes, zone);
      && (forall ip :: ip in p.owner ==> p.owner[ip] in p.where && p.where[p.owner[ip]] == ip)
      && s.st.records.Keys == p.owner.Keys && InNetwork(s.st, homes)
  {
    hide LoadType, NetLoaded;
    var p := LoadedPlan(s.dns, s.reserved, homes, zone);
    forall ip | ip in p.owner ensures p.owner[ip] in p.where && p.where[p.owner[ip]] == ip && ip in s.st.records {
      assert IsAOf(s.dns, p.owner[ip], ip);
      assert At(s.st, ip, p.owner[ip]);
    }
    forall ip | ip in s.st.records ensures ip in p.owner && ip in homes && homes[ip] == NetAt(s.st, ip) {
      HasHost(s.st, ip);
      var h :| At(s.st, ip, h);
      HealthyOneView(s.dns, s.reserved, homes, zone);
      LoadedNet(s.st, s.dns, homes, zone, s.dns.Keys, ip, h);
      HealthyHome(s.dns, s.reserved, homes, zone, h);
    }
  }

  lemma HealthyHome(dns: map<Host, Rec>, reserved: set<Addr>, homes: Homes, zone: ZoneOf, h: Host)
    requires Healthy(dns, reserved, homes, zone) && h in dns
    ensures var ip := LoadIp(dns, zone, h); ip in reserved && ip in homes && homes[ip] == LoadNet(dns, homes, zone, h)
  {
  }

  lemma CoherentIsHealthy(s: Sys, homes: Homes, zone: ZoneOf)
    requires Coherent(s, homes) && "" !in homes && OneZone(s.dns, zone)
    ensures Healthy(s.dns, s.reserved, homes, zone)
  {
    hide LoadIp, LoadType, OneZone, Follows, Backed;
    var p :| Settled(s, homes, p, true);
    CoherentShape(s, homes, p);
    forall h | h in s.dns
      ensures s.dns[h].ARec? ==> (
        && s.dns[h].ip in s.reserved && s.dns[h].ip in homes && homes[s.dns[h].ip].netview == s.dns[h].netview
        && s.dns[h].ip in p.owner && p.owner[s.dns[h].ip] == h)
      ensures s.dns[h].CRec? ==> (
        && s.dns[h].canonical in s.dns && s.dns[s.dns[h].canonical].ARec?
        && s.dns[s.dns[h].canonical].netview == s.dns[h].netview)
    {
      BackedLoads(s, homes, zone, p, h);
    }
    forall ip | ip in s.reserved ensures exists h :: IsAOf(s.dns, h, ip) {
      OwnerIsA(s, homes, p, ip);
    }
  }

  lemma OwnerIsA(s: Sys, homes: Homes, p: Plan, ip: Addr)
    requires Settled(s, homes, p, true) && ip in s.reserved
    ensures ip in p.owner && IsAOf(s.dns, p.owner[ip], ip)
  {
    assert Backed(s, p, p.owner[ip], true);
  }

  /** Being coherent with one-zone records is being the store GetRecords rebuilds from a healthy system. */
  lemma CoherentIffRebuilt(s: Sys, homes: Homes, zone: ZoneOf)
    requires "" !in homes
    ensures Coherent(s, homes) && OneZone(s.dns, zone) <==>
      Healthy(s.dns, s.reserved, homes, zone) && Loaded(s.st, s.dns, homes, zone, s.dns.Keys)
  {
    hide LoadIp, LoadType, Loaded;
    if Coherent(s, homes) && OneZone(s.dns, zone) {
      CoherentIsHealthy(s, homes, zone);
      LoadedIffOneZone(s, homes, zone);
    }
    if Healthy(s.dns, s.reserved, homes, zone) && Loaded(s.st, s.dns, homes, zone, s.dns.Keys) {
      LoadedIsCoherent(s, homes, zone);
    }
  }
}
