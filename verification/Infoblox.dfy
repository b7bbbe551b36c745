/** The IPAM system as the client sees it, and the client. */
module Infoblox {
  import opened Types
  import opened Reconcile
  import opened RecordTable
  import opened Rebuild
  import StoreSpec
  import Store

  /** The managed records and reservations of the IPAM system.  Every address belongs to one network;
      references are numbers, and 0 stands for the empty reference a failed update returns. */
  class Server {
    const homes: Homes
    const zones: seq<string>
    const zone: Host -> string
    var table: Table
    var nextRef: Ref
    var reserved: set<Addr>
    /** No state of the table so far gave one name both an A and a CNAME record. */
    ghost var exclusive: bool
    /** Every release so far gave back an address that was reserved at that moment. */
    ghost var clean: bool

    ghost predicate Valid()
      reads this
    {
      && 0 < nextRef && (forall r :: r in table ==> 0 < r < nextRef)
      && (exclusive ==> Exclusive(table))
    }

    constructor (homes: Homes, zones: seq<string>, zone: Host -> string)
      ensures Valid() && this.homes == homes && this.zones == zones && this.zone == zone
      ensures table == map[] && reserved == {} && exclusive && clean
    {
      this.homes, this.zones, this.zone := homes, zones, zone;
      table, nextRef, reserved, exclusive, clean := map[], 1, {}, true, true;
    }

    method CreateObject(name: Host, data: Rec) returns (ref: Ref)
      requires Valid()
      modifies this`table, this`nextRef, this`exclusive
      ensures Valid() && ref !in old(table) && table == old(table)[ref := Record(name, data)]
      ensures exclusive <==> old(exclusive) && Exclusive(table)
    {
      ref := nextRef;
      nextRef := nextRef + 1;
      table := table[ref := Record(name, data)];
      exclusive := exclusive && Exclusive(table);
    }

    method DeleteObject(ref: Ref)
      requires Valid()
      modifies this`table, this`exclusive
      ensures Valid() && table == old(table) - {ref}
      ensures exclusive <==> old(exclusive) && Exclusive(table)
    {
      table := table - {ref};
      exclusive := exclusive && Exclusive(table);
    }

    /** An update of an A record without a view keeps the record's view.  The reference may change with
        the record's name. */
    method UpdateObject(name: Host, data: Rec, ref: Ref) returns (newRef: Ref)
      requires Valid()
      modifies this`table, this`nextRef, this`exclusive
      ensures Valid()
      ensures ref in old(table) && old(table)[ref].data.ARec? == data.ARec? ==>
        && (newRef == ref || newRef !in old(table))
        && table == (old(table) - {ref})[newRef := Record(name, KeepView(data, old(table)[ref].data))]
      ensures !(ref in old(table) && old(table)[ref].data.ARec? == data.ARec?) ==> newRef == 0 && table == old(table)
      ensures exclusive <==> old(exclusive) && Exclusive(table)
    {
      newRef := 0;
      if ref in table && table[ref].data.ARec? == data.ARec? {
        var kept := KeepView(data, table[ref].data);
        if * {
          newRef := ref;
        } else {
          newRef := nextRef;
          nextRef := nextRef + 1;
        }
        table := (table - {ref})[newRef := Record(name, kept)];
      }
      exclusive := exclusive && Exclusive(table);
    }

    /** Hands out any free address of the network, or the empty string when there is none. */
    method AllocateIP(netview: string, cidr: string) returns (ip: Addr)
      modifies this`reserved
      ensures if exists a :: IsFree(homes, old(reserved), Net(netview, cidr), a)
        then IsFree(homes, old(reserved), Net(netview, cidr), ip) && reserved == old(reserved) + {ip}
        else ip == "" && reserved == old(reserved)
    {
      var free := set a | a in homes && IsFree(homes, reserved, Net(netview, cidr), a);
      if free == {} {
        assert forall a :: IsFree(homes, reserved, Net(netview, cidr), a) ==> a in free;
        return "";
      }
      ip :| ip in free;
      reserved := reserved + {ip};
    }

    method ReleaseIP(netview: string, cidr: string, ip: Addr)
      modifies this`reserved, this`clean
      ensures reserved == Released(old(reserved), homes, ip, Net(netview, cidr))
      ensures reserved == if ip in homes && homes[ip] == Net(netview, cidr) then old(reserved) - {ip} else old(reserved)
      ensures clean <==> old(clean) && Hits(old(reserved), homes, ip, Net(netview, cidr))
    {
      clean := clean && Hits(reserved, homes, ip, Net(netview, cidr));
      if ip in homes && homes[ip] == Net(netview, cidr) {
        reserved := reserved - {ip};
      }
    }

    /** All managed records, in any order. */
    method GetObjects() returns (refs: seq<Ref>)
      ensures Distinct(refs) && Elements(refs) == table.Keys
    {
      refs := [];
      var todo := table.Keys;
      while todo != {}
        invariant todo <= table.Keys && Distinct(refs) && Elements(refs) == table.Keys - todo
        decreases |todo|
      {
        var r :| r in todo;
        AppendElements(refs, r);
        refs, todo := refs + [r], todo - {r};
      }
    }
  }

  class IBloxClient {
    const server: Server
    var recordRef: map<Host, Ref>
    /** The server's records by name. */
    ghost var dns: map<Host, Rec>

    ghost predicate Valid()
      reads this, server
    {
      server.Valid() && Mirrors(server.table, recordRef, dns) && "" !in recordRef
    }

    /** The live names recordRef does not lead to. */
    ghost function Lost(): set<Host>
      reads this
    {
      Unreferenced(recordRef, dns)
    }

    /** A client starts without references: after a restart every live name is lost. */
    constructor (server: Server, ghost names: map<Host, Rec>)
      requires server.Valid() && Mirrors(server.table, map[], names)
      ensures Valid() && this.server == server && dns == names && Lost() == names.Keys
    {
      this.server := server;
      recordRef, dns := map[], names;
    }

    /** The A records with this name, address and view; with no name, those of the zone. */
    method GetARecord(name: Host, ip: Addr, netview: string, zone: string) returns (ret: seq<Ref>)
      ensures Distinct(ret)
      ensures Elements(ret) == set r | r in server.table &&
        AMatches(server.table[r], name, ip, netview, zone, server.zone)
      ensures forall r :: r in ret <==>
        && r in server.table && server.table[r].data.ARec?
        && (server.table[r] == Record(name, ARec(ip, netview)) ||
            (name == "" && server.zone(server.table[r].name) == zone))
      ensures name != "" ==> Elements(ret) == MatchingA(server.table, name, ip, netview)
    {
      var res := server.GetObjects();
      ret := [];
      for i := 0 to |res|
        invariant Distinct(ret)
        invariant Elements(ret) ==
          set r | r in Elements(res[..i]) && r in server.table &&
            AMatches(server.table[r], name, ip, netview, zone, server.zone)
      {
        TakeOne(res, i);
        if AMatches(server.table[res[i]], name, ip, netview, zone, server.zone) {
          AppendElements(ret, res[i]);
          ret := ret + [res[i]];
        }
      }
      assert res[..|res|] == res;
      assert forall r :: r in ret <==> r in Elements(ret);
    }

    /** The CNAME records with this name and view; with no name, those of the zone. */
    method GetCNAMERecord(name: Host, netview: string, zone: string) returns (ret: seq<Ref>)
      ensures Distinct(ret)
      ensures Elements(ret) == set r | r in server.table && CMatches(server.table[r], name, netview, zone, server.zone)
      ensures forall r :: r in ret <==>
        && r in server.table && server.table[r].data.CRec?
        && ((server.table[r].name == name && server.table[r].data.netview == netview) ||
            (name == "" && server.zone(server.table[r].name) == zone))
      ensures name != "" ==> Elements(ret) == MatchingC(server.table, name, netview)
    {
      var res := server.GetObjects();
      ret := [];
      for i := 0 to |res|
        invariant Distinct(ret)
        invariant Elements(ret) ==
          set r | r in Elements(res[..i]) && r in server.table &&
            CMatches(server.table[r], name, netview, zone, server.zone)
      {
        TakeOne(res, i);
        if CMatches(server.table[res[i]], name, netview, zone, server.zone) {
          AppendElements(ret, res[i]);
          ret := ret + [res[i]];
        }
      }
      assert res[..|res|] == res;
      assert forall r :: r in ret <==> r in Elements(ret);
    }

    method CreateARecord(name: Host, ipAddr: Addr, netview: string) returns (created: bool)
      requires server.Valid() && name != ""
      modifies this, server`table, server`nextRef, server`exclusive
      ensures server.Valid()
      ensures created <==> forall r :: r in old(server.table) ==>
        old(server.table)[r] != Record(name, ARec(ipAddr, netview))
      ensures created <==> MatchingA(old(server.table), name, ipAddr, netview) == {}
      ensures if created
        then Inserted(old(server.table), old(recordRef), server.table, recordRef, name, ARec(ipAddr, netview))
        else
          && server.table == old(server.table) && recordRef == old(recordRef)
          && server.exclusive == old(server.exclusive)
      ensures old(Valid()) && name !in old(dns) ==>
        && created && Valid() && dns == old(dns)[name := ARec(ipAddr, netview)] && Lost() == old(Lost())
        && (old(server.exclusive) ==> server.exclusive)
    {
      var res := GetARecord(name, ipAddr, netview, "");
      if |res| > 0 {
        assert res[0] in Elements(res);
        if Valid() { UniqueMatch(server.table, recordRef, dns, name, ipAddr, netview); }
        return false;
      }
      var ref := server.CreateObject(name, ARec(ipAddr, netview));
      if old(Valid()) && name !in dns {
        CreateMirrors(old(server.table), recordRef, dns, ref, name, ARec(ipAddr, netview));
        dns := dns[name := ARec(ipAddr, netview)];
        MirrorsExclusive(server.table, recordRef[name := ref], dns);
      }
      recordRef := recordRef[name := ref];
      return true;
    }

    method CreateCNAMERecord(name: Host, canonical: Host, netview: string)
      requires server.Valid() && name != ""
      modifies this, server`table, server`nextRef, server`exclusive
      ensures server.Valid()
      ensures server.table == old(server.table) <==>
        old(exists r ::
          && r in server.table && server.table[r].name == name
          && server.table[r].data.CRec? && server.table[r].data.netview == netview)
      ensures if MatchingC(old(server.table), name, netview) == {}
        then Inserted(old(server.table), old(recordRef), server.table, recordRef, name, CRec(canonical, netview))
        else
          && server.table == old(server.table) && recordRef == old(recordRef)
          && server.exclusive == old(server.exclusive)
      ensures old(Valid()) && (name in old(dns) ==> HasCname(old(dns), name, netview)) ==>
        && Valid() && dns == CreatedC(old(dns), name, canonical, netview) && Lost() == old(Lost())
        && (old(server.exclusive) ==> server.exclusive)
    {
      var res := GetCNAMERecord(name, netview, "");
      if Valid() { UniqueMatch(server.table, recordRef, dns, name, "", netview); }
      if |res| > 0 {
        assert res[0] in Elements(res);
        return;
      }
      var ref := server.CreateObject(name, CRec(canonical, netview));
      if old(Valid()) && name !in dns {
        CreateMirrors(old(server.table), recordRef, dns, ref, name, CRec(canonical, netview));
        dns := dns[name := CRec(canonical, netview)];
        MirrorsExclusive(server.table, recordRef[name := ref], dns);
      }
      recordRef := recordRef[name := ref];
    }

    /** Deletes the A record when its network is the expected one, and releases the address in any case.
        The empty name stands for the records of the zone without a name. */
    method DeleteARecord(name: Host, ipAddr: Addr, netview: string, cidr: string)
      requires server.Valid()
      modifies this, server`table, server`exclusive, server`reserved, server`clean
      ensures server.Valid() && (old(server.exclusive) ==> server.exclusive)
      ensures server.table ==
        old(server.table) - DoomedA(old(server.table), server.homes, server.zone, name, ipAddr, Net(netview, cidr))
      ensures name != "" && cidr != "" ==> forall r :: r in old(server.table) ==> (r !in server.table <==>
        && old(server.table)[r] == Record(name, ARec(ipAddr, netview))
        && ipAddr in server.homes && server.homes[ipAddr] == Net(netview, cidr))
      ensures server.reserved == Released(old(server.reserved), server.homes, ipAddr, Net(netview, cidr))
      ensures server.clean <==>
        old(server.clean) && Hits(old(server.reserved), server.homes, ipAddr, Net(netview, cidr))
      ensures recordRef == if server.table == old(server.table) then old(recordRef) else old(recordRef) - {name}
      ensures old(Valid()) && Nameable(old(dns), server.zone, name) ==>
        Valid() && dns == DeletedA(old(dns), server.homes, name, ipAddr, Net(netview, cidr)) &&
          Lost() == old(Lost()) * dns.Keys
    {
      hide Mirrors, Exclusive, Elements, DoomedA, Nameable, Unreferenced;
      ghost var net, doomed :=
        Net(netview, cidr), DoomedA(server.table, server.homes, server.zone, name, ipAddr, Net(netview, cidr));
      var res := GetARecord(name, ipAddr, netview, "");
      NoElements(res);
      DoomedFound(server.table, server.homes, server.zone, name, ipAddr, net, Elements(res));
      if Valid() && Nameable(dns, server.zone, name) {
        DoomedMirrors(server.table, recordRef, dns, server.homes, server.zone, name, ipAddr, net);
      }
      if |res| == 0 {
        if Valid() && Nameable(dns, server.zone, name) { dns := DeletedA(dns, server.homes, name, ipAddr, net); }
        server.ReleaseIP(netview, cidr, ipAddr);
        return;
      }
      DeleteAllA(res, name, netview, cidr);
      if old(Valid()) && Nameable(old(dns), server.zone, name) {
        dns := DeletedA(dns, server.homes, name, ipAddr, net);
      }
      server.ReleaseIP(netview, cidr, ipAddr);
    }

    /** The loop over the A records found: each is deleted when its own address is in the network. */
    method DeleteAllA(res: seq<Ref>, name: Host, netview: string, cidr: string)
      requires server.Valid() && Distinct(res)
      requires forall r :: r in Elements(res) ==> r in server.table && server.table[r].data.ARec?
      modifies this`recordRef, server`table, server`exclusive
      ensures server.Valid() && (old(server.exclusive) ==> server.exclusive)
      ensures server.table == old(server.table) - InNet(old(server.table), server.homes, netview, cidr, Elements(res))
      ensures recordRef ==
        if InNet(old(server.table), server.homes, netview, cidr, Elements(res)) == {} then old(recordRef)
        else old(recordRef) - {name}
    {
      ghost var table := server.table;
      for i := 0 to |res|
        invariant server.Valid() && (old(server.exclusive) ==> server.exclusive)
        invariant server.table == table - InNet(table, server.homes, netview, cidr, Elements(res[..i]))
        invariant recordRef ==
          if InNet(table, server.homes, netview, cidr, Elements(res[..i])) == {} then old(recordRef)
          else old(recordRef) - {name}
      {
        TakeOne(res, i);
        InNetMore(table, server.homes, netview, cidr, Elements(res[..i]), res[i]);
        var netCidr := CidrOf(server.homes, netview, server.table[res[i]].data.ip);
        if netCidr == cidr {
          if server.exclusive { ExclusiveSubset(server.table, {res[i]}); }
          server.DeleteObject(res[i]);
          recordRef := recordRef - {name};
        }
      }
      assert res[..|res|] == res;
    }

    method DeleteCNAMERecord(name: Host, ipAddr: Addr, netview: string, cidr: string)
      requires server.Valid() && name != ""
      modifies this, server`table, server`exclusive
      ensures server.Valid() && (old(server.exclusive) ==> server.exclusive)
      ensures server.table == old(server.table) -
        if CidrOf(server.homes, netview, ipAddr) == cidr then MatchingC(old(server.table), name, netview) else {}
      ensures cidr != "" ==> forall r :: r in old(server.table) ==> (r !in server.table <==>
        && old(server.table)[r].name == name && old(server.table)[r].data.CRec?
        && old(server.table)[r].data.netview == netview
        && ipAddr in server.homes && server.homes[ipAddr] == Net(netview, cidr))
      ensures recordRef == if server.table == old(server.table) then old(recordRef) else old(recordRef) - {name}
      ensures old(Valid()) ==>
        Valid() && dns == DeletedC(old(dns), server.homes, name, ipAddr, Net(netview, cidr)) &&
          Lost() == old(Lost()) * dns.Keys
    {
      hide Mirrors, Exclusive, Elements, MatchingC;
      var res := GetCNAMERecord(name, netview, "");
      NoElements(res);
      if Valid() { DeletedMirrors(server.table, recordRef, dns, server.homes, name, ipAddr, Net(netview, cidr)); }
      if |res| == 0 {
        if Valid() { dns := DeletedC(dns, server.homes, name, ipAddr, Net(netview, cidr)); }
        return;
      }
      var netCidr := CidrOf(server.homes, netview, ipAddr);
      DeleteAll(res, name, netCidr == cidr);
      if old(Valid()) { dns := DeletedC(dns, server.homes, name, ipAddr, Net(netview, cidr)); }
    }

    /** The loop both deletions run over the records they have found. */
    method DeleteAll(res: seq<Ref>, name: Host, inNetwork: bool)
      requires server.Valid() && res != []
      modifies this`recordRef, server`table, server`exclusive
      ensures server.Valid() && (old(server.exclusive) ==> server.exclusive)
      ensures server.table == old(server.table) - if inNetwork then Elements(res) else {}
      ensures recordRef == if inNetwork then old(recordRef) - {name} else old(recordRef)
    {
      for i := 0 to |res|
        invariant server.Valid() && (old(server.exclusive) ==> server.exclusive)
        invariant server.table == old(server.table) - if inNetwork then Elements(res[..i]) else {}
        invariant recordRef == if inNetwork && i > 0 then old(recordRef) - {name} else old(recordRef)
      {
        TakeOne(res, i);
        if inNetwork {
          if server.exclusive { ExclusiveSubset(server.table, {res[i]}); }
          server.DeleteObject(res[i]);
          recordRef := recordRef - {name};
        }
      }
      assert res[..|res|] == res;
    }

    /** The available host's CNAME record is deleted first; then the A record of delHost is renamed.  The
        entry of delHost in recordRef is left behind. */
    method TakeOver(host: Host, delHost: Host, ipAddr: Addr, netview: string, cidr: string)
      requires server.Valid() && host != "" && delHost in recordRef
      modifies this, server`table, server`nextRef, server`exclusive
      ensures server.Valid()
      ensures (
          && old(Valid()) && host != delHost && HasCname(old(dns), host, netview)
          && RefusesA(old(dns), delHost, ipAddr, netview) && CidrOf(server.homes, netview, ipAddr) == cidr) ==>
        && Valid() && dns == (old(dns) - {host} - {delHost})[host := ARec(ipAddr, netview)]
        && Lost() == old(Lost()) - {host}
        && (old(server.exclusive) ==> server.exclusive)
    {
      hide Mirrors, Exclusive;
      var oldRef := recordRef[delHost];
      ghost var sound := Valid() && host != delHost && HasCname(dns, host, netview)
        && RefusesA(dns, delHost, ipAddr, netview) && CidrOf(server.homes, netview, ipAddr) == cidr;
      DeleteCNAMERecord(host, ipAddr, netview, cidr);
      label Deleted:
      if sound { NamedAt(server.table, recordRef, dns, delHost); }
      var newRef := server.UpdateObject(host, ARec(ipAddr, ""), oldRef);
      if sound {
        UpdateMirrors(old@Deleted(server.table), recordRef, dns, delHost, newRef, host, ARec(ipAddr, netview));
        dns := (dns - {delHost})[host := ARec(ipAddr, netview)];
        MirrorsExclusive(server.table, recordRef[host := newRef], dns);
      }
      recordRef := recordRef[host := newRef];
    }

    /** Re-points one CNAME. */
    method Repoint(host: Host, canonical: Host, netview: string)
      requires server.Valid() && host in recordRef
      modifies this, server`table, server`nextRef, server`exclusive
      ensures server.Valid()
      ensures old(Valid()) && HasCname(old(dns), host, netview) ==>
        && Valid() && dns == old(dns)[host := CRec(canonical, netview)] && Lost() == old(Lost())
        && (old(server.exclusive) ==> server.exclusive)
    {
      hide Mirrors, Exclusive;
      ghost var sound := Valid() && HasCname(dns, host, netview);
      if sound { NamedAt(server.table, recordRef, dns, host); }
      var newRef := server.UpdateObject(host, CRec(canonical, netview), recordRef[host]);
      if sound {
        UpdateMirrors(old(server.table), recordRef, dns, host, newRef, host, CRec(canonical, netview));
        assert (dns - {host})[host := CRec(canonical, netview)] == dns[host := CRec(canonical, netview)];
        dns := dns[host := CRec(canonical, netview)];
        MirrorsExclusive(server.table, recordRef[host := newRef], dns);
      }
      recordRef := recordRef[host := newRef];
    }

    /** A promotion that has got through the first n available hosts, from records dns0 and lost names lost0. */
    ghost predicate Through(dns0: map<Host, Rec>, lost0: set<Host>, availHosts: seq<Host>, n: nat, delHost: Host,
        ipAddr: Addr, netview: string)
      requires 0 < n <= |availHosts|
      reads this, server
    {
      && Valid() && Lost() == lost0 - {availHosts[0]}
      && dns == Promoted(dns0, Elements(availHosts[..n]), availHosts[0], delHost, ipAddr, netview)
    }

    /** The loop's turn for the first host, when there is a reference to delHost: lines 239-245 of
        infoblox.go. */
    method PromoteFirst(availHosts: seq<Host>, delHost: Host, ipAddr: Addr, netview: string, cidr: string)
        returns (aRecord: Host)
      requires server.Valid() && availHosts != [] && "" !in availHosts && delHost in recordRef
      modifies this, server`table, server`nextRef, server`exclusive
      ensures server.Valid() && aRecord == availHosts[0]
      ensures old(Valid()) && Promotable(old(dns), server.homes, availHosts, delHost, ipAddr, Net(netview, cidr)) ==>
        && Through(old(dns), old(Lost()), availHosts, 1, delHost, ipAddr, netview)
        && (old(server.exclusive) ==> server.exclusive)
    {
      hide Mirrors, Exclusive, Promoted, Elements, Promotable, Unreferenced;
      ghost var sound := Valid() && Promotable(dns, server.homes, availHosts, delHost, ipAddr, Net(netview, cidr));
      aRecord := availHosts[0];
      if sound { PromotableHost(dns, server.homes, availHosts, delHost, ipAddr, Net(netview, cidr), 0); }
      TakeOver(aRecord, delHost, ipAddr, netview, cidr);
      if sound {
        PromotedFirst(old(dns), aRecord, delHost, ipAddr, netview);
        assert Elements(availHosts[..1]) == {aRecord};
      }
    }

    /** The loop's turn for host i > 0: lines 256-264 of infoblox.go. */
    method RepointNext(availHosts: seq<Host>, i: nat, aRecord: Host, netview: string, ghost dns0: map<Host, Rec>,
        ghost lost0: set<Host>, ghost delHost: Host, ghost ipAddr: Addr, ghost cidr: string, ghost sound: bool)
        returns (found: bool)
      requires server.Valid() && 0 < i < |availHosts|
      requires sound ==>
        && Promotable(dns0, server.homes, availHosts, delHost, ipAddr, Net(netview, cidr))
        && aRecord == availHosts[0] && Through(dns0, lost0, availHosts, i, delHost, ipAddr, netview)
      modifies this, server`table, server`nextRef, server`exclusive
      ensures server.Valid()
      ensures sound ==>
        && Through(dns0, lost0, availHosts, if found then i + 1 else i, delHost, ipAddr, netview)
        && (found <==> availHosts[i] !in lost0) && (old(server.exclusive) ==> server.exclusive)
    {
      hide Mirrors, Exclusive, Promoted, Elements, Promotable, Unreferenced;
      var host := availHosts[i];
      if sound {
        PromotableHost(dns0, server.homes, availHosts, delHost, ipAddr, Net(netview, cidr), i);
        PromotedMore(dns0, Elements(availHosts[..i]), availHosts[0], delHost, ipAddr, netview, host);
        LostMeans(recordRef, dns, host);
      }
      found := host in recordRef;
      if found {
        Repoint(host, aRecord, netview);
      }
    }

    /** Promotes the first available host and re-points the others, up to the first one without a
        reference.  Without a reference to delHost it deletes delHost's A record and releases the address. */
    method CNAMEToA(availHosts: seq<Host>, delHost: Host, ipAddr: Addr, netview: string, cidr: string)
        returns (aRecord: Host, err: bool)
      requires server.Valid() && "" !in availHosts
      modifies this, server`table, server`nextRef, server`exclusive, server`reserved, server`clean
      ensures server.Valid()
      ensures availHosts == [] ==>
        && aRecord == "" && !err && server.table == old(server.table) && server.reserved == old(server.reserved)
        && server.clean == old(server.clean)
      ensures availHosts != [] && delHost !in old(recordRef) ==>
        && aRecord == "" && err
        && server.table ==
          old(server.table) - DoomedA(old(server.table), server.homes, server.zone, delHost, ipAddr, Net(netview, cidr))
        && server.reserved == Released(old(server.reserved), server.homes, ipAddr, Net(netview, cidr))
        && (server.clean <==> old(server.clean) && Hits(old(server.reserved), server.homes, ipAddr, Net(netview, cidr)))
        && (old(server.exclusive) ==> server.exclusive)
        && (old(Valid()) && Nameable(old(dns), server.zone, delHost) ==>
          Valid() && dns == DeletedA(old(dns), server.homes, delHost, ipAddr, Net(netview, cidr)) &&
            Lost() == old(Lost()) * dns.Keys)
      ensures (
          && old(Valid()) && delHost in old(recordRef)
          && Promotable(old(dns), server.homes, availHosts, delHost, ipAddr, Net(netview, cidr))) ==>
        var n := Reach(availHosts, old(Lost()), 1);
        && err == (n < |availHosts|) && aRecord == (if err then "" else availHosts[0])
        && Through(old(dns), old(Lost()), availHosts, n, delHost, ipAddr, netview)
        && server.reserved == old(server.reserved) && server.clean == old(server.clean)
        && (old(server.exclusive) ==> server.exclusive)
    {
      ghost var sound := Valid() && delHost in recordRef &&
        Promotable(dns, server.homes, availHosts, delHost, ipAddr, Net(netview, cidr));
      assert sound ==> availHosts != [];
      hide Mirrors, Exclusive, DoomedA, Nameable, Promotable, Unreferenced, Through;
      aRecord, err := "", false;
      for i := 0 to |availHosts|
        invariant server.Valid() && !err
        invariant i == 0 ==>
          aRecord == "" && server.table == old(server.table) && recordRef == old(recordRef) && dns == old(dns)
        invariant i == 0 ==> server.exclusive == old(server.exclusive)
        invariant server.reserved == old(server.reserved) && server.clean == old(server.clean)
        invariant i > 0 ==> delHost in old(recordRef)
        invariant sound ==> (old(server.exclusive) ==> server.exclusive)
        invariant sound && i > 0 ==>
          && aRecord == availHosts[0] && Reach(availHosts, old(Lost()), i) == Reach(availHosts, old(Lost()), 1)
          && Through(old(dns), old(Lost()), availHosts, i, delHost, ipAddr, netview)
      {
        if i == 0 {
          if delHost !in recordRef {
            DeleteARecord(delHost, ipAddr, netview, cidr);
            return "", true;
          }
          aRecord := PromoteFirst(availHosts, delHost, ipAddr, netview, cidr);
        } else {
          var found :=
            RepointNext(availHosts, i, aRecord, netview, old(dns), old(Lost()), delHost, ipAddr, cidr, sound);
          if !found {
            return "", true;
          }
        }
      }
    }

    /** Reserves any free address of the network; the empty string when none is free. */
    method GetNextAddr(netview: string, cidr: string) returns (ip: Addr)
      modifies server`reserved
      ensures if exists a :: IsFree(server.homes, old(server.reserved), Net(netview, cidr), a)
        then IsFree(server.homes, old(server.reserved), Net(netview, cidr), ip) &&
          server.reserved == old(server.reserved) + {ip}
        else ip == "" && server.reserved == old(server.reserved)
    {
      ip := server.AllocateIP(netview, cidr);
    }

    method ReleaseAddr(netview: string, cidr: string, ipAddr: Addr)
      modifies server`reserved, server`clean
      ensures server.reserved == Released(old(server.reserved), server.homes, ipAddr, Net(netview, cidr))
      ensures server.clean <==>
        old(server.clean) && Hits(old(server.reserved), server.homes, ipAddr, Net(netview, cidr))
    {
      server.ReleaseIP(netview, cidr, ipAddr);
    }

    /** Rebuilds a store from the server's records, zone by zone; recordRef plays no part. */
    method GetRecords() returns (st: Store.Store)
      requires Valid() && "" !in dns
      requires forall n :: n in dns ==> server.zone(n) in server.zones
      ensures fresh(st) && Loaded(st.Val(), dns, server.homes, server.zone, dns.Keys)
    {
      hide Loaded, Reads, Mirrors;
      ghost var names := dns;
      MirrorsReads(server.table, recordRef, dns);
      st := new Store.Store();
      LoadedNothing(names, server.homes, server.zone);
      ghost var done := {};
      for i := 0 to |server.zones|
        invariant fresh(st) && Loaded(st.Val(), names, server.homes, server.zone, done)
        invariant done == set n | n in names && server.zone(n) in Elements(server.zones[..i])
      {
        TakeOne(server.zones, i);
        done := LoadZone(st, server.zones[i], names, done);
      }
      assert server.zones[..|server.zones|] == server.zones;
      assert done == names.Keys;
    }

    method LoadZone(st: Store.Store, z: string, ghost names: map<Host, Rec>, ghost before: set<Host>)
        returns (ghost done: set<Host>)
      requires Reads(server.table, names)
      requires Loaded(st.Val(), names, server.homes, server.zone, before)
      modifies st
      ensures Loaded(st.Val(), names, server.homes, server.zone, done)
      ensures done == before + set n | n in names && server.zone(n) == z
    {
      hide Loaded, LoadIp, LoadNet;
      done := before;
      var resA := GetARecord("", "", "", z);
      for i := 0 to |resA|
        invariant Loaded(st.Val(), names, server.homes, server.zone, done)
        invariant done == before + NamesOf(server.table, Elements(resA[..i]))
      {
        TakeOne(resA, i);
        var res := server.table[resA[i]];
        LoadStep(st.Val(), names, server.homes, server.zone, done, res.name);
        LoadOfA(names, server.homes, server.zone, res.name);
        var cidr := CidrOf(server.homes, res.data.netview, res.data.ip);
        st.AddRecord(res.data.ip, res.name, A, res.data.netview, cidr);
        done := done + {res.name};
      }
      assert resA[..|resA|] == resA;
      var resC := GetCNAMERecord("", "", z);
      LoadCnames(st, z, resA, resC, names, done);
      done := done + NamesOf(server.table, Elements(resC));
      ZoneNames(server.table, names, server.zone, z, Elements(resA), Elements(resC));
    }

    /** The second loop over a zone: each CNAME under the address of the zone's A record it names. */
    method LoadCnames(st: Store.Store, z: string, resA: seq<Ref>, resC: seq<Ref>, ghost names: map<Host, Rec>,
        ghost before: set<Host>)
      requires Reads(server.table, names)
      requires Elements(resA) == set r | r in server.table && AMatches(server.table[r], "", "", "", z, server.zone)
      requires Elements(resC) == set r | r in server.table && CMatches(server.table[r], "", "", z, server.zone)
      requires Loaded(st.Val(), names, server.homes, server.zone, before)
      modifies st
      ensures Loaded(st.Val(), names, server.homes, server.zone, before + NamesOf(server.table, Elements(resC)))
    {
      hide Loaded, LoadIp;
      ghost var done := before;
      for i := 0 to |resC|
        invariant Loaded(st.Val(), names, server.homes, server.zone, done)
        invariant done == before + NamesOf(server.table, Elements(resC[..i]))
      {
        TakeOne(resC, i);
        var res := server.table[resC[i]];
        var ipAddr := FindA(resA, res.data.canonical);
        FoundIsLoadIp(server.table, names, server.zone, z, resA, res, ipAddr);
        LoadStep(st.Val(), names, server.homes, server.zone, done, res.name);
        var cidr := CidrOf(server.homes, res.data.netview, ipAddr);
        st.AddRecord(ipAddr, res.name, CNAME, res.data.netview, cidr);
        done := done + {res.name};
      }
      assert resC[..|resC|] == resC;
    }

    /** The address of the last A record with the canonical name, or the empty string. */
    method FindA(resA: seq<Ref>, canonical: Host) returns (ipAddr: Addr)
      requires forall r :: r in Elements(resA) ==> r in server.table && server.table[r].data.ARec?
      ensures if exists r :: r in Elements(resA) && server.table[r].name == canonical
        then exists r :: r in Elements(resA) && server.table[r].name == canonical && server.table[r].data.ip == ipAddr
        else ipAddr == ""
    {
      ipAddr := "";
      for i := 0 to |resA|
        invariant if exists r :: r in Elements(resA[..i]) && server.table[r].name == canonical
          then exists r ::
            r in Elements(resA[..i]) && server.table[r].name == canonical && server.table[r].data.ip == ipAddr
          else ipAddr == ""
      {
        TakeOne(resA, i);
        if server.table[resA[i]].name == canonical {
          ipAddr := server.table[resA[i]].data.ip;
        }
      }
      assert resA[..|resA|] == resA;
    }
  }

  /** names is the table read by name: no name has two records, and none is empty. */
  ghost predicate Reads(table: Table, names: map<Host, Rec>) {
    && "" !in names
    && (forall r :: r in table ==> table[r].name in names && names[table[r].name] == table[r].data)
    && (forall n :: n in names ==> exists r :: r in table && table[r].name == n)
    && (forall r, r' :: r in table && r' in table && table[r].name == table[r'].name ==> r == r')
  }

  function NamesOf(table: Table, refs: set<Ref>): set<Host> {
    set r | r in refs && r in table :: table[r].name
  }

  lemma MirrorsReads(table: Table, refs: map<Host, Ref>, dns: map<Host, Rec>)
    requires Mirrors(table, refs, dns) && "" !in dns
    ensures Reads(table, dns)
  {
    forall r | r in table ensures Named(table, refs, dns, r) {
    }
    forall n | n in dns ensures exists r :: r in table && table[r].name == n {
      assert table[RefOf(table, n)].name == n;
    }
  }

  lemma LoadedNothing(names: map<Host, Rec>, homes: Homes, zone: Host -> string)
    ensures Loaded(StoreSpec.EMPTY_STORE, names, homes, zone, {})
  {
  }

  lemma LoadOfA(names: map<Host, Rec>, homes: Homes, zone: Host -> string, h: Host)
    requires h in names && names[h].ARec?
    ensures LoadIp(names, zone, h) == names[h].ip
    ensures LoadNet(names, homes, zone, h) == Net(names[h].netview, CidrOf(homes, names[h].netview, names[h].ip))
  {
  }

  /** The zone's A records hold the address a CNAME of the zone is loaded under. */
  lemma FoundIsLoadIp(table: Table, names: map<Host, Rec>, zone: Host -> string, z: string, resA: seq<Ref>, res: Record,
      ip: Addr)
    requires Reads(table, names) && res.name in names && names[res.name] == res.data && res.data.CRec? &&
      zone(res.name) == z
    requires Elements(resA) == set r | r in table && AMatches(table[r], "", "", "", z, zone)
    requires if exists r :: r in Elements(resA) && table[r].name == res.data.canonical
      then exists r :: r in Elements(resA) && table[r].name == res.data.canonical && table[r].data.ip == ip
      else ip == ""
    ensures ip == LoadIp(names, zone, res.name)
  {
    var c := res.data.canonical;
    if exists r :: r in Elements(resA) && table[r].name == c {
      var r :| r in Elements(resA) && table[r].name == c && table[r].data.ip == ip;
    }
  }

  lemma ZoneNames(table: Table, names: map<Host, Rec>, zone: Host -> string, z: string, a: set<Ref>, c: set<Ref>)
    requires Reads(table, names)
    requires a == set r | r in table && AMatches(table[r], "", "", "", z, zone)
    requires c == set r | r in table && CMatches(table[r], "", "", z, zone)
    ensures NamesOf(table, a) + NamesOf(table, c) == set n | n in names && zone(n) == z
  {
    forall n | n in names && zone(n) == z ensures n in NamesOf(table, a) + NamesOf(table, c) {
      var r :| r in table && table[r].name == n;
      assert r in a || r in c;
    }
  }

  lemma TakeOne<T(!new)>(s: seq<T>, i: nat)
    requires i < |s|
    ensures s[i] in Elements(s) && Elements(s[..i + 1]) == Elements(s[..i]) + {s[i]}
    ensures Distinct(s) ==> s[i] !in Elements(s[..i])
  {
    assert s[..i + 1] == s[..i] + [s[i]];
  }

  /** The A records a deletion by name removes: those found whose own address is in the network. */
  function DoomedA(table: Table, homes: Homes, zone: Host -> string, name: Host, ip: Addr, net: Net): set<Ref> {
    set r | r in table && AMatches(table[r], name, ip, net.netview, "", zone)
      && CidrOf(homes, net.netview, table[r].data.ip) == net.cidr
  }

  function InNet(table: Table, homes: Homes, netview: string, cidr: string, refs: set<Ref>): set<Ref> {
    set r | r in refs && r in table && table[r].data.ARec? && CidrOf(homes, netview, table[r].data.ip) == cidr
  }

  lemma InNetMore(table: Table, homes: Homes, netview: string, cidr: string, refs: set<Ref>, r: Ref)
    requires r in table && table[r].data.ARec? && r !in refs
    ensures r !in InNet(table, homes, netview, cidr, refs)
    ensures InNet(table, homes, netview, cidr, refs + {r}) ==
      InNet(table, homes, netview, cidr, refs) + if CidrOf(homes, netview, table[r].data.ip) == cidr then {r} else {}
  {
  }

  lemma DoomedFound(table: Table, homes: Homes, zone: Host -> string, name: Host, ip: Addr, net: Net, found: set<Ref>)
    requires found == set r | r in table && AMatches(table[r], name, ip, net.netview, "", zone)
    ensures DoomedA(table, homes, zone, name, ip, net) == InNet(table, homes, net.netview, net.cidr, found)
    ensures forall r :: r in found ==> r in table && table[r].data.ARec?
    ensures found == {} ==> DoomedA(table, homes, zone, name, ip, net) == {}
    ensures DoomedA(table, homes, zone, name, ip, net) <= table.Keys
  {
  }

  /** A name stands for itself, or is the empty name in a system where every record has a name and a zone. */
  ghost predicate Nameable(dns: map<Host, Rec>, zone: Host -> string, name: Host) {
    name != "" || ("" !in dns && forall n :: n in dns ==> zone(n) != "")
  }

  lemma DoomedMirrors(table: Table, refs: map<Host, Ref>, dns: map<Host, Rec>, homes: Homes, zone: Host -> string,
      name: Host, ip: Addr, net: Net)
    requires Mirrors(table, refs, dns) && Nameable(dns, zone, name)
    ensures var gone, dns' := DoomedA(table, homes, zone, name, ip, net), DeletedA(dns, homes, name, ip, net);
      var refs' := if gone == {} then refs else refs - {name};
      Mirrors(table - gone, refs', dns') && Unreferenced(refs', dns') == Unreferenced(refs, dns) * dns'.Keys
  {
    var gone := DoomedA(table, homes, zone, name, ip, net);
    if name == "" {
      forall r | r in table ensures r !in gone {
        assert Named(table, refs, dns, r);
      }
      assert gone == {};
      assert table - {} == table;
    } else {
      assert gone == if CidrOf(homes, net.netview, ip) == net.cidr then MatchingA(table, name, ip, net.netview) else {};
      DeletedMirrors(table, refs, dns, homes, name, ip, net);
    }
  }

  lemma LostMeans(refs: map<Host, Ref>, dns: map<Host, Rec>, name: Host)
    requires name in dns
    ensures name in Unreferenced(refs, dns) <==> name !in refs
  {
  }

  predicate AMatches(rec: Record, name: Host, ip: Addr, netview: string, zone: string, zoneOf: Host -> string) {
    rec.data.ARec? && (rec == Record(name, ARec(ip, netview)) || (name == "" && zoneOf(rec.name) == zone))
  }

  predicate CMatches(rec: Record, name: Host, netview: string, zone: string, zoneOf: Host -> string) {
    rec.data.CRec? && ((rec.name == name && rec.data.netview == netview) || (name == "" && zoneOf(rec.name) == zone))
  }

  predicate IsFree(homes: Homes, reserved: set<Addr>, net: Net, a: Addr) {
    a in homes && homes[a] == net && a !in reserved
  }

  function KeepView(data: Rec, was: Rec): Rec {
    if data.netview == "" then data.(netview := was.netview) else data
  }
}
