/** The store object: three maps keyed by address, updated in place. */
module Store {
  import opened Types
  import Spec = StoreSpec

  class Store {
    var Records: map<Addr, map<Host, RecordType>>
    var Netviews: map<Addr, string>
    var Cidrs: map<Addr, string>

    ghost function Val(): Spec.StoreVal
      reads this
    {
      Spec.StoreVal(Records, Netviews, Cidrs)
    }

    constructor ()
      ensures Val() == Spec.EMPTY_STORE
    {
      Records, Netviews, Cidrs := map[], map[], map[];
    }

    method AddRecord(ip: Addr, host: Host, recordType: RecordType, netview: string, cidr: string)
      modifies this
      ensures Val() == Spec.AddRecord(old(Val()), ip, host, recordType, Net(netview, cidr))
    {
      if ip in Records {
        if host !in Records[ip] {
          Records := Records[ip := Records[ip][host := recordType]];
          Netviews := Netviews[ip := netview];
          Cidrs := Cidrs[ip := cidr];
        }
      } else {
        OverwriteRecord(ip, host, recordType, netview, cidr);
      }
    }

    method OverwriteRecord(ip: Addr, host: Host, recordType: RecordType, netview: string, cidr: string)
      modifies this
      ensures Records == old(Records)[ip := map[host := recordType]]
      ensures Netviews == old(Netviews)[ip := netview] && Cidrs == old(Cidrs)[ip := cidr]
    {
      Records := Records[ip := map[]];
      Records := Records[ip := Records[ip][host := recordType]];
      Netviews := Netviews[ip := netview];
      Cidrs := Cidrs[ip := cidr];
    }

    method DeleteRecord(ip: Addr)
      modifies this
      ensures Val() == Spec.DropAddress(old(Val()), ip)
      ensures Records == old(Records) - {ip} && Netviews == old(Netviews) - {ip} && Cidrs == old(Cidrs) - {ip}
    {
      Records := Records - {ip};
      Netviews := Netviews - {ip};
      Cidrs := Cidrs - {ip};
    }

    /** Scans the addresses in any order and deletes the host at the first one that has it. */
    method DeleteHost(delHost: Host)
      modifies this
      ensures Spec.DeletesHost(old(Val()), delHost, Val())
    {
      var todo := Records.Keys;
      while todo != {}
        invariant todo <= Records.Keys && Val() == old(Val())
        invariant forall ip :: Spec.At(Val(), ip, delHost) ==> ip in todo
        decreases |todo|
      {
        var ip :| ip in todo;
        todo := todo - {ip};
        if delHost in Records[ip] {
          assert Spec.At(old(Val()), ip, delHost);
          Records := Records[ip := Records[ip] - {delHost}];
          if |Records[ip]| == 0 {
            DeleteRecord(ip);
            assert Records == old(Records) - {ip};
          }
          assert Spec.DeletesFrom(old(Val()), ip, delHost, Val());
          return;
        }
      }
    }

    method DeleteHosts(delHosts: seq<Host>)
      modifies this
      ensures Spec.Deletes(old(Val()), delHosts, Val())
    {
      for i := 0 to |delHosts|
        invariant Spec.Deletes(old(Val()), delHosts[..i], Val())
      {
        DeleteHost(delHosts[i]);
        assert delHosts[..i + 1][..i] == delHosts[..i];
      }
      assert delHosts[..|delHosts|] == delHosts;
    }

    /** Scans the addresses in any order; the empty string when no address has the host. */
    method GetIP(host: Host) returns (ip: Addr)
      ensures if Spec.Stored(Val(), host) then Spec.At(Val(), ip, host) else ip == ""
    {
      var todo := Records.Keys;
      while todo != {}
        invariant todo <= Records.Keys
        invariant forall ip :: Spec.At(Val(), ip, host) ==> ip in todo
        decreases |todo|
      {
        var k :| k in todo;
        todo := todo - {k};
        if host in Records[k] {
          assert Spec.At(Val(), k, host);
          return k;
        }
      }
      return "";
    }
  }
}
