/**
 The controller's in-memory store as a value: which hosts are filed under which address, and the
 network of each address.  The class in Store.dfy is proved against these functions.
 */
module StoreSpec {
  import opened Types

  datatype StoreVal = StoreVal(
    records: map<Addr, map<Host, RecordType>>,
    netviews: map<Addr, string>,
    cidrs: map<Addr, string>)

  const EMPTY_STORE := StoreVal(map[], map[], map[])

  /** Host h is filed under address ip. */
  predicate At(st: StoreVal, ip: Addr, h: Host) {
    ip in st.records && h in st.records[ip]
  }

  ghost predicate Stored(st: StoreVal, h: Host) {
    exists ip :: At(st, ip, h)
  }

  /** The address a host is filed under, or the empty string. */
  ghost function IpOf(st: StoreVal, h: Host): Addr {
    if Stored(st, h) then var ip :| At(st, ip, h); ip else ""
  }

  predicate KeysAgree(st: StoreVal) {
    st.records.Keys == st.netviews.Keys == st.cidrs.Keys
  }

  /** The three maps have the same keys and no address is kept without a host. */
  ghost predicate WellShaped(st: StoreVal) {
    && KeysAgree(st)
    && forall ip :: ip in st.records ==> st.records[ip] != map[]
  }

  /** No host is filed under two addresses. */
  ghost predicate HostOnce(st: StoreVal) {
    forall ip, ip', h :: At(st, ip, h) && At(st, ip', h) ==> ip == ip'
  }

  function AddRecord(st: StoreVal, ip: Addr, h: Host, t: RecordType, net: Net): StoreVal {
    if ip in st.records then
      if h in st.records[ip] then st
      else StoreVal(st.records[ip := st.records[ip][h := t]], st.netviews[ip := net.netview], st.cidrs[ip := net.cidr])
    else
      StoreVal(st.records[ip := map[h := t]], st.netviews[ip := net.netview], st.cidrs[ip := net.cidr])
  }

  function DropAddress(st: StoreVal, ip: Addr): StoreVal {
    StoreVal(st.records - {ip}, st.netviews - {ip}, st.cidrs - {ip})
  }

  /** Takes h out of address ip, and the address with its last host. */
  function DeleteAt(st: StoreVal, ip: Addr, h: Host): StoreVal
    requires ip in st.records
  {
    var rest := st.records[ip] - {h};
    if rest == map[] then DropAddress(st, ip) else st.(records := st.records[ip := rest])
  }

  ghost function DeleteHost(st: StoreVal, h: Host): StoreVal {
    if Stored(st, h) then DeleteAt(st, IpOf(st, h), h) else st
  }

  ghost function DeleteHosts(st: StoreVal, hs: seq<Host>): StoreVal {
    if hs == [] then st else DeleteHost(DeleteHosts(st, hs[..|hs| - 1]), hs[|hs| - 1])
  }

  /** Host h leaves an address that has it, whichever one a scan meets first. */
  ghost predicate DeletesHost(st: StoreVal, h: Host, st': StoreVal) {
    if Stored(st, h) then exists ip :: DeletesFrom(st, ip, h, st') else st' == st
  }

  predicate DeletesFrom(st: StoreVal, ip: Addr, h: Host, st': StoreVal) {
    At(st, ip, h) && st' == DeleteAt(st, ip, h)
  }

  /** The hosts of the list leave one after the other, in any store. */
  ghost predicate Deletes(st: StoreVal, hs: seq<Host>, st': StoreVal)
    decreases |hs|, 0
  {
    if hs == [] then st' == st else DeletesThen(st, hs[..|hs| - 1], hs[|hs| - 1], st')
  }

  ghost predicate DeletesThen(st: StoreVal, init: seq<Host>, h: Host, st': StoreVal)
    decreases |init|, 1
  {
    exists mid :: Deletes(st, init, mid) && DeletesHost(mid, h, st')
  }

  /** fin is st without the hosts in gone: addresses left with a host keep their other hosts, their
      types and their network; addresses left with none are gone. */
  ghost predicate Restricts(st: StoreVal, fin: StoreVal, gone: set<Host>) {
    && WellShaped(st) && WellShaped(fin)
    && (forall ip, h :: At(fin, ip, h) <==> At(st, ip, h) && h !in gone)
    && (forall ip, h :: At(fin, ip, h) ==> fin.records[ip][h] == st.records[ip][h])
    && (forall ip :: ip in fin.records ==> ip in st.records && NetAt(fin, ip) == NetAt(st, ip))
  }

  function NetAt(st: StoreVal, ip: Addr): Net {
    Net(if ip in st.netviews then st.netviews[ip] else "", if ip in st.cidrs then st.cidrs[ip] else "")
  }

  lemma HasHost(st: StoreVal, ip: Addr)
    requires WellShaped(st) && ip in st.records
    ensures exists h :: At(st, ip, h)
  {
    var h :| h in st.records[ip];
    assert At(st, ip, h);
  }

  lemma DeleteAtRestricts(st: StoreVal, ip: Addr, h: Host)
    requires WellShaped(st) && HostOnce(st) && At(st, ip, h)
    ensures Restricts(st, DeleteAt(st, ip, h), {h})
  {
    var fin := DeleteAt(st, ip, h);
    var rest := st.records[ip] - {h};
    forall ip', x ensures At(fin, ip', x) <==> At(st, ip', x) && x != h {
      if ip' == ip {
        assert x in rest <==> At(st, ip, x) && x != h;
      } else {
        assert At(st, ip', x) ==> x != h;
      }
    }
  }

  lemma DeleteHostRestricts(st: StoreVal, h: Host)
    requires WellShaped(st) && HostOnce(st)
    ensures Restricts(st, DeleteHost(st, h), {h})
  {
    if Stored(st, h) {
      DeleteAtRestricts(st, IpOf(st, h), h);
    }
  }

  lemma RestrictsCompose(st: StoreVal, mid: StoreVal, fin: StoreVal, gone: set<Host>, more: set<Host>)
    requires Restricts(st, mid, gone) && Restricts(mid, fin, more)
    ensures Restricts(st, fin, gone + more)
  {
  }

  /** Deleting hosts one by one, in any order and with repeats, is one restriction of the store. */
  lemma {:induction false} DeleteHostsIsRestriction(st: StoreVal, hs: seq<Host>)
    requires WellShaped(st) && HostOnce(st)
    ensures Restricts(st, DeleteHosts(st, hs), Elements(hs))
    ensures HostOnce(DeleteHosts(st, hs))
  {
    if hs != [] {
      var init, h := hs[..|hs| - 1], hs[|hs| - 1];
      DeleteHostsIsRestriction(st, init);
      DeleteHostRestricts(DeleteHosts(st, init), h);
      RestrictsCompose(st, DeleteHosts(st, init), DeleteHosts(st, hs), Elements(init), {h});
      assert hs == init + [h];
      assert Elements(hs) == Elements(init) + {h};
    }
  }

  lemma DeletesHostOnce(st: StoreVal, h: Host, st': StoreVal)
    requires HostOnce(st)
    ensures DeletesHost(st, h, st') <==> st' == DeleteHost(st, h)
  {
    if Stored(st, h) {
      assert DeletesFrom(st, IpOf(st, h), h, DeleteAt(st, IpOf(st, h), h));
    }
  }

  /** When no host is under two addresses, no scan order matters. */
  lemma {:induction false} DeletesIsDeleteHosts(st: StoreVal, hs: seq<Host>, st': StoreVal)
    requires WellShaped(st) && HostOnce(st)
    ensures Deletes(st, hs, st') <==> st' == DeleteHosts(st, hs)
  {
    hide HostOnce, WellShaped, DeletesHost, DeleteHost;
    if hs != [] {
      var init, h := hs[..|hs| - 1], hs[|hs| - 1];
      var mid := DeleteHosts(st, init);
      DeletesIsDeleteHosts(st, init, mid);
      DeleteHostsIsRestriction(st, init);
      DeletesHostOnce(mid, h, st');
      if Deletes(st, hs, st') {
        assert DeletesThen(st, init, h, st');
        var m :| Deletes(st, init, m) && DeletesHost(m, h, st');
        DeletesIsDeleteHosts(st, init, m);
      }
    }
  }

  /** There is always something to end up with. */
  lemma {:induction false} DeletesSomehow(st: StoreVal, hs: seq<Host>)
    ensures exists st' :: Deletes(st, hs, st')
  {
    hide DeletesHost;
    if hs == [] {
      assert Deletes(st, hs, st);
    } else {
      var init, h := hs[..|hs| - 1], hs[|hs| - 1];
      DeletesSomehow(st, init);
      var mid :| Deletes(st, init, mid);
      DeletesHostSomehow(mid, h);
      var st' :| DeletesHost(mid, h, st');
      assert DeletesThen(st, init, h, st');
      assert Deletes(st, hs, st');
    }
  }

  lemma DeletesHostSomehow(st: StoreVal, h: Host)
    ensures exists st' :: DeletesHost(st, h, st')
  {
    if Stored(st, h) {
      assert DeletesFrom(st, IpOf(st, h), h, DeleteAt(st, IpOf(st, h), h));
    }
    assert DeletesHost(st, h, if Stored(st, h) then DeleteAt(st, IpOf(st, h), h) else st);
  }

  /** Deleting other hosts leaves a host where it is, in any store. */
  lemma {:induction false} DeletesSpares(st: StoreVal, hs: seq<Host>, st': StoreVal, ip: Addr, h: Host)
    requires Deletes(st, hs, st') && h !in hs
    ensures At(st', ip, h) <==> At(st, ip, h)
  {
    hide DeletesHost, At;
    if hs != [] {
      var mid :| Deletes(st, hs[..|hs| - 1], mid) && DeletesHost(mid, hs[|hs| - 1], st');
      DeletesSpares(st, hs[..|hs| - 1], mid, ip, h);
      DeletesHostSpares(mid, hs[|hs| - 1], st', ip, h);
    }
  }

  lemma DeletesHostSpares(st: StoreVal, x: Host, st': StoreVal, ip: Addr, h: Host)
    requires DeletesHost(st, x, st') && h != x
    ensures At(st', ip, h) <==> At(st, ip, h)
  {
    if Stored(st, x) {
      var ip' :| DeletesFrom(st, ip', x, st');
      assert h in st.records[ip'] <==> h in st.records[ip'] - {x};
    }
  }

  /** Nothing new appears in any store. */
  lemma {:induction false} DeletesShrinks(st: StoreVal, hs: seq<Host>, st': StoreVal, ip: Addr, h: Host)
    requires Deletes(st, hs, st') && At(st', ip, h)
    ensures At(st, ip, h)
  {
    hide DeletesHost, At;
    if hs != [] {
      var mid :| Deletes(st, hs[..|hs| - 1], mid) && DeletesHost(mid, hs[|hs| - 1], st');
      DeletesHostShrinks(mid, hs[|hs| - 1], st', ip, h);
      DeletesShrinks(st, hs[..|hs| - 1], mid, ip, h);
    }
  }

  lemma DeletesHostShrinks(st: StoreVal, x: Host, st': StoreVal, ip: Addr, h: Host)
    requires DeletesHost(st, x, st') && At(st', ip, h)
    ensures At(st, ip, h)
  {
    if Stored(st, x) {
      var ip' :| DeletesFrom(st, ip', x, st');
    }
  }

  /** A host filed under one address at most is gone when it is on the list. */
  lemma {:induction false} DeletesTakes(st: StoreVal, hs: seq<Host>, st': StoreVal, ip: Addr, h: Host)
    requires Deletes(st, hs, st') && h in hs && forall a, b :: At(st, a, h) && At(st, b, h) ==> a == b
    ensures !At(st', ip, h)
  {
    hide DeletesHost, At;
    var init, x := hs[..|hs| - 1], hs[|hs| - 1];
    var mid :| Deletes(st, init, mid) && DeletesHost(mid, x, st');
    forall a, b | At(mid, a, h) && At(mid, b, h) ensures a == b {
      DeletesShrinks(st, init, mid, a, h);
      DeletesShrinks(st, init, mid, b, h);
    }
    if x == h {
      DeletesHostTakes(mid, h, st', ip);
    } else {
      assert hs == init + [x];
      DeletesTakes(st, init, mid, ip, h);
      if At(st', ip, h) { DeletesHostShrinks(mid, x, st', ip, h); }
    }
  }

  lemma DeletesHostTakes(st: StoreVal, h: Host, st': StoreVal, ip: Addr)
    requires DeletesHost(st, h, st') && forall a, b :: At(st, a, h) && At(st, b, h) ==> a == b
    ensures !At(st', ip, h)
  {
    if Stored(st, h) {
      var ip' :| DeletesFrom(st, ip', h, st');
      if At(st', ip, h) { assert At(st, ip, h); }
    }
  }

  /** The same store as a flat map from host to its address and record type. */
  datatype Entry = Entry(ip: Addr, recordType: RecordType)

  ghost function AllHosts(st: StoreVal): set<Host> {
    set ip, h | ip in st.records && h in st.records[ip] :: h
  }

  ghost function Flat(st: StoreVal): map<Host, Entry> {
    map h | h in AllHosts(st) && Stored(st, h) :: Entry(IpOf(st, h), st.records[IpOf(st, h)][h])
  }

  lemma StoredIsInAllHosts(st: StoreVal, h: Host)
    ensures h in AllHosts(st) <==> Stored(st, h)
    ensures h in Flat(st) <==> Stored(st, h)
  {
    if Stored(st, h) {
      assert At(st, IpOf(st, h), h);
    } else if h in AllHosts(st) {
      var ip :| ip in st.records && h in st.records[ip];
      assert At(st, ip, h);
    }
  }

  /** DeleteHosts on the nested maps is deletion of a set of keys on the flat map. */
  lemma DeleteHostsIsFlatDeletion(st: StoreVal, hs: seq<Host>)
    requires WellShaped(st) && HostOnce(st)
    ensures Flat(DeleteHosts(st, hs)) == Flat(st) - Elements(hs)
  {
    hide DeleteHosts, AllHosts, Elements;
    DeleteHostsIsRestriction(st, hs);
    var gone, fin := Elements(hs), DeleteHosts(st, hs);
    forall h ensures h in Flat(fin) <==> h in Flat(st) && h !in gone {
      StoredIsInAllHosts(fin, h);
      StoredIsInAllHosts(st, h);
      if Stored(fin, h) { assert At(st, IpOf(fin, h), h); }
      if Stored(st, h) && h !in gone { assert At(fin, IpOf(st, h), h); }
    }
    forall h | h in Flat(fin) ensures Flat(fin)[h] == Flat(st)[h] {
      StoredIsInAllHosts(fin, h);
      assert At(st, IpOf(fin, h), h);
    }
  }

  lemma AddRecordStores(st: StoreVal, ip: Addr, h: Host, t: RecordType, net: Net)
    requires HostOnce(st) && !Stored(st, h)
    ensures var fin := AddRecord(st, ip, h, t, net);
      && HostOnce(fin)
      && (forall x :: Stored(fin, x) <==> Stored(st, x) || x == h)
      && (forall x :: Stored(st, x) ==> IpOf(fin, x) == IpOf(st, x))
      && IpOf(fin, h) == ip
  {
    hide AddRecord;
    var fin := AddRecord(st, ip, h, t, net);
    assert !At(st, ip, h);
    AddRecordFiles(st, ip, h, t, net);
    assert At(fin, ip, h);
    forall x | Stored(st, x) ensures Stored(fin, x) && IpOf(fin, x) == IpOf(st, x) {
      assert At(fin, IpOf(st, x), x);
    }
    forall x | Stored(fin, x) && x != h ensures Stored(st, x) {
      assert At(st, IpOf(fin, x), x);
    }
  }

  /** AddRecord of a host that is filed nowhere adds exactly one entry to the flat map. */
  lemma AddRecordIsFlatUpdate(st: StoreVal, ip: Addr, h: Host, t: RecordType, net: Net)
    requires HostOnce(st) && !Stored(st, h)
    ensures Flat(AddRecord(st, ip, h, t, net)) == Flat(st)[h := Entry(ip, t)]
  {
    hide AddRecord, AllHosts, HostOnce;
    var fin := AddRecord(st, ip, h, t, net);
    assert !At(st, ip, h);
    AddRecordFiles(st, ip, h, t, net);
    AddRecordStores(st, ip, h, t, net);
    forall x ensures x in Flat(fin) <==> x in Flat(st) || x == h {
      StoredIsInAllHosts(fin, x);
      StoredIsInAllHosts(st, x);
    }
    forall x | x in Flat(fin) ensures Flat(fin)[x] == Flat(st)[h := Entry(ip, t)][x] {
      StoredIsInAllHosts(fin, x);
      StoredIsInAllHosts(st, x);
      if x != h { assert At(st, IpOf(st, x), x); }
    }
  }

  /** st' is st with host h filed under ip as well. */
  ghost predicate Files(st: StoreVal, st': StoreVal, ip: Addr, h: Host, t: RecordType, net: Net) {
    && (forall ip', x :: At(st', ip', x) <==> At(st, ip', x) || (ip' == ip && x == h))
    && (forall ip', x :: At(st, ip', x) ==> st'.records[ip'][x] == st.records[ip'][x])
    && At(st', ip, h) && st'.records[ip][h] == t
    && st'.records.Keys == st.records.Keys + {ip}
    && st'.netviews == st.netviews[ip := net.netview]
    && st'.cidrs == st.cidrs[ip := net.cidr]
  }

  /** What AddRecord does to types and networks, in any store: a host that is there keeps its type and the address
      its network; a new one has its type, and the address the network it comes with. */
  lemma AddRecordNets(st: StoreVal, ip: Addr, h: Host, t: RecordType, net: Net)
    requires KeysAgree(st)
    ensures var fin := AddRecord(st, ip, h, t, net);
      && At(fin, ip, h)
      && (fin.records[ip][h] == if At(st, ip, h) then st.records[ip][h] else t)
      && (NetAt(fin, ip) == if At(st, ip, h) then NetAt(st, ip) else net)
      && (forall ip', x :: At(st, ip', x) && (ip' != ip || x != h) ==>
            At(fin, ip', x) && fin.records[ip'][x] == st.records[ip'][x])
      && (forall ip' :: ip' != ip ==> NetAt(fin, ip') == NetAt(st, ip'))
  {
  }

  lemma AddRecordFiles(st: StoreVal, ip: Addr, h: Host, t: RecordType, net: Net)
    requires !At(st, ip, h)
    ensures Files(st, AddRecord(st, ip, h, t, net), ip, h, t, net)
  {
  }
}
