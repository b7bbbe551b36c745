/** The controller: its store, its IPAM client, and the passes it makes over the groups. */
module Controller {
  import opened Types
  import opened StoreSpec
  import opened Reconcile
  import opened RecordTable
  import opened Addition
  import opened Removal
  import opened Pass
  import opened Coherence
  import opened Sharing
  import opened GroupUnits
  import opened Infoblox
  import opened Rebuild
  import opened Runs
  import opened Lossy
  import opened OneAddress
  import opened Orchestration
  import opened Annotation
  import opened Networks
  import GroupSpec
  import Service
  import Attachment
  import Store

  // ---------- the small helpers ----------

  method Contains(slice: seq<Host>, val: Host) returns (found: bool)
    ensures found <==> val in slice
  {
    for i := 0 to |slice|
      invariant val !in slice[..i]
    {
      if slice[i] == val { return true; }
    }
    return false;
  }

  /** The keys of a map, each once, in any order. */
  method MapKeys(m: map<Host, RecordType>) returns (keys: seq<Host>)
    ensures Distinct(keys) && Elements(keys) == m.Keys
  {
    keys := [];
    var todo := m.Keys;
    while todo != {}
      invariant todo <= m.Keys && Distinct(keys) && Elements(keys) == m.Keys - todo
      decreases |todo|
    {
      var k :| k in todo;
      AppendElements(keys, k);
      keys, todo := keys + [k], todo - {k};
    }
  }

  /** Cuts the first occurrence of val out, closing the gap. */
  method RemoveElement(s: seq<Host>, val: Host) returns (r: seq<Host>)
    ensures r == Without(s, val)
  {
    r := s;
    for i := 0 to |s|
      invariant r == s && val !in s[..i]
    {
      if s[i] == val {
        WithoutAt(s, val, i);
        r := s[..i] + s[i + 1..];
        break;
      }
    }
    if val !in s { WithoutAbsent(s, val); }
  }

  lemma {:induction false} WithoutAt(s: seq<Host>, val: Host, i: nat)
    requires i < |s| && s[i] == val && val !in s[..i]
    ensures Without(s, val) == s[..i] + s[i + 1..]
  {
    if i > 0 {
      assert s[0] == s[..i][0] && s[1..][..i - 1] == s[..i][1..];
      WithoutAt(s[1..], val, i - 1);
      assert s[1..][i..] == s[i + 1..];
    }
  }

  class Controller {
    const iClient: IBloxClient
    var store: Store.Store

    ghost function View(): Sys
      reads this, store, iClient, iClient.server
    {
      Sys(store.Val(), iClient.dns, iClient.server.reserved)
    }

    /** The client is in order, the empty string is nobody's address, and every name is in a zone. */
    ghost predicate Ready()
      reads this, iClient, iClient.server
    {
      iClient.Valid() && "" !in iClient.server.homes && forall h :: iClient.server.zone(h) != ""
    }

    /** The controller and its client are in the state m, of whose lost names the live ones matter. */
    ghost predicate Remembers(m: Memory)
      reads this, store, iClient, iClient.server
    {
      View() == m.s && iClient.Lost() == m.lost * iClient.dns.Keys && iClient.server.clean == m.clean
    }

    constructor (iClient: IBloxClient)
      ensures this.iClient == iClient && fresh(store) && store.Val() == EMPTY_STORE
    {
      this.iClient := iClient;
      store := new Store.Store();
    }

    // ---------- the addition phase ----------

    /** One host of a unit: lines 155-173 of controller.go.  Whatever the store and the IPAM system hold, a host that
        GetIP does not find, as one filed under the empty address, is filed at curAddr after a record of its name
        has been asked for; no name has two record types then exactly when that record clashes with none.  In step
        with the plan, it is the step of the specification. */
    method PlaceHost(host: Host, firstHost: Host, nextAddr: Addr, curAddr: Addr, addrUsed: bool, netview: string,
        cidr: string, ghost pw: PlanWalk) returns (cur: Addr, used: bool)
      requires iClient.server.Valid() && host != ""
      modifies store, iClient, iClient.server
      ensures iClient.server.Valid()
      ensures Unfound(old(store.Val()), host) ==>
        && cur == curAddr
        && FilesUnfound(old(iClient.server.table), iClient.server.table, old(store.Val()), store.Val(), host, firstHost,
          nextAddr, curAddr, Net(netview, cidr))
        && (old(Exclusive(iClient.server.table)) ==>
            (Exclusive(iClient.server.table) <==>
              !Clashing(old(iClient.server.table), host, firstHost, nextAddr, netview)))
      ensures old(Ready()) && InStep(Walk(old(View()), curAddr, addrUsed), pw, iClient.server.homes, nextAddr) ==>
        && Ready() && (old(iClient.server.exclusive) ==> iClient.server.exclusive)
        && iClient.Lost() == old(iClient.Lost()) && iClient.server.clean == old(iClient.server.clean)
        && Walk(View(), cur, used) ==
          Place(Walk(old(View()), curAddr, addrUsed), host, firstHost, nextAddr, Net(netview, cidr))
    {
      hide Mirrors, Unreferenced, Exclusive, InStep, AddRecord, Stored, Place, Clashing, FilesUnfound, MatchingA,
        MatchingC, IpOf, CreatedC, HasCname, At, Inserted;
      ghost var w, homes := Walk(View(), curAddr, addrUsed), iClient.server.homes;
      ghost var inStep, table := Ready() && InStep(w, pw, homes, nextAddr), iClient.server.table;
      ghost var net := Net(netview, cidr);
      cur, used := curAddr, addrUsed;
      var ip := store.GetIP(host);
      if inStep {
        PlacingFacts(w, pw, homes, nextAddr, host);
        GotIP(store.Val(), host, ip);
        PlaceCases(w, host, firstHost, nextAddr, net);
      }
      if Unfound(store.Val(), host) { UnfoundIp(store.Val(), host, ip); }
      if ip != "" {
        cur := store.GetIP(host);
        if inStep { GotIP(store.Val(), host, cur); }
      } else if host == firstHost {
        var created := iClient.CreateARecord(host, nextAddr, netview);
        if created {
          used := true;
          store.AddRecord(curAddr, host, A, netview, cidr);
        }
        UnfoundFirst(table, iClient.server.table, w.s.st, store.Val(), host, nextAddr, curAddr, net);
      } else {
        iClient.CreateCNAMERecord(host, firstHost, netview);
        store.AddRecord(curAddr, host, CNAME, netview, cidr);
        UnfoundNext(table, iClient.server.table, w.s.st, store.Val(), host, firstHost, nextAddr, curAddr, net);
      }
    }

    /** Lines 145-175 of controller.go: the hosts of one spec, which are the hosts of unit u from the nth on. */
    method PlaceSpec(hosts: seq<Host>, uniqueIP: bool, firstHost0: Host, nextAddr: Addr, curAddr0: Addr,
        addrUsed0: bool, netview: string, cidr: string, ghost s0: Sys, ghost p: Plan, ghost u: Unit, ghost n: nat)
        returns (firstHost: Host, curAddr: Addr, addrUsed: bool)
      requires Ready() && "" !in u.hosts && u.net == Net(netview, cidr)
      requires n + |hosts| <= |u.hosts| && u.hosts[n..n + |hosts|] == hosts
      requires if uniqueIP then n == 0 else firstHost0 == if n == 0 then "" else u.hosts[0]
      requires Settled(s0, iClient.server.homes, p, false)
      requires Available(iClient.server.homes, s0, Turn(u, nextAddr)) && SameNet(iClient.server.homes, p.where, u)
      requires Walk(View(), curAddr0, addrUsed0) == PlaceHosts(s0, u, nextAddr, n)
      modifies store, iClient, iClient.server
      ensures Ready() && (old(iClient.server.exclusive) ==> iClient.server.exclusive)
      ensures iClient.Lost() == old(iClient.Lost()) && iClient.server.clean == old(iClient.server.clean)
      ensures Walk(View(), curAddr, addrUsed) == PlaceHosts(s0, u, nextAddr, n + |hosts|)
      ensures !uniqueIP ==> firstHost == if n + |hosts| == 0 then "" else u.hosts[0]
    {
      hide Settled, InStep, Place, SameNet, Available, Mirrors, Exclusive;
      firstHost, curAddr, addrUsed := firstHost0, curAddr0, addrUsed0;
      for i := 0 to |hosts|
        invariant Ready() && (old(iClient.server.exclusive) ==> iClient.server.exclusive)
        invariant iClient.Lost() == old(iClient.Lost()) && iClient.server.clean == old(iClient.server.clean)
        invariant Walk(View(), curAddr, addrUsed) == PlaceHosts(s0, u, nextAddr, n + i)
        invariant if i == 0 then firstHost == firstHost0 else firstHost == u.hosts[0]
      {
        var host := hosts[i];
        assert host == u.hosts[n + i];
        assert u.hosts[0] in u.hosts;
        if i == 0 {
          if !uniqueIP && firstHost == "" {
            firstHost := host;
          } else if uniqueIP {
            firstHost := host;
          }
        }
        PlaceHostsInStep(iClient.server.homes, s0, p, u, nextAddr, n + i);
        curAddr, addrUsed :=
          PlaceHost(host, firstHost, nextAddr, curAddr, addrUsed, netview, cidr, PlanHosts(p, u, nextAddr, n + i));
      }
    }

    /** One unit: an address is reserved, the hosts of its specs are placed, and an unused reservation is
        released.  Lines 129-135 and 182-184 of controller.go for a named group, 138-144 and 177-179 for one
        spec. */
    method PlaceUnit(specs: seq<Spec>, uniqueIP: bool, netview: string, cidr: string, ghost p: Plan, ghost u: Unit)
      returns (ghost next: Addr)
      requires Ready() && u == Unit(Net(netview, cidr), AllOf(specs)) && "" !in u.hosts
      requires uniqueIP ==> |specs| == 1
      requires Settled(View(), iClient.server.homes, p, false) && SameNet(iClient.server.homes, p.where, u)
      requires exists a :: IsFree(iClient.server.homes, iClient.server.reserved, u.net, a)
      modifies store, iClient, iClient.server
      ensures Ready() && (old(iClient.server.exclusive) ==> iClient.server.exclusive)
      ensures iClient.Lost() == old(iClient.Lost()) && iClient.server.clean == old(iClient.server.clean)
      ensures Available(iClient.server.homes, old(View()), Turn(u, next))
      ensures View() == AddUnit(iClient.server.homes, old(View()), u, next)
    {
      hide Settled, SameNet, AllOf, Mirrors, Unreferenced, Exclusive, PlaceHosts;
      ghost var s0 := View();
      var nextAddr := iClient.GetNextAddr(netview, cidr);
      next := nextAddr;
      var curAddr, addrUsed, firstHost := nextAddr, false, "";
      NothingPlaced(s0, u, nextAddr, specs);
      for k := 0 to |specs|
        invariant Ready() && (old(iClient.server.exclusive) ==> iClient.server.exclusive)
        invariant iClient.Lost() == old(iClient.Lost()) && iClient.server.clean == old(iClient.server.clean)
        invariant |AllOf(specs[..k])| <= |u.hosts|
        invariant Walk(View(), curAddr, addrUsed) == PlaceHosts(s0, u, nextAddr, |AllOf(specs[..k])|)
        invariant !uniqueIP ==> firstHost == if |AllOf(specs[..k])| == 0 then "" else u.hosts[0]
      {
        NextSpec(specs, k);
        firstHost, curAddr, addrUsed := PlaceSpec(specs[k].hosts, uniqueIP, firstHost, nextAddr, curAddr, addrUsed,
          netview, cidr, s0, p, u, |AllOf(specs[..k])|);
      }
      assert specs[..|specs|] == specs;
      PlaceHostsReserved(s0, u, nextAddr, |u.hosts|);
      if !addrUsed {
        iClient.ReleaseAddr(netview, cidr, nextAddr);
      }
    }

    /** One unit as the next turn of the phase. */
    method TakeTurn(specs: seq<Spec>, uniqueIP: bool, netview: string, cidr: string, ghost s0: Sys, ghost p: Plan,
        ghost groups: Groups, ghost before: seq<Turn>, ghost n: nat) returns (ghost t: Turn)
      requires uniqueIP ==> |specs| == 1
      requires Ready() && Underway(iClient.server.homes, s0, p, groups, before) &&
        View() == AddPhase(iClient.server.homes, s0, before)
      requires IsUnit(groups, Unit(Net(netview, cidr), AllOf(specs))) && "" !in AllOf(specs)
      requires Roomy(iClient.server.homes, iClient.server.reserved, groups, n + 1)
      modifies store, iClient, iClient.server
      ensures Ready() && (old(iClient.server.exclusive) ==> iClient.server.exclusive)
      ensures iClient.Lost() == old(iClient.Lost()) && iClient.server.clean == old(iClient.server.clean)
      ensures t.unit == Unit(Net(netview, cidr), AllOf(specs))
      ensures Underway(iClient.server.homes, s0, p, groups, before + [t])
      ensures View() == AddPhase(iClient.server.homes, s0, before + [t])
      ensures Roomy(iClient.server.homes, iClient.server.reserved, groups, n)
    {
      hide Underway, Settled, SameNet, IsUnit, AllOf, Mirrors, Exclusive, AddPhase, AddUnit, PlanPhase, Roomy,
        Available;
      ghost var u, homes := Unit(Net(netview, cidr), AllOf(specs)), iClient.server.homes;
      NextUnit(homes, s0, p, groups, before, u);
      RoomIsFree(homes, iClient.server.reserved, groups, n + 1, u);
      ghost var free :| free in homes && homes[free] == u.net && free !in iClient.server.reserved;
      assert IsFree(homes, iClient.server.reserved, u.net, free);
      ghost var next := PlaceUnit(specs, uniqueIP, netview, cidr, PlanPhase(p, before), u);
      t := Turn(u, next);
      RoomAfterUnit(homes, old(View()), u, next, groups, n);
      TurnAdded(homes, s0, p, groups, before, t);
    }

    /** One entry of the groups: the whole group at one address, or each spec of the unnamed group at its
        own.  spare holds an id for every unit still to come, so that many addresses are free. */
    method AddGroup(group: GroupKey, specs: seq<Spec>, ghost s0: Sys, ghost p: Plan, ghost groups: Groups,
        ghost before: seq<Turn>, ghost spare: set<(GroupKey, nat)>)
        returns (ghost added: seq<Turn>, ghost left: set<(GroupKey, nat)>)
      requires Ready() && Underway(iClient.server.homes, s0, p, groups, before) &&
        View() == AddPhase(iClient.server.homes, s0, before)
      requires group in groups && groups[group] == specs && "" !in GroupHosts(groups)
      requires Roomy(iClient.server.homes, iClient.server.reserved, groups, |spare|)
      requires forall i: nat :: i < |Units(group, specs)| ==> (group, i) in spare
      modifies store, iClient, iClient.server
      ensures Ready() && (old(iClient.server.exclusive) ==> iClient.server.exclusive)
      ensures iClient.Lost() == old(iClient.Lost()) && iClient.server.clean == old(iClient.server.clean)
      ensures Underway(iClient.server.homes, s0, p, groups, before + added)
      ensures View() == AddPhase(iClient.server.homes, s0, before + added)
      ensures Serves(added, Units(group, specs))
      ensures
        if group.name != "" then |added| == 1 && added[0].unit.net == Net(group.netview, group.cidr)
        else
          && |added| == |specs|
          && forall i :: 0 <= i < |specs| ==>
            added[i].unit == Unit(Net(specs[i].netview, specs[i].cidr), specs[i].hosts)
      ensures Roomy(iClient.server.homes, iClient.server.reserved, groups, |left|)
      ensures forall k, i: nat :: (k, i) in spare && k != group ==> (k, i) in left
    {
      hide Underway, IsUnit, AllOf, Mirrors, Exclusive, AddPhase, Roomy, GroupHosts;
      added, left := [], spare;
      assert before + [] == before;
      if group.name != "" {
        UnitIsUnit(groups, group, 0);
        NamesOfUnit(groups, group, 0);
        ghost var t := TakeTurn(specs, false, group.netview, group.cidr, s0, p, groups, before, |left - {(group, 0)}|);
        added, left := [t], left - {(group, 0)};
      } else {
        for i := 0 to |specs|
          invariant Ready() && (old(iClient.server.exclusive) ==> iClient.server.exclusive)
          invariant iClient.Lost() == old(iClient.Lost()) && iClient.server.clean == old(iClient.server.clean)
          invariant Underway(iClient.server.homes, s0, p, groups, before + added)
          invariant View() == AddPhase(iClient.server.homes, s0, before + added)
          invariant Serves(added, Units(group, specs)[..i])
          invariant Roomy(iClient.server.homes, iClient.server.reserved, groups, |left|)
          invariant forall k, j: nat :: (k, j) in spare && (k != group || j >= i) ==> (k, j) in left
        {
          assert (group, i) in left;
          AllOfOne(specs[i]);
          UnitIsUnit(groups, group, i);
          NamesOfUnit(groups, group, i);
          ghost var t :=
            TakeTurn([specs[i]], true, specs[i].netview, specs[i].cidr, s0, p, groups, before + added,
            |left - {(group, i)}|);
          ServesMore(added, Units(group, specs)[..i], t, Units(group, specs)[i]);
          assert Units(group, specs)[..i + 1] == Units(group, specs)[..i] + [Units(group, specs)[i]];
          assert before + (added + [t]) == before + added + [t];
          added, left := added + [t], left - {(group, i)};
        }
        assert Units(group, specs)[..|specs|] == Units(group, specs);
      }
    }

    /** The addition phase: the groups in any order. */
    method AddMissing(groups: Groups, ghost p: Plan) returns (ghost turns: seq<Turn>)
      requires Ready() && Settled(View(), iClient.server.homes, p, false) &&
        GroupNets(iClient.server.homes, p.where, groups)
      requires "" !in GroupHosts(groups)
      requires Roomy(iClient.server.homes, iClient.server.reserved, groups, |UnitIds(groups)|)
      modifies store, iClient, iClient.server
      ensures Ready() && (old(iClient.server.exclusive) ==> iClient.server.exclusive)
      ensures iClient.Lost() == old(iClient.Lost()) && iClient.server.clean == old(iClient.server.clean)
      ensures Schedule(groups, turns) && Underway(iClient.server.homes, old(View()), p, groups, turns)
      ensures View() == AddPhase(iClient.server.homes, old(View()), turns)
    {
      hide Underway, Settled, GroupNets, Mirrors, Unreferenced, Exclusive, AddPhase, Roomy, Units, GroupHosts, Walked,
        Spares, Schedule;
      ghost var s0, homes := View(), iClient.server.homes;
      NothingUnderway(homes, s0, p, groups);
      turns := [];
      ghost var order: seq<GroupKey>, spare := [], UnitIds(groups);
      NothingWalked(groups);
      var todo := groups.Keys;
      while todo != {}
        invariant Ready() && (old(iClient.server.exclusive) ==> iClient.server.exclusive)
        invariant iClient.Lost() == old(iClient.Lost()) && iClient.server.clean == old(iClient.server.clean)
        invariant todo <= groups.Keys && Walked(groups, order, todo, turns) && Spares(groups, todo, spare)
        invariant Underway(homes, s0, p, groups, turns) && View() == AddPhase(homes, s0, turns)
        invariant Roomy(homes, iClient.server.reserved, groups, |spare|)
        decreases |todo|
      {
        var group :| group in todo;
        ghost var added, left;
        SparesOf(groups, todo, spare, group);
        added, left := AddGroup(group, groups[group], s0, p, groups, turns, spare);
        SparesLeft(groups, todo, spare, left, group);
        WalkedMore(groups, order, todo, turns, group, added);
        turns, order, spare, todo := turns + added, order + [group], left, todo - {group};
      }
      AllWalked(groups, order, turns);
    }

    // ---------- the removal phase ----------

    /** Lines 200-206 of controller.go: host has the A record of its address and other hosts are left there. */
    method HandOver(host: Host, ip: Addr, availHosts: seq<Host>, netview: string, cidr: string, ghost m: Memory)
      requires Ready() && Remembers(m) && "" !in m.s.dns && availHosts != [] && "" !in availHosts
      requires AHost(m.s.st, ip, host) && NetAt(m.s.st, ip) == Net(netview, cidr)
      requires host != "" ==>
        && Promotable(m.s.dns, iClient.server.homes, availHosts, host, ip, Net(netview, cidr)) && host in m.s.dns
        && forall h :: h in availHosts ==> h in m.s.dns
      modifies store, iClient, iClient.server
      ensures Ready() && (old(iClient.server.exclusive) ==> iClient.server.exclusive)
      ensures Remembers(LossyDrop(iClient.server.homes, m, ip, host, availHosts))
    {
      hide Mirrors, Exclusive, Promoted, Promotable, DoomedA, Unreferenced, Reach, DeletedA, Released, Hits, CidrOf,
        RefusesA, HasCname;
      DeletedKeys(m.s.dns, iClient.server.homes, host, ip, Net(netview, cidr));
      if host != "" {
        LostMeans(iClient.recordRef, iClient.dns, host);
        ReachLive(availHosts, m.lost, iClient.dns.Keys, 1);
      }
      PromotedKeys(iClient.dns, Elements(availHosts[..Reach(availHosts, m.lost, 1)]), availHosts[0], host, ip, netview);
      var newA, err := iClient.CNAMEToA(availHosts, host, ip, netview, cidr);
      store.Records := store.Records[ip := store.Records[ip][newA := A]];
    }

    /** Lines 198-212 of controller.go, whatever references there are: host is doomed, avail0 were the hosts
        available before and availHosts no longer holds it. */
    method DropHost(host: Host, ip: Addr, availHosts: seq<Host>, netview: string, cidr: string, ghost avail0: seq<Host>,
        ghost m: Memory)
      requires Ready() && Remembers(m) && "" !in m.s.dns && Midvisit(m.s, iClient.server.homes, ip, avail0)
      requires At(m.s.st, ip, host) && (host in avail0 || host == "") && NetAt(m.s.st, ip) == Net(netview, cidr)
      requires availHosts == Without(avail0, host)
      modifies store, iClient, iClient.server
      ensures Ready() && (old(iClient.server.exclusive) ==> iClient.server.exclusive)
      ensures Remembers(LossyDrop(iClient.server.homes, m, ip, host, availHosts))
    {
      hide Mirrors, Exclusive, Midvisit, Promoted, Promotable, DoomedA, Unreferenced, Reach, Without, DeletedA,
        DeletedC, Released, Hits, CidrOf, RefusesA, HasCname;
      DropFacts(m, iClient.server.homes, ip, avail0, host);
      DeletedKeys(m.s.dns, iClient.server.homes, host, ip, Net(netview, cidr));
      var recordType := store.Records[ip][host];
      if recordType == A {
        if |availHosts| > 0 {
          HandOver(host, ip, availHosts, netview, cidr, m);
        } else {
          iClient.DeleteARecord(host, ip, netview, cidr);
        }
      } else if recordType == CNAME {
        iClient.DeleteCNAMERecord(host, ip, netview, cidr);
      }
    }

    /** Lines 194-215 of controller.go: one host of the inner range, which stands at w. */
    method MeetHost(host: Host, ip: Addr, ipGroupHosts: seq<Host>, availHosts0: seq<Host>, toRemove0: seq<Host>,
        netview: string, cidr: string, ghost w: LossySweep, ghost s1: Sys, ghost where: map<Host, Addr>,
        ghost unmet: set<Host>, ghost rest: set<Addr>)
      returns (availHosts: seq<Host>, toRemove: seq<Host>)
      requires Ready() && Remembers(w.m) && w.avail == availHosts0 && w.gone == toRemove0
      requires Ground(s1, where) && Meeting(s1, iClient.server.homes, where, ip, w, unmet, rest)
      requires host in unmet || (host == "" && At(w.m.s.st, ip, ""))
      requires NetAt(w.m.s.st, ip) == Net(netview, cidr)
      modifies store, iClient, iClient.server
      ensures Ready() && (old(iClient.server.exclusive) ==> iClient.server.exclusive)
      ensures var w' := LossySweepHost(iClient.server.homes, w, ip, Elements(ipGroupHosts), host);
        && Remembers(w'.m) && availHosts == w'.avail && toRemove == w'.gone
        && Meeting(s1, iClient.server.homes, where, ip, w', unmet - {host}, rest)
    {
      hide Mirrors, Exclusive, Meeting, Ground, LossyDrop, Unreferenced, Midvisit, Without;
      ghost var homes := iClient.server.homes;
      availHosts, toRemove := availHosts0, toRemove0;
      MeetingMeans(homes, s1, where, ip, w, unmet, rest, host);
      MeetingTurn(homes, s1, where, ip, w, unmet, rest, Elements(ipGroupHosts), host);
      var listed := Contains(ipGroupHosts, host);
      if !listed {
        availHosts := RemoveElement(availHosts, host);
        DropHost(host, ip, availHosts, netview, cidr, availHosts0, w.m);
        toRemove := toRemove + [host];
      }
    }

    /** Lines 190-216 of controller.go for one address: its hosts in any order, each seen with the record type
        it has when it is reached; an entry for the empty name that appears meanwhile may be met as well. */
    method SweepAddress(ip: Addr, ipGroupHosts: seq<Host>, toRemove0: seq<Host>, ghost m: Memory, ghost s1: Sys,
        ghost p1: Plan, ghost rest: set<Addr>) returns (toRemove: seq<Host>, ghost v: Visit)
      requires Ready() && Remembers(m) && "" !in m.s.dns
      requires Settled(s1, iClient.server.homes, p1, false) && "" !in p1.where && SameFrame(s1.st, m.s.st)
      requires Fresh(s1, m.s, ip) && ip !in rest && forall ip' :: ip' in rest ==> Fresh(s1, m.s, ip')
      modifies store, iClient, iClient.server
      ensures Ready() && (old(iClient.server.exclusive) ==> iClient.server.exclusive)
      ensures v.ip == ip && LooseVisit(s1.st, v)
      ensures var w :=
        LossySweepHosts(iClient.server.homes, LossySweep(m, v.avail, toRemove0), ip, Elements(ipGroupHosts), v.order);
        && Remembers(w.m) && toRemove == w.gone
        && "" !in w.m.s.dns && SameFrame(s1.st, w.m.s.st) && forall ip' :: ip' in rest ==> Fresh(s1, w.m.s, ip')
    {
      hide Mirrors, Exclusive, Meeting, Ground, Settled, SameFrame, Fresh, LossySweepHosts, LossySweepHost,
        Unreferenced, Mates, Standing, Elements;
      ghost var homes, where, wanted := iClient.server.homes, p1.where, Elements(ipGroupHosts);
      FreshNetworks(homes, s1, p1, m.s, ip);
      var netview := store.Netviews[ip];
      var cidr := store.Cidrs[ip];
      var availHosts := MapKeys(store.Records[ip]);
      toRemove := toRemove0;
      ghost var w0 := LossySweep(m, availHosts, toRemove0);
      ghost var order: seq<Host>, w := [], w0;
      var todo, added := store.Records[ip].Keys, false;
      StandingStart(homes, s1, p1, ip, w0, wanted, rest);
      while todo != {}
        invariant Ready() && (old(iClient.server.exclusive) ==> iClient.server.exclusive)
        invariant Remembers(w.m) && availHosts == w.avail && toRemove == w.gone && ip in store.Records
        invariant Standing(homes, s1, where, ip, w0, wanted, order, todo, added, w, rest)
        decreases if added then 0 else 1, |todo|
      {
        var host :| host in todo;
        StandingTurn(homes, s1, where, ip, w0, wanted, order, todo, added, w, rest, host);
        availHosts, toRemove :=
          MeetHost(host, ip, ipGroupHosts, availHosts, toRemove, netview, cidr, w, s1, where, todo - {""}, rest);
        order, todo, w := order + [host], todo - {host}, LossySweepHost(homes, w, ip, wanted, host);
        if !added && "" in store.Records[ip] {
          if * {
            StandingEmpty(homes, s1, where, ip, w0, wanted, order, todo, w, rest);
            todo, added := todo + {""}, true;
          }
        }
      }
      v := Visit(ip, w0.avail, order);
      StandingEnd(homes, s1, where, ip, w0, wanted, order, added, w, rest);
    }

    /** The removal phase: the store in any order, then the dropped hosts leave it. */
    method RemoveStale(ipGroupHosts: seq<Host>, ghost m: Memory, ghost p: Plan) returns (ghost visits: seq<Visit>,
        ghost m': Memory)
      requires Ready() && Remembers(m) && Settled(m.s, iClient.server.homes, p, false) && "" !in p.where
      modifies store, iClient, iClient.server
      ensures Ready() && (old(iClient.server.exclusive) ==> iClient.server.exclusive)
      ensures LooseRange(m.s.st, visits) && LossyRemoval(iClient.server.homes, m, Elements(ipGroupHosts), visits, m')
      ensures Remembers(m')
    {
      hide Mirrors, Exclusive, Settled, SameFrame, Fresh, LossySweepStore, DistinctAddresses, Addresses, LooseVisit,
        LossySweepHosts, Deletes, Unreferenced;
      ghost var homes, wanted := iClient.server.homes, Elements(ipGroupHosts);
      var toRemove: seq<Host> := [];
      visits := [];
      SweepBegins(homes, m, p, wanted);
      var todo := store.Records.Keys;
      while todo != {}
        invariant Ready() && (old(iClient.server.exclusive) ==> iClient.server.exclusive)
        invariant todo <= m.s.st.records.Keys
        invariant DistinctAddresses(visits) && Addresses(visits) == m.s.st.records.Keys - todo
        invariant forall v :: v in visits ==> LooseVisit(m.s.st, v)
        invariant var w := LossySweepStore(homes, m, wanted, visits);
          && Remembers(w.m) && toRemove == w.gone && "" !in w.m.s.dns && SameFrame(m.s.st, w.m.s.st)
          && forall ip :: ip in todo ==> Fresh(m.s, w.m.s, ip)
        decreases |todo|
      {
        var ip :| ip in todo;
        todo := todo - {ip};
        ghost var w := LossySweepStore(homes, m, wanted, visits);
        ghost var v;
        toRemove, v := SweepAddress(ip, ipGroupHosts, toRemove, w.m, m.s, p, todo);
        LossyVisitMore(homes, m, wanted, visits, v);
        visits := visits + [v];
      }
      store.DeleteHosts(toRemove);
      ghost var w := LossySweepStore(homes, m, wanted, visits);
      m' := Memory(View(), w.m.lost * w.m.s.dns.Keys, w.m.clean);
    }

    // ---------- whole passes ----------

    /** One pass over the groups, with whatever addresses the IPAM system hands out, in whatever order the
        maps are walked, and with whatever references the client has.  With those its promotions need it is a
        pass of the specification: it converges, stays sound, and releases reserved addresses only. */
    method ProcessIPGroups(ipGroup: IPGroup, ghost p: Plan)
      returns (ghost turns: seq<Turn>, ghost visits: seq<Visit>, ghost m': Memory)
      requires Ready() && Settled(View(), iClient.server.homes, p, false) && "" !in p.where
      requires "" !in GroupHosts(ipGroup.Groups) && GroupNets(iClient.server.homes, p.where, ipGroup.Groups)
      requires Roomy(iClient.server.homes, iClient.server.reserved, ipGroup.Groups, |UnitIds(ipGroup.Groups)|)
      modifies store, iClient, iClient.server
      ensures Ready() && (old(iClient.server.exclusive) ==> iClient.server.exclusive) && Remembers(m')
      ensures Schedule(ipGroup.Groups, turns) && AllAvailable(iClient.server.homes, old(View()), turns)
      ensures LooseRange(AddPhase(iClient.server.homes, old(View()), turns).st, visits)
      ensures LossyPass(iClient.server.homes, Memory(old(View()), old(iClient.Lost()), old(iClient.server.clean)),
        turns, visits, m')
      ensures StoredInNets(iClient.server.homes, store.Val(), ipGroup.Groups)
      ensures Service.FiledNames(old(store.Val()), store.Val(), GroupHosts(ipGroup.Groups))
      ensures Unbroken(old(store.Val()), old(iClient.Lost()), GroupHosts(ipGroup.Groups)) ==>
        && Possible(iClient.server.homes, old(View()), turns, NamedAll(visits))
        && View() == RunPass(iClient.server.homes, old(View()), turns, NamedAll(visits))
        && Sound(View(), iClient.server.homes) && Converged(old(store.Val()), store.Val(), GroupHosts(ipGroup.Groups))
        && iClient.server.clean == old(iClient.server.clean) && iClient.Lost() <= old(iClient.Lost())
    {
      hide Mirrors, Exclusive, Settled, GroupNets, Roomy, Schedule, AddPhase, PlanPhase, LossyRemoval, LooseRange,
        RunPass, GroupHosts, HostsOf, AllAvailable, IsUnit, NetsAgree, Sound, Converged, Extends, Unbroken,
        Unreferenced, NamedAll, Possible, Uniform, StoredInNets, Service.FiledNames;
      ghost var homes, m := iClient.server.homes, Memory(View(), iClient.Lost(), iClient.server.clean);
      LostIsLive(iClient.recordRef, iClient.dns);
      turns := AddMissing(ipGroup.Groups, p);
      ScheduleUnits(ipGroup.Groups, turns);
      ScheduleHosts(ipGroup.Groups, turns);
      ScheduleNets(homes, p.where, ipGroup.Groups, turns);
      AddPhaseSettles(homes, m.s, p, turns, turns);
      NamesExtend(homes, p, PlanPhase(p, turns), turns);
      LostIsLive(iClient.recordRef, iClient.dns);
      var ipGroupHosts := ipGroup.GetAllHosts();
      visits, m' := RemoveStale(ipGroupHosts, m.(s := View()), PlanPhase(p, turns));
      PassInNets(homes, m, p, ipGroup.Groups, turns, visits, m');
      Service.PassFilesWanted(homes, m, p, turns, visits, m');
      if Unbroken(m.s.st, m.lost, GroupHosts(ipGroup.Groups)) {
        RecalledPass(homes, m, p, turns, visits, m');
        PassConverges(homes, m.s, p, turns, NamedAll(visits));
      }
    }

    /** Replaces the store by the one the IPAM system's records make, if they differ. */
    method RefreshStore() returns (changed: bool)
      requires iClient.Valid() && "" !in iClient.dns
      requires forall n :: n in iClient.dns ==> iClient.server.zone(n) in iClient.server.zones
      modifies this
      ensures Loaded(store.Val(), iClient.dns, iClient.server.homes, iClient.server.zone, iClient.dns.Keys)
      ensures changed <==> store.Val() != old(store.Val())
      ensures !changed ==> store == old(store)
      ensures changed ==> fresh(store)
    {
      hide Loaded, Mirrors;
      var ipamStore := iClient.GetRecords();
      if store.Records != ipamStore.Records || store.Netviews != ipamStore.Netviews || store.Cidrs != ipamStore.Cidrs {
        store := ipamStore;
        return true;
      }
      return false;
    }

    /** A verify tick: the store is compared with the IPAM system, and when it has drifted it is replaced and
        reconciled with the groups at once; otherwise nothing happens. */
    method VerifyTick(ipGroup: IPGroup) returns (ghost e: Event, ghost m': Memory)
      requires Ready() && "" !in iClient.dns
      requires Healthy(iClient.dns, iClient.server.reserved, iClient.server.homes, iClient.server.zone)
      requires forall n :: n in iClient.dns ==> iClient.server.zone(n) in iClient.server.zones
      requires "" !in GroupHosts(ipGroup.Groups)
      requires GroupNets(iClient.server.homes,
        LoadedPlan(iClient.dns, iClient.server.reserved, iClient.server.homes, iClient.server.zone).where,
          ipGroup.Groups)
      requires Roomy(iClient.server.homes, iClient.server.reserved, ipGroup.Groups, |UnitIds(ipGroup.Groups)|)
      modifies this, store, iClient, iClient.server
      ensures Ready() && (old(iClient.server.exclusive) ==> iClient.server.exclusive) && Remembers(m')
      ensures e.Tick? &&
        Loaded(e.loaded, old(iClient.dns), iClient.server.homes, iClient.server.zone, old(iClient.dns).Keys)
      ensures e.loaded == old(store.Val()) ==>
        && View() == old(View()) && iClient.Lost() == old(iClient.Lost())
        && iClient.server.table == old(iClient.server.table)
      ensures e.loaded != old(store.Val()) ==>
        && Schedule(ipGroup.Groups, e.turns) && StoredInNets(iClient.server.homes, store.Val(), ipGroup.Groups)
        && Service.FiledNames(e.loaded, store.Val(), GroupHosts(ipGroup.Groups))
        && (Unbroken(e.loaded, old(iClient.Lost()), GroupHosts(ipGroup.Groups)) ==>
            Sound(View(), iClient.server.homes) && Converged(e.loaded, store.Val(), GroupHosts(ipGroup.Groups)))
      ensures Step(iClient.server.homes, Memory(old(View()), old(iClient.Lost()), old(iClient.server.clean)), e, m')
    {
      hide Mirrors, Exclusive, Settled, GroupNets, Roomy, Schedule, RunPass, LooseRange, LossyPass, GroupHosts, Loaded,
        Healthy, Possible, Converged, Sound, Unbroken, Unreferenced, StoredInNets,
        Service.FiledNames;
      ghost var homes, zone := iClient.server.homes, iClient.server.zone;
      ghost var m := Memory(View(), iClient.Lost(), iClient.server.clean);
      LostIsLive(iClient.recordRef, iClient.dns);
      var changed := RefreshStore();
      e, m' := Tick(store.Val(), [], []), m;
      if changed {
        ghost var loaded := View();
        LoadedSettles(loaded, homes, zone);
        ghost var turns, visits;
        turns, visits, m' := ProcessIPGroups(ipGroup, LoadedPlan(iClient.dns, iClient.server.reserved, homes, zone));
        e := Tick(loaded.st, turns, visits);
      }
    }

    /** One address of the loop: the resources whose first host is there are annotated with it.  A spec without
        hosts makes it panic.  done are the addresses annotated before. */
    method AnnotateAddress(ip: Addr, ipGroup: IPGroup, was: map<ResourceKey, Addr>, ghost done: set<Addr>)
      returns (panicked: bool, now: map<ResourceKey, Addr>)
      requires ip in store.Records
      ensures panicked <==> !GroupSpec.HaveHosts(ipGroup.Groups)
      ensures (
          && !panicked && HostOnce(store.Val()) && GroupSpec.OneSpecEach(ipGroup.Groups)
          && Written(store.Val(), ipGroup.Groups, done, was)) ==>
        Written(store.Val(), ipGroup.Groups, done + {ip}, now)
    {
      hide GroupSpec.OneSpecEach, HostOnce, Written, FirstIn, KeyIn, GroupSpec.In, GroupSpec.HaveHosts;
      ghost var st, groups := store.Val(), ipGroup.Groups;
      now := was;
      var hosts := MapKeys(store.Records[ip]);
      HostsListed(st, ip, hosts);
      var specs;
      panicked, specs := ipGroup.GetSpecsWithHosts(hosts);
      if !panicked {
        now := AnnotateResources(ip, specs, was);
        if HostOnce(st) && GroupSpec.OneSpecEach(groups) && Written(st, groups, done, was) {
          WrittenMore(st, groups, done, ip, hosts, specs, was, now);
        }
      }
    }

    /** Annotates every resource that has its first host at an address with that address. */
    method WriteIPHosts(ipGroup: IPGroup) returns (panicked: bool, annotations: map<ResourceKey, Addr>)
      ensures panicked <==> store.Records != map[] && !GroupSpec.HaveHosts(ipGroup.Groups)
      ensures !panicked && HostOnce(store.Val()) && GroupSpec.OneSpecEach(ipGroup.Groups) ==>
        && FirstAnnotated(store.Val(), ipGroup.Groups, annotations)
        && (SpecsTogether(store.Val(), ipGroup.Groups) ==> Annotated(store.Val(), ipGroup.Groups, annotations))
    {
      hide SpecsTogether, GroupSpec.OneSpecEach, HostOnce, Written, FirstAnnotated, Annotated, GroupSpec.In,
        GroupSpec.HaveHosts;
      ghost var st, groups, done: set<Addr> := store.Val(), ipGroup.Groups, {};
      ghost var good := HostOnce(st) && GroupSpec.OneSpecEach(groups);
      annotations, panicked := map[], false;
      var todo := store.Records.Keys;
      NothingWritten(st, groups);
      while todo != {}
        invariant done + todo == store.Records.Keys
        invariant good ==> Written(st, groups, done, annotations)
        invariant done != {} ==> GroupSpec.HaveHosts(groups)
        decreases |todo|
      {
        var ip :| ip in todo;
        panicked, annotations := AnnotateAddress(ip, ipGroup, annotations, done);
        if panicked {
          return;
        }
        done, todo := done + {ip}, todo - {ip};
      }
      if good { AllWritten(st, groups, annotations); }
    }

    /** Lines 78-82 of controller.go: one snapshot, processed and written back, in any state of the references
        and with any groups, whose units may share hosts; what holds of the outcome, and exactly when. */
    method HandleIPGroups(ipGroup: IPGroup, ghost p: Plan)
      returns (panicked: bool, annotations: map<ResourceKey, Addr>, ghost turns: seq<Turn>)
      requires Ready() && Settled(View(), iClient.server.homes, p, false) && "" !in p.where
      requires "" !in GroupHosts(ipGroup.Groups) && GroupNets(iClient.server.homes, p.where, ipGroup.Groups)
      requires Roomy(iClient.server.homes, iClient.server.reserved, ipGroup.Groups, |UnitIds(ipGroup.Groups)|)
      modifies store, iClient, iClient.server
      ensures Ready() && (old(iClient.server.exclusive) ==> iClient.server.exclusive)
      ensures Schedule(ipGroup.Groups, turns)
      ensures panicked <==> store.Records != map[] && !GroupSpec.HaveHosts(ipGroup.Groups)
      ensures StoredInNets(iClient.server.homes, store.Val(), ipGroup.Groups)
      ensures Service.FiledNames(old(store.Val()), store.Val(), GroupHosts(ipGroup.Groups))
      ensures Unbroken(old(store.Val()), old(iClient.Lost()), GroupHosts(ipGroup.Groups)) ==>
        && Sound(View(), iClient.server.homes)
        && Converged(old(store.Val()), store.Val(), GroupHosts(ipGroup.Groups))
        && (UnitsTogether(store.Val(), ipGroup.Groups) <==> TogetherInTurn(p, turns))
        && (GroupSpec.OneSpecEach(ipGroup.Groups) && !panicked ==>
            FirstAnnotated(store.Val(), ipGroup.Groups, annotations))
        && (TogetherInTurn(p, turns) && GroupSpec.OneSpecEach(ipGroup.Groups) && !panicked ==>
            Annotated(store.Val(), ipGroup.Groups, annotations))
      ensures (
          && Unbroken(old(store.Val()), old(iClient.Lost()), GroupHosts(ipGroup.Groups))
          && old(Settled(View(), iClient.server.homes, p, true))) ==>
        && (Coherent(View(), iClient.server.homes) <==> FittingInTurn(p, turns, GroupHosts(ipGroup.Groups)))
        && (DisjointGroups(ipGroup.Groups) ==>
            (FittingInTurn(p, turns, GroupHosts(ipGroup.Groups)) <==> AllFitting(p, ipGroup.Groups)))
      ensures (
          && Unbroken(old(store.Val()), old(iClient.Lost()), GroupHosts(ipGroup.Groups))
          && DisjointGroups(ipGroup.Groups) && SharedByGroups(old(store.Val()), ipGroup.Groups)) ==>
        && (SharedByGroups(store.Val(), ipGroup.Groups) <==> FirstsStored(old(store.Val()), ipGroup.Groups))
        && (FirstsStored(old(store.Val()), ipGroup.Groups) ==> TogetherInTurn(p, turns))
    {
      hide Mirrors, Unreferenced, Settled, GroupNets, Roomy, Unbroken, DisjointGroups, SharedByGroups, FirstsStored,
        LooseRange, Schedule, RunPass, Possible, LossyPass, NamedAll, GroupHosts, Sound, Coherent, Converged,
        SpecsTogether, IsUnit, Annotated, GroupSpec.In, GroupSpec.OneSpecEach, GroupSpec.HaveHosts, AllFitting,
        AllAvailable, FittingInTurn, TogetherInTurn, UnitsTogether, StoredInNets, FirstAnnotated, Service.FiledNames;
      ghost var homes, s0, groups, lost := iClient.server.homes, View(), ipGroup.Groups, iClient.Lost();
      ghost var visits, m';
      turns, visits, m' := ProcessIPGroups(ipGroup, p);
      panicked, annotations := WriteIPHosts(ipGroup);
      if Unbroken(s0.st, lost, GroupHosts(groups)) {
        HandledPass(homes, s0, p, groups, turns, NamedAll(visits));
      }
    }

    /** The loop of AnnotateResources: the annotation of each spec's resource becomes ip. */
    method AnnotateResources(ip: Addr, specs: seq<Spec>, was: map<ResourceKey, Addr>)
        returns (now: map<ResourceKey, Addr>)
      ensures forall key :: key in now <==> key in was || KeyIn(specs, key)
      ensures forall key :: key in now ==> now[key] == if KeyIn(specs, key) then ip else was[key]
    {
      now := was;
      for i := 0 to |specs|
        invariant forall key :: key in now <==> key in was || KeyIn(specs[..i], key)
        invariant forall key :: key in now ==> now[key] == if KeyIn(specs[..i], key) then ip else was[key]
      {
        KeyInMore(specs, i);
        now := now[specs[i].key := ip];
      }
      assert specs[..|specs|] == specs;
    }
  }

  lemma LostIsLive(refs: map<Host, Ref>, dns: map<Host, Rec>)
    ensures Unreferenced(refs, dns) <= dns.Keys
  {
  }

  /** What a pass of the specification has done for the groups. */
  lemma HandledPass(homes: Homes, s: Sys, p: Plan, groups: Groups, turns: seq<Turn>, visits: seq<Visit>)
    requires Settled(s, homes, p, false) && "" !in homes && GroupNets(homes, p.where, groups)
    requires Schedule(groups, turns) && Possible(homes, s, turns, visits)
    ensures var s' := RunPass(homes, s, turns, visits);
      && HostOnce(s'.st)
      && (Settled(s, homes, p, true) ==>
          && (Coherent(s', homes) <==> FittingInTurn(p, turns, GroupHosts(groups)))
          && (DisjointGroups(groups) ==> (FittingInTurn(p, turns, GroupHosts(groups)) <==> AllFitting(p, groups))))
      && (UnitsTogether(s'.st, groups) <==> TogetherInTurn(p, turns))
      && (TogetherInTurn(p, turns) && GroupSpec.OneSpecEach(groups) ==> SpecsTogether(s'.st, groups))
      && (DisjointGroups(groups) && SharedByGroups(s.st, groups) ==>
          && (SharedByGroups(s'.st, groups) <==> FirstsStored(s.st, groups))
          && (FirstsStored(s.st, groups) ==> TogetherInTurn(p, turns)))
  {
    hide Settled, GroupNets, DisjointGroups, SharedByGroups, FirstsStored, Schedule, RunPass, Possible, Sound, Coherent,
      Converged, SpecsTogether, IsUnit, GroupSpec.OneSpecEach, AllFitting, NetsAgree, HostsOf, FittingInTurn,
      TogetherInTurn, UnitsTogether;
    ScheduleUnits(groups, turns);
    ScheduleNets(homes, p.where, groups, turns);
    PassConverges(homes, s, p, turns, visits);
    SoundMeans(RunPass(homes, s, turns, visits), homes);
    if Settled(s, homes, p, true) { PassCoherentByGroupsIff(homes, s, p, groups, turns, visits); }
    PassTogetherByGroupsIff(homes, s, p, groups, turns, visits);
    if TogetherInTurn(p, turns) && GroupSpec.OneSpecEach(groups) {
      PassAnnotatesOnce(homes, s, p, groups, turns, visits);
    }
    if DisjointGroups(groups) && SharedByGroups(s.st, groups) {
      PassSharesByGroupsIff(homes, s, p, groups, turns, visits);
      if FirstsStored(s.st, groups) { DisjointTogether(homes, s, p, groups, turns, visits); }
    }
  }

  lemma LoadedSettles(s: Sys, homes: Homes, zone: ZoneOf)
    requires Healthy(s.dns, s.reserved, homes, zone) && Loaded(s.st, s.dns, homes, zone, s.dns.Keys)
    ensures Settled(s, homes, LoadedPlan(s.dns, s.reserved, homes, zone), false)
    ensures LoadedPlan(s.dns, s.reserved, homes, zone).where.Keys == s.dns.Keys
  {
    hide Settled;
    LoadedIsCoherent(s, homes, zone);
    Attachment.SettledStrict(s, homes, LoadedPlan(s.dns, s.reserved, homes, zone));
  }

  lemma DropFacts(m: Memory, homes: Homes, ip: Addr, avail: seq<Host>, host: Host)
    requires Midvisit(m.s, homes, ip, avail) && At(m.s.st, ip, host) && (host in avail || host == "")
    ensures "" !in Without(avail, host) && (m.s.st.records[ip][host] == CNAME ==> host != "")
    ensures host != "" && m.s.st.records[ip][host] == A && Without(avail, host) != [] ==>
      && Promotable(m.s.dns, homes, Without(avail, host), host, ip, NetAt(m.s.st, ip)) && host in m.s.dns
      && forall h :: h in Without(avail, host) ==> h in m.s.dns
  {
    hide Promotable, Without;
    EmptyIsA(m.s, homes, ip, avail);
    MidvisitFiled(m.s, homes, ip, avail);
    WithoutIn(avail, host);
    if host != "" && m.s.st.records[ip][host] == A && Without(avail, host) != [] {
      CanPromote(m.s, homes, ip, avail, host);
    }
  }

  /** A name without a record does not stop a promotion. */
  lemma {:induction false} ReachLive(avail: seq<Host>, lost: set<Host>, live: set<Host>, i: nat)
    requires i <= |avail| && forall h :: h in avail ==> h in live
    ensures Reach(avail, lost * live, i) == Reach(avail, lost, i)
    decreases |avail| - i
  {
    if i < |avail| {
      assert avail[i] in avail;
      ReachLive(avail, lost, live, i + 1);
    }
  }

  lemma MeetingMeans(homes: Homes, s1: Sys, where: map<Host, Addr>, ip: Addr, w: LossySweep, unmet: set<Host>,
      rest: set<Addr>, host: Host)
    requires Meeting(s1, homes, where, ip, w, unmet, rest) && (host in unmet || (host == "" && At(w.m.s.st, ip, "")))
    ensures Midvisit(w.m.s, homes, ip, w.avail) && "" !in w.m.s.dns && At(w.m.s.st, ip, host) &&
      (host in w.avail || host == "")
  {
    hide Midvisit;
    MidvisitFiled(w.m.s, homes, ip, w.avail);
    ElementsIn(w.avail);
  }

  lemma MetMore(homes: Homes, w: LossySweep, ip: Addr, wanted: set<Host>, order: seq<Host>, host: Host)
    ensures LossySweepHosts(homes, w, ip, wanted, order + [host]) ==
      LossySweepHost(homes, LossySweepHosts(homes, w, ip, wanted, order), ip, wanted, host)
  {
    assert (order + [host])[..|order|] == order;
  }

  /** order lists the hosts met, todo holds those to come: the keys the range began with, and the empty name
      once it has been added. */
  ghost predicate Walks(keys: set<Host>, order: seq<Host>, todo: set<Host>, added: bool) {
    && "" !in keys && Distinct(order) && Elements(order) !! todo
    && Elements(order) + todo == keys + if added then {""} else {}
  }

  lemma WalksMore(keys: set<Host>, order: seq<Host>, todo: set<Host>, added: bool, host: Host)
    requires Walks(keys, order, todo, added) && host in todo
    ensures Walks(keys, order + [host], todo - {host}, added)
  {
    AppendElements(order, host);
  }

  lemma WalksEmpty(keys: set<Host>, order: seq<Host>, todo: set<Host>)
    requires Walks(keys, order, todo, false)
    ensures Walks(keys, order, todo + {""}, true)
  {
  }

  /** Where the range over the hosts of ip stands: it began at w0, has met order, and has come to w. */
  ghost predicate Standing(homes: Homes, s1: Sys, where: map<Host, Addr>, ip: Addr, w0: LossySweep, wanted: set<Host>,
      order: seq<Host>, todo: set<Host>, added: bool, w: LossySweep, rest: set<Addr>)
  {
    && Ground(s1, where) && ip in s1.st.records && ip in w.m.s.st.records
    && Distinct(w0.avail) && Elements(w0.avail) == s1.st.records[ip].Keys
    && Walks(s1.st.records[ip].Keys, order, todo, added)
    && w == LossySweepHosts(homes, w0, ip, wanted, order) && Meeting(s1, homes, where, ip, w, todo - {""}, rest)
    && NetAt(w.m.s.st, ip) == NetAt(w0.m.s.st, ip) && ("" in todo ==> At(w.m.s.st, ip, ""))
  }

  lemma StandingStart(homes: Homes, s1: Sys, p1: Plan, ip: Addr, w0: LossySweep, wanted: set<Host>, rest: set<Addr>)
    requires Settled(s1, homes, p1, false) && "" !in p1.where && SameFrame(s1.st, w0.m.s.st) && "" !in w0.m.s.dns
    requires Fresh(s1, w0.m.s, ip) && ip !in rest && forall ip' :: ip' in rest ==> Fresh(s1, w0.m.s, ip')
    requires Distinct(w0.avail) && Elements(w0.avail) == w0.m.s.st.records[ip].Keys
    ensures ip in w0.m.s.st.records
    ensures Standing(homes, s1, p1.where, ip, w0, wanted, [], w0.m.s.st.records[ip].Keys, false, w0, rest)
  {
    hide Settled, Meeting, SameFrame, Mates, Ground, Whole;
    FreshNetworks(homes, s1, p1, w0.m.s, ip);
    MeetingStart(homes, s1, p1, w0.m.s, ip, w0.avail, w0, rest);
    var keys := w0.m.s.st.records[ip].Keys;
    assert keys - {""} == keys;
  }

  lemma StandingTurn(homes: Homes, s1: Sys, where: map<Host, Addr>, ip: Addr, w0: LossySweep, wanted: set<Host>,
      order: seq<Host>, todo: set<Host>, added: bool, w: LossySweep, rest: set<Addr>, host: Host)
    requires Standing(homes, s1, where, ip, w0, wanted, order, todo, added, w, rest) && host in todo
    ensures Ground(s1, where) && Meeting(s1, homes, where, ip, w, todo - {""}, rest)
    ensures host in todo - {""} || (host == "" && At(w.m.s.st, ip, ""))
    ensures NetAt(w.m.s.st, ip) == NetAt(w0.m.s.st, ip)
    ensures Standing(homes, s1, where, ip, w0, wanted, order + [host], todo - {host}, added,
      LossySweepHost(homes, w, ip, wanted, host), rest)
    ensures ip in LossySweepHost(homes, w, ip, wanted, host).m.s.st.records
  {
    hide Meeting, Ground, LossySweepHosts, LossySweepHost, Walks;
    MeetingTurn(homes, s1, where, ip, w, todo - {""}, rest, wanted, host);
    MetMore(homes, w0, ip, wanted, order, host);
    WalksMore(s1.st.records[ip].Keys, order, todo, added, host);
    SameNetMet(homes, s1, where, ip, w, LossySweepHost(homes, w, ip, wanted, host), todo - {""},
      todo - {""} - {host}, rest);
    assert todo - {""} - {host} == todo - {host} - {""};
  }

  lemma SameNetMet(homes: Homes, s1: Sys, where: map<Host, Addr>, ip: Addr, w: LossySweep, w': LossySweep,
      unmet: set<Host>, unmet': set<Host>, rest: set<Addr>)
    requires Meeting(s1, homes, where, ip, w, unmet, rest) && Meeting(s1, homes, where, ip, w', unmet', rest)
    ensures NetAt(w'.m.s.st, ip) == NetAt(w.m.s.st, ip) && ip in w'.m.s.st.records
  {
    hide Fresh;
  }

  lemma StandingEmpty(homes: Homes, s1: Sys, where: map<Host, Addr>, ip: Addr, w0: LossySweep, wanted: set<Host>,
      order: seq<Host>, todo: set<Host>, w: LossySweep, rest: set<Addr>)
    requires Standing(homes, s1, where, ip, w0, wanted, order, todo, false, w, rest) && At(w.m.s.st, ip, "")
    ensures Standing(homes, s1, where, ip, w0, wanted, order, todo + {""}, true, w, rest)
  {
    hide Meeting, Ground, LossySweepHosts, Walks;
    WalksEmpty(s1.st.records[ip].Keys, order, todo);
    assert todo + {""} - {""} == todo - {""} by { WalksNamed(s1.st.records[ip].Keys, order, todo); }
  }

  lemma WalksNamed(keys: set<Host>, order: seq<Host>, todo: set<Host>)
    requires Walks(keys, order, todo, false)
    ensures "" !in todo
  {
  }

  lemma StandingEnd(homes: Homes, s1: Sys, where: map<Host, Addr>, ip: Addr, w0: LossySweep, wanted: set<Host>,
      order: seq<Host>, added: bool, w: LossySweep, rest: set<Addr>)
    requires Standing(homes, s1, where, ip, w0, wanted, order, {}, added, w, rest)
    ensures LooseVisit(s1.st, Visit(ip, w0.avail, order)) && w == LossySweepHosts(homes, w0, ip, wanted, order)
    ensures "" !in w.m.s.dns && SameFrame(s1.st, w.m.s.st) && forall ip' :: ip' in rest ==> Fresh(s1, w.m.s, ip')
  {
    hide Midvisit, SameFrame, Fresh, Ground;
  }

  lemma SweepBegins(homes: Homes, m: Memory, p: Plan, wanted: set<Host>)
    requires Settled(m.s, homes, p, false) && "" !in p.where
    ensures LossySweepStore(homes, m, wanted, []) == LossySweep(m, [], []) && "" !in m.s.dns &&
      SameFrame(m.s.st, m.s.st)
    ensures DistinctAddresses([]) && Addresses([]) == {} && forall ip :: ip in m.s.st.records ==> Fresh(m.s, m.s, ip)
  {
    forall ip, h | At(m.s.st, ip, h) ensures h in m.s.dns {
    }
  }

  lemma LossyVisitMore(homes: Homes, m: Memory, wanted: set<Host>, visits: seq<Visit>, v: Visit)
    requires DistinctAddresses(visits) && v.ip !in Addresses(visits)
    ensures DistinctAddresses(visits + [v]) && Addresses(visits + [v]) == Addresses(visits) + {v.ip}
    ensures var w := LossySweepStore(homes, m, wanted, visits);
      LossySweepStore(homes, m, wanted, visits + [v]) ==
        LossySweepHosts(homes, LossySweep(w.m, v.avail, w.gone), v.ip, wanted, v.order)
    ensures forall x :: x in visits + [v] <==> x in visits || x == v
  {
    assert (visits + [v])[..|visits|] == visits;
    forall x | x in visits ensures x.ip in Addresses(visits) {
    }
  }

  /** The groups in order have been walked, and the turns are those of their units. */
  ghost predicate Walked(groups: Groups, order: seq<GroupKey>, todo: set<GroupKey>, turns: seq<Turn>) {
    && Distinct(order) && Elements(order) == groups.Keys - todo && (forall k :: k in order ==> k in groups)
    && Serves(turns, UnitsOf(groups, order))
  }

  lemma NothingWalked(groups: Groups)
    ensures Walked(groups, [], groups.Keys, []) && Spares(groups, groups.Keys, UnitIds(groups))
  {
    hide Units;
  }

  lemma WalkedMore(groups: Groups, order: seq<GroupKey>, todo: set<GroupKey>, turns: seq<Turn>, group: GroupKey,
      added: seq<Turn>)
    requires todo <= groups.Keys && Walked(groups, order, todo, turns) && group in todo
    requires Serves(added, Units(group, groups[group]))
    ensures Walked(groups, order + [group], todo - {group}, turns + added)
  {
    hide Units, Serves, UnitsOf;
    assert group !in Elements(order);
    UnitsOfSnoc(groups, order, group);
    ServesConcat(turns, UnitsOf(groups, order), added, Units(group, groups[group]));
    AppendElements(order, group);
  }

  lemma AllWalked(groups: Groups, order: seq<GroupKey>, turns: seq<Turn>)
    requires Walked(groups, order, {}, turns)
    ensures Schedule(groups, turns)
  {
    assert groups.Keys - {} == groups.Keys;
    assert IsSchedule(groups, order, turns);
  }

  /** spare holds the ids of the units still to come. */
  ghost predicate Spares(groups: Groups, todo: set<GroupKey>, spare: set<(GroupKey, nat)>)
    requires todo <= groups.Keys
  {
    forall k, i: nat :: k in todo && i < |Units(k, groups[k])| ==> (k, i) in spare
  }

  lemma SparesOf(groups: Groups, todo: set<GroupKey>, spare: set<(GroupKey, nat)>, group: GroupKey)
    requires todo <= groups.Keys && Spares(groups, todo, spare) && group in todo
    ensures forall i: nat :: i < |Units(group, groups[group])| ==> (group, i) in spare
  {
    hide Units;
  }

  lemma SparesLeft(groups: Groups, todo: set<GroupKey>, spare: set<(GroupKey, nat)>, left: set<(GroupKey, nat)>,
      group: GroupKey)
    requires todo <= groups.Keys && Spares(groups, todo, spare)
    requires forall k, i: nat :: (k, i) in spare && k != group ==> (k, i) in left
    ensures Spares(groups, todo - {group}, left)
  {
    hide Units;
  }

  lemma NamesOfUnit(groups: Groups, key: GroupKey, i: nat)
    requires key in groups && i < |Units(key, groups[key])| && "" !in GroupHosts(groups)
    ensures "" !in Units(key, groups[key])[i].hosts
  {
    assert UnitIn(groups, key, i, Units(key, groups[key])[i]);
    UnitHosts(groups, key, i, Units(key, groups[key])[i]);
  }

  lemma NothingPlaced(s: Sys, u: Unit, next: Addr, specs: seq<Spec>)
    ensures |AllOf(specs[..0])| == 0
    ensures PlaceHosts(s, u, next, 0) == Walk(s.(reserved := s.reserved + {next}), next, false)
  {
  }

  lemma NextSpec(specs: seq<Spec>, k: nat)
    requires k < |specs|
    ensures var n := |AllOf(specs[..k])|;
      && n + |specs[k].hosts| == |AllOf(specs[..k + 1])| <= |AllOf(specs)|
      && AllOf(specs)[n..n + |specs[k].hosts|] == specs[k].hosts
    ensures k == 0 ==> |AllOf(specs[..k])| == 0
  {
    AllOfSlice(specs, k);
    AllOfPrefix(specs, k + 1);
  }

  lemma {:induction false} AllOfPrefix(specs: seq<Spec>, k: nat)
    requires k <= |specs|
    ensures |AllOf(specs[..k])| <= |AllOf(specs)|
    decreases |specs| - k
  {
    if k < |specs| {
      AllOfPrefix(specs, k + 1);
      assert specs[..k + 1][..k] == specs[..k];
    } else {
      assert specs[..k] == specs;
    }
  }

  /** GetIP finds nothing: the host is not stored, or under the empty address only. */
  ghost predicate Unfound(st: StoreVal, host: Host) {
    forall ip :: At(st, ip, host) ==> ip == ""
  }

  lemma UnfoundIp(st: StoreVal, host: Host, ip: Addr)
    requires Unfound(st, host) && if Stored(st, host) then At(st, ip, host) else ip == ""
    ensures ip == ""
  {
  }

  /** The record asked for is made, and its name has one of the other type. */
  ghost predicate Clashing(table: Table, host: Host, first: Host, next: Addr, netview: string) {
    if host == first then MatchingA(table, host, next, netview) == {} && Clashes(table, host, ARec(next, netview))
    else MatchingC(table, host, netview) == {} && Clashes(table, host, CRec(first, netview))
  }

  /** The record that is made unless there is one, and where the host is filed: a first host is not if its record
      was there. */
  ghost predicate FilesUnfound(table: Table, table': Table, st: StoreVal, st': StoreVal, host: Host, first: Host,
      next: Addr, cur: Addr, net: Net)
  {
    if host == first then
      if MatchingA(table, host, next, net.netview) == {} then
        Gains(table, table', host, ARec(next, net.netview)) && st' == AddRecord(st, cur, host, A, net)
      else
        table' == table && st' == st
    else
      && st' == AddRecord(st, cur, host, CNAME, net)
      && if MatchingC(table, host, net.netview) == {} then Gains(table, table', host, CRec(first, net.netview))
         else table' == table
  }

  lemma UnfoundFirst(table: Table, table': Table, st: StoreVal, st': StoreVal, host: Host, next: Addr, cur: Addr,
      net: Net)
    requires if MatchingA(table, host, next, net.netview) == {}
      then Gains(table, table', host, ARec(next, net.netview)) && st' == AddRecord(st, cur, host, A, net)
      else table' == table && st' == st
    ensures FilesUnfound(table, table', st, st', host, host, next, cur, net)
    ensures Exclusive(table) ==> (Exclusive(table') <==> !Clashing(table, host, host, next, net.netview))
  {
    hide Exclusive, Gains, Clashes, AddRecord, MatchingA;
    if MatchingA(table, host, next, net.netview) == {} { ClashIff(table, table', host, ARec(next, net.netview)); }
  }

  lemma UnfoundNext(table: Table, table': Table, st: StoreVal, st': StoreVal, host: Host, first: Host, next: Addr,
      cur: Addr, net: Net)
    requires host != first && st' == AddRecord(st, cur, host, CNAME, net)
    requires if MatchingC(table, host, net.netview) == {} then Gains(table, table', host, CRec(first, net.netview))
      else table' == table
    ensures FilesUnfound(table, table', st, st', host, first, next, cur, net)
    ensures Exclusive(table) ==> (Exclusive(table') <==> !Clashing(table, host, first, next, net.netview))
  {
    hide Exclusive, Gains, Clashes, AddRecord, MatchingC;
    if MatchingC(table, host, net.netview) == {} { ClashIff(table, table', host, CRec(first, net.netview)); }
  }

  lemma PlaceCases(w: Walk, host: Host, first: Host, next: Addr, net: Net)
    ensures Place(w, host, first, next, net) ==
      if IpOf(w.s.st, host) != "" then w.(cur := IpOf(w.s.st, host))
      else if host == first then
        if RefusesA(w.s.dns, host, next, net.netview) then w
        else Walk(Sys(AddRecord(w.s.st, w.cur, host, A, net), w.s.dns[host := ARec(next, net.netview)], w.s.reserved),
          w.cur, true)
      else
        w.(s := Sys(AddRecord(w.s.st, w.cur, host, CNAME, net), CreatedC(w.s.dns, host, first, net.netview),
          w.s.reserved))
  {
  }

  lemma GotIP(st: StoreVal, host: Host, ip: Addr)
    requires HostOnce(st) && if Stored(st, host) then At(st, ip, host) else ip == ""
    ensures ip == IpOf(st, host)
  {
  }

  lemma PlacingFacts(w: Walk, pw: PlanWalk, homes: Homes, next: Addr, host: Host)
    requires InStep(w, pw, homes, next) && "" !in homes
    ensures HostOnce(w.s.st) && (IpOf(w.s.st, host) == "" ==> host !in w.s.dns)
  {
    hide Backed;
    NoEmptyAddress(Base(w, next), homes, pw.p);
    IpOfPlan(w.s.st, pw.p.where, host);
  }
}
