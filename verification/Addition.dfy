/**
 The first phase of a pass: each unit (a named group, or one spec of the unnamed group) reserves an
 address, its missing hosts get records, and an unused reservation is released.
 */
module Addition {
  import opened Types
  import opened StoreSpec
  import opened Reconcile

  /** The hosts that are to share an address, and the network the address comes from. */
  datatype Unit = Unit(net: Net, hosts: seq<Host>)

  /** The loop variables of lines 118-175 of controller.go beside the system: curAddr and addrUsed. */
  datatype Walk = Walk(s: Sys, cur: Addr, used: bool)

  /** One host of a unit: lines 155-173 of controller.go. */
  ghost function Place(w: Walk, host: Host, first: Host, next: Addr, net: Net): Walk {
    if IpOf(w.s.st, host) != "" then
      w.(cur := IpOf(w.s.st, host))
    else if host == first then
      if RefusesA(w.s.dns, host, next, net.netview) then w
      else
        Walk(Sys(AddRecord(w.s.st, w.cur, host, A, net), w.s.dns[host := ARec(next, net.netview)], w.s.reserved),
          w.cur, true)
    else
      w.(s :=
        Sys(AddRecord(w.s.st, w.cur, host, CNAME, net), CreatedC(w.s.dns, host, first, net.netview), w.s.reserved))
  }

  /** The first n hosts of unit u, after address next has been reserved for it. */
  ghost function PlaceHosts(s: Sys, u: Unit, next: Addr, n: nat): Walk
    requires n <= |u.hosts|
  {
    if n == 0 then Walk(s.(reserved := s.reserved + {next}), next, false)
    else Place(PlaceHosts(s, u, next, n - 1), u.hosts[n - 1], u.hosts[0], next, u.net)
  }

  /** A whole unit: lines 129-135 and 138-144, the hosts, and lines 177-184, of controller.go. */
  ghost function AddUnit(homes: Homes, s: Sys, u: Unit, next: Addr): Sys {
    var w := PlaceHosts(s, u, next, |u.hosts|);
    if w.used then w.s else w.s.(reserved := Released(w.s.reserved, homes, next, u.net))
  }

  /** A unit and the address the IPAM system hands out for it. */
  datatype Turn = Turn(unit: Unit, next: Addr)

  ghost function AddPhase(homes: Homes, s: Sys, turns: seq<Turn>): Sys {
    if turns == [] then s
    else
      var t := turns[|turns| - 1];
      AddUnit(homes, AddPhase(homes, s, turns[..|turns| - 1]), t.unit, t.next)
  }

  /** The success assumption on allocation: an unreserved address of the unit's own network. */
  predicate Available(homes: Homes, s: Sys, t: Turn) {
    t.next in homes && homes[t.next] == t.unit.net && t.next !in s.reserved
  }

  ghost predicate AllAvailable(homes: Homes, s: Sys, turns: seq<Turn>) {
    turns != [] ==>
      var init := turns[..|turns| - 1];
      AllAvailable(homes, s, init) && Available(homes, AddPhase(homes, s, init), turns[|turns| - 1])
  }

  // ---------- the same loop on plans ----------

  datatype PlanWalk = PlanWalk(p: Plan, cur: Addr, used: bool)

  function PlacePlan(w: PlanWalk, host: Host, first: Host, next: Addr): PlanWalk {
    if host in w.p.where then
      w.(cur := w.p.where[host])
    else if host == first then
      PlanWalk(Plan(w.p.where[host := next], w.p.owner[next := host]), w.cur, true)
    else
      w.(p := Plan(w.p.where[host := w.cur], w.p.owner))
  }

  function PlanHosts(p: Plan, u: Unit, next: Addr, n: nat): PlanWalk
    requires n <= |u.hosts|
  {
    if n == 0 then PlanWalk(p, next, false)
    else PlacePlan(PlanHosts(p, u, next, n - 1), u.hosts[n - 1], u.hosts[0], next)
  }

  function PlanUnit(p: Plan, u: Unit, next: Addr): Plan {
    PlanHosts(p, u, next, |u.hosts|).p
  }

  function PlanPhase(p: Plan, turns: seq<Turn>): Plan {
    if turns == [] then p
    else PlanUnit(PlanPhase(p, turns[..|turns| - 1]), turns[|turns| - 1].unit, turns[|turns| - 1].next)
  }

  /** The hosts a unit shares with the store are stored in the unit's own network. */
  ghost predicate SameNet(homes: Homes, where: map<Host, Addr>, u: Unit) {
    forall h :: h in u.hosts && h in where ==> where[h] in homes && homes[where[h]] == u.net
  }

  /** The system while a unit is being placed, not counting a reservation that is not used yet. */
  function Base(w: Walk, next: Addr): Sys {
    if w.used then w.s else w.s.(reserved := w.s.reserved - {next})
  }

  /** The system and the plan are at the same point of the same unit. */
  ghost predicate InStep(w: Walk, pw: PlanWalk, homes: Homes, next: Addr) {
    && Settled(Base(w, next), homes, pw.p, false)
    && w.cur == pw.cur && w.used == pw.used
    && next in w.s.reserved && (w.used <==> next in pw.p.owner)
  }

  lemma FiledKeepsBacked(s: Sys, s': Sys, p: Plan, p': Plan, ip: Addr, host: Host, t: RecordType, net: Net, h: Host)
    requires Files(s.st, s'.st, ip, host, t, net) && (ip in s.st.records ==> NetAt(s.st, ip) == net)
    requires h != host && h in p.where && Backed(s, p, h, false)
    requires h in s'.dns && s'.dns[h] == s.dns[h]
    requires h in p'.where && p'.where[h] == p.where[h]
    requires forall ip' :: ip' in p.owner ==> ip' in p'.owner && p'.owner[ip'] == p.owner[ip']
    ensures Backed(s', p', h, false)
  {
  }

  lemma OldNetwork(st: StoreVal, homes: Homes, ip: Addr, net: Net)
    requires InNetwork(st, homes) && ip in homes && homes[ip] == net
    ensures ip in st.records ==> NetAt(st, ip) == net
  {
  }

  lemma FiledNetworks(st: StoreVal, st': StoreVal, homes: Homes, ip: Addr, host: Host, t: RecordType, net: Net)
    requires KeysAgree(st) && InNetwork(st, homes) && Files(st, st', ip, host, t, net)
    requires ip in homes && homes[ip] == net
    ensures KeysAgree(st') && InNetwork(st', homes)
  {
  }

  function Filing(p: Plan, ip: Addr, host: Host): Plan {
    Plan(p.where[host := ip], if ip in p.owner then p.owner else p.owner[ip := host])
  }

  lemma FiledBacks(s: Sys, st': StoreVal, homes: Homes, p: Plan, ip: Addr, host: Host, rec: Rec, net: Net)
    requires host !in p.where && rec.netview == net.netview
    requires forall ip :: ip in p.owner ==> p.owner[ip] in p.where
    requires if ip in p.owner then rec.CRec? else rec.ARec? && rec.ip == ip
    requires Files(s.st, st', ip, host, if ip in p.owner then CNAME else A, net)
    ensures Backed(Sys(st', s.dns[host := rec], s.reserved + {ip}), Filing(p, ip, host), host, false)
  {
  }

  lemma FiledFiled(st: StoreVal, st': StoreVal, p: Plan, ip: Addr, host: Host, t: RecordType, net: Net)
    requires Filed(st, p.where) && host !in p.where && st.records.Keys == p.owner.Keys
    requires Files(st, st', ip, host, t, net)
    ensures Filed(st', Filing(p, ip, host).where) && st'.records.Keys == Filing(p, ip, host).owner.Keys
  {
  }

  lemma FiledAllBacked(s: Sys, s': Sys, homes: Homes, p: Plan, ip: Addr, host: Host, rec: Rec, net: Net)
    requires Follows(s, homes, p, false) && host !in p.where
    requires s' == Sys(s'.st, s.dns[host := rec], s.reserved + {ip})
    requires rec.netview == net.netview && (ip in s.st.records ==> NetAt(s.st, ip) == net)
    requires if ip in p.owner then rec.CRec? else rec.ARec? && rec.ip == ip
    requires Files(s.st, s'.st, ip, host, if ip in p.owner then CNAME else A, net)
    ensures forall h :: h in Filing(p, ip, host).where ==> Backed(s', Filing(p, ip, host), h, false)
  {
    hide Files, Backed, NetAt, InNetwork, KeysAgree;
    var p' := Filing(p, ip, host);
    forall h | h in p'.where ensures Backed(s', p', h, false) {
      if h == host {
        FiledBacks(s, s'.st, homes, p, ip, host, rec, net);
      } else {
        assert Backed(s, p, h, false);
        FiledKeepsBacked(s, s', p, p', ip, host, if ip in p.owner then CNAME else A, net, h);
      }
    }
  }

  /** Filing one more host, either as owner of a fresh address or at an address that has an owner. */
  lemma FileHost(s: Sys, homes: Homes, p: Plan, ip: Addr, host: Host, rec: Rec, net: Net, st': StoreVal)
    requires Settled(s, homes, p, false) && host !in p.where && ip in homes && homes[ip] == net
    requires rec.netview == net.netview
    requires if ip in p.owner then rec.CRec? else rec.ARec? && rec.ip == ip
    requires Files(s.st, st', ip, host, if ip in p.owner then CNAME else A, net)
    ensures Settled(Sys(st', s.dns[host := rec], s.reserved + {ip}), homes, Filing(p, ip, host), false)
  {
    hide Files, Backed, Filed, NetAt, InNetwork, KeysAgree;
    var t, s' := if ip in p.owner then CNAME else A, Sys(st', s.dns[host := rec], s.reserved + {ip});
    FiledNetworks(s.st, st', homes, ip, host, t, net);
    OldNetwork(s.st, homes, ip, net);
    FiledAllBacked(s, s', homes, p, ip, host, rec, net);
    FiledFiled(s.st, st', p, ip, host, t, net);
  }

  // ---------- the walk over a unit follows the plan ----------

  /** The two maps of a plan fit together: every host is at an owned address, every owner at its own. */
  ghost predicate PlanOK(p: Plan) {
    && (forall h :: h in p.where ==> p.where[h] in p.owner)
    && (forall ip :: ip in p.owner ==> p.owner[ip] in p.where && p.where[p.owner[ip]] == ip)
  }

  lemma SettledPlanOK(s: Sys, homes: Homes, p: Plan, strict: bool)
    requires Settled(s, homes, p, strict)
    ensures PlanOK(p) && p.owner.Keys == s.reserved == s.st.records.Keys && p.where.Keys == s.dns.Keys
    ensures forall ip :: ip in p.owner ==> ip in homes && homes[ip] == NetAt(s.st, ip)
  {
    forall h | h in p.where ensures p.where[h] in p.owner {
      assert Backed(s, p, h, strict);
    }
  }

  function Prefix(hosts: seq<Host>, n: nat): set<Host>
    requires n <= |hosts|
  {
    set i | 0 <= i < n :: hosts[i]
  }

  lemma PrefixStep(hosts: seq<Host>, n: nat)
    requires n <= |hosts|
    ensures n < |hosts| ==> Prefix(hosts, n + 1) == Prefix(hosts, n) + {hosts[n]}
    ensures n > 0 ==> hosts[0] in Prefix(hosts, n) && hosts[n - 1] in Prefix(hosts, n)
    ensures n == 0 ==> Prefix(hosts, n) == {}
    ensures n == |hosts| ==> Prefix(hosts, n) == Elements(hosts)
  {
  }

  /** What n turns of the loop have done to plan p. */
  ghost predicate Placed(p: Plan, w: PlanWalk, u: Unit, next: Addr, n: nat)
    requires n <= |u.hosts|
  {
    && PlanOK(w.p)
    && (forall h :: h in p.where ==> h in w.p.where && w.p.where[h] == p.where[h])
    && (forall ip :: ip in p.owner ==> ip in w.p.owner && w.p.owner[ip] == p.owner[ip])
    && (forall h :: h in w.p.where <==> h in p.where || h in Prefix(u.hosts, n))
    && w.p.owner.Keys == p.owner.Keys + (if w.used then {next} else {})
    && (w.used ==> n > 0 && w.p.owner[next] == u.hosts[0])
    && (if n == 0 then !w.used && w.cur == next && w.p == p
        else (w.used <==> u.hosts[0] !in p.where) && u.hosts[n - 1] in w.p.where && w.cur == w.p.where[u.hosts[n - 1]])
  }

  lemma PlacedStep(p: Plan, w: PlanWalk, u: Unit, next: Addr, n: nat)
    requires PlanOK(p) && next !in p.owner && n < |u.hosts| && Placed(p, w, u, next, n)
    ensures Placed(p, PlacePlan(w, u.hosts[n], u.hosts[0], next), u, next, n + 1)
  {
    hide Prefix;
    PrefixStep(u.hosts, n);
  }

  lemma {:induction false} PlanHostsPlaced(p: Plan, u: Unit, next: Addr, n: nat)
    requires PlanOK(p) && next !in p.owner && n <= |u.hosts|
    ensures Placed(p, PlanHosts(p, u, next, n), u, next, n)
  {
    hide Placed;
    if n == 0 {
      PlacedNone(p, u, next);
    } else {
      PlanHostsPlaced(p, u, next, n - 1);
      PlacedStep(p, PlanHosts(p, u, next, n - 1), u, next, n - 1);
    }
  }

  lemma PlacedNone(p: Plan, u: Unit, next: Addr)
    requires PlanOK(p) && next !in p.owner
    ensures Placed(p, PlanWalk(p, next, false), u, next, 0)
  {
    PrefixStep(u.hosts, 0);
  }

  /** Where the hosts of the unit have been put is in the unit's network. */
  ghost predicate InUnitNet(homes: Homes, where: map<Host, Addr>, u: Unit, n: nat)
    requires n <= |u.hosts|
  {
    forall h :: h in Prefix(u.hosts, n) && h in where ==> where[h] in homes && homes[where[h]] == u.net
  }

  lemma {:induction false} PlanHostsInNet(homes: Homes, p: Plan, u: Unit, next: Addr, n: nat)
    requires PlanOK(p) && next !in p.owner && n <= |u.hosts|
    requires SameNet(homes, p.where, u) && next in homes && homes[next] == u.net
    ensures InUnitNet(homes, PlanHosts(p, u, next, n).p.where, u, n)
  {
    hide Placed, Prefix;
    PrefixStep(u.hosts, n);
    if n > 0 {
      var w := PlanHosts(p, u, next, n - 1);
      PrefixStep(u.hosts, n - 1);
      PlanHostsInNet(homes, p, u, next, n - 1);
      PlanHostsPlaced(p, u, next, n - 1);
      PlaceInNet(homes, p, w, u, next, n - 1);
    }
  }

  lemma PlaceInNet(homes: Homes, p: Plan, w: PlanWalk, u: Unit, next: Addr, n: nat)
    requires n < |u.hosts| && Placed(p, w, u, next, n) && InUnitNet(homes, w.p.where, u, n)
    requires SameNet(homes, p.where, u) && next in homes && homes[next] == u.net
    ensures InUnitNet(homes, PlacePlan(w, u.hosts[n], u.hosts[0], next).p.where, u, n + 1)
  {
    hide Prefix, PlanOK;
    PrefixStep(u.hosts, n);
    assert u.hosts[n] in u.hosts;
  }

  lemma IpOfPlan(st: StoreVal, where: map<Host, Addr>, h: Host)
    requires Filed(st, where) && "" !in st.records
    ensures IpOf(st, h) == if h in where then where[h] else ""
    ensures h in where ==> where[h] != ""
  {
    if h in where {
      assert At(st, where[h], h);
    }
  }

  lemma PlaceStored(w: Walk, pw: PlanWalk, homes: Homes, host: Host, first: Host, next: Addr, net: Net)
    requires InStep(w, pw, homes, next) && "" !in homes && host in pw.p.where
    ensures InStep(Place(w, host, first, next, net), PlacePlan(pw, host, first, next), homes, next)
  {
    hide Follows;
    NoEmptyAddress(Base(w, next), homes, pw.p);
    IpOfPlan(w.s.st, pw.p.where, host);
  }

  lemma NoEmptyAddress(s: Sys, homes: Homes, p: Plan)
    requires Settled(s, homes, p, false) && "" !in homes
    ensures "" !in s.st.records
  {
  }

  lemma PlaceFirst(w: Walk, pw: PlanWalk, homes: Homes, host: Host, next: Addr, net: Net)
    requires InStep(w, pw, homes, next) && "" !in homes && host !in pw.p.where
    requires !w.used && w.cur == next && next in homes && homes[next] == net
    ensures InStep(Place(w, host, host, next, net), PlacePlan(pw, host, host, next), homes, next)
  {
    hide Backed, Filed, AddRecord, Files;
    NoEmptyAddress(Base(w, next), homes, pw.p);
    IpOfPlan(w.s.st, pw.p.where, host);
    NotFiled(w.s.st, pw.p.where, host, next);
    AddRecordFiles(w.s.st, next, host, A, net);
    FileHost(Base(w, next), homes, pw.p, next, host, ARec(next, net.netview), net,
      AddRecord(w.s.st, next, host, A, net));
    assert w.s.reserved - {next} + {next} == w.s.reserved;
  }

  lemma NotFiled(st: StoreVal, where: map<Host, Addr>, h: Host, ip: Addr)
    requires Filed(st, where) && h !in where
    ensures !At(st, ip, h)
  {
  }

  lemma PlaceMember(w: Walk, pw: PlanWalk, homes: Homes, host: Host, first: Host, next: Addr, net: Net)
    requires InStep(w, pw, homes, next) && "" !in homes && host !in pw.p.where && host != first
    requires w.cur in pw.p.owner && w.cur in homes && homes[w.cur] == net
    ensures InStep(Place(w, host, first, next, net), PlacePlan(pw, host, first, next), homes, next)
  {
    hide Backed, Filed, AddRecord, Files;
    NoEmptyAddress(Base(w, next), homes, pw.p);
    IpOfPlan(w.s.st, pw.p.where, host);
    NotFiled(w.s.st, pw.p.where, host, w.cur);
    AddRecordFiles(w.s.st, w.cur, host, CNAME, net);
    FileHost(Base(w, next), homes, pw.p, w.cur, host, CRec(first, net.netview), net,
      AddRecord(w.s.st, w.cur, host, CNAME, net));
    assert Base(w, next).reserved + {w.cur} == Base(w, next).reserved;
  }

  /** One turn of the loop, in any of its three cases. */
  lemma PlaceInStep(homes: Homes, p: Plan, u: Unit, next: Addr, n: nat, w: Walk, pw: PlanWalk)
    requires n < |u.hosts| && PlanOK(p) && next !in p.owner && "" !in homes && next in homes && homes[next] == u.net
    requires InStep(w, pw, homes, next) && Placed(p, pw, u, next, n) && InUnitNet(homes, pw.p.where, u, n)
    ensures InStep(Place(w, u.hosts[n], u.hosts[0], next, u.net), PlacePlan(pw, u.hosts[n], u.hosts[0], next),
      homes, next)
  {
    hide InStep, Place, PlacePlan, Prefix;
    var host := u.hosts[n];
    InStepVars(w, pw, homes, next);
    PrefixStep(u.hosts, n);
    if host in pw.p.where {
      PlaceStored(w, pw, homes, host, u.hosts[0], next, u.net);
    } else if n == 0 {
      PlaceFirst(w, pw, homes, host, next, u.net);
    } else {
      PlaceMember(w, pw, homes, host, u.hosts[0], next, u.net);
    }
  }

  lemma InStepVars(w: Walk, pw: PlanWalk, homes: Homes, next: Addr)
    requires InStep(w, pw, homes, next)
    ensures w.cur == pw.cur && w.used == pw.used
  {
  }

  /** The loop over a unit's hosts does to the system what the plan says. */
  lemma {:induction false} PlaceHostsInStep(homes: Homes, s: Sys, p: Plan, u: Unit, next: Addr, n: nat)
    requires Settled(s, homes, p, false) && "" !in homes && n <= |u.hosts|
    requires Available(homes, s, Turn(u, next)) && SameNet(homes, p.where, u)
    ensures InStep(PlaceHosts(s, u, next, n), PlanHosts(p, u, next, n), homes, next)
  {
    hide Follows, Filed, Place, PlacePlan, Placed, InUnitNet, SameNet, PlanOK;
    SettledPlanOK(s, homes, p, false);
    if n == 0 {
      assert s.reserved + {next} - {next} == s.reserved;
    } else {
      PlaceHostsInStep(homes, s, p, u, next, n - 1);
      PlanHostsPlaced(p, u, next, n - 1);
      PlanHostsInNet(homes, p, u, next, n - 1);
      PlaceInStep(homes, p, u, next, n - 1, PlaceHosts(s, u, next, n - 1), PlanHosts(p, u, next, n - 1));
    }
  }

  /** A whole unit: the reservation is used for a fresh owner or given back. */
  lemma AddUnitSettles(homes: Homes, s: Sys, p: Plan, u: Unit, next: Addr)
    requires Settled(s, homes, p, false) && "" !in homes
    requires Available(homes, s, Turn(u, next)) && SameNet(homes, p.where, u)
    ensures Settled(AddUnit(homes, s, u, next), homes, PlanUnit(p, u, next), false)
  {
    hide Follows, Filed;
    PlaceHostsInStep(homes, s, p, u, next, |u.hosts|);
  }

  /** What becomes of the address reserved for a unit: it is kept exactly when the unit's first host was not
      stored, and then that host is its A host; otherwise it is given back.  No other reservation changes. */
  lemma UnitReservesIff(homes: Homes, s: Sys, p: Plan, u: Unit, next: Addr)
    requires Settled(s, homes, p, false) && "" !in homes
    requires Available(homes, s, Turn(u, next)) && SameNet(homes, p.where, u)
    ensures var s' := AddUnit(homes, s, u, next);
      && (next in s'.reserved <==> u.hosts != [] && !Stored(s.st, u.hosts[0]))
      && (next in s'.reserved ==> At(s'.st, next, u.hosts[0]) && s'.st.records[next][u.hosts[0]] == A)
      && s'.reserved - {next} == s.reserved
  {
    hide Follows, PlaceHosts, PlanHosts, AddUnit, Placed;
    AddUnitSettles(homes, s, p, u, next);
    SettledPlanOK(s, homes, p, false);
    PlanHostsPlaced(p, u, next, |u.hosts|);
    var s', p' := AddUnit(homes, s, u, next), PlanUnit(p, u, next);
    SettledPlanOK(s', homes, p', false);
    PlacedOwners(p, PlanHosts(p, u, next, |u.hosts|), u, next);
    if u.hosts != [] && u.hosts[0] in p.where {
      assert At(s.st, p.where[u.hosts[0]], u.hosts[0]);
    }
    if next in p'.owner {
      OwnerFiled(s', homes, p', next);
    }
  }

  lemma PlacedOwners(p: Plan, w: PlanWalk, u: Unit, next: Addr)
    requires Placed(p, w, u, next, |u.hosts|) && next !in p.owner
    ensures next in w.p.owner <==> u.hosts != [] && u.hosts[0] !in p.where
    ensures next in w.p.owner ==> w.p.owner[next] == u.hosts[0]
    ensures w.p.owner.Keys - {next} == p.owner.Keys
  {
    hide PlanOK, Prefix;
  }

  lemma OwnerFiled(s: Sys, homes: Homes, p: Plan, ip: Addr)
    requires Settled(s, homes, p, false) && ip in p.owner
    ensures At(s.st, ip, p.owner[ip]) && s.st.records[ip][p.owner[ip]] == A
  {
    assert Backed(s, p, p.owner[ip], false);
  }
}
