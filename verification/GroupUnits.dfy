/** The groups as the controller walks them: which hosts are to share an address, in which order. */
module GroupUnits {
  import opened Types
  import opened Reconcile
  import opened Addition
  import opened Pass

  /** The hosts of a list of specs, in order. */
  function AllOf(specs: seq<Spec>): seq<Host> {
    if specs == [] then [] else AllOf(specs[..|specs| - 1]) + specs[|specs| - 1].hosts
  }

  /** A named group is one unit; in the unnamed group every spec is one. */
  function Units(key: GroupKey, specs: seq<Spec>): seq<Unit> {
    if key.name != "" then [Unit(key.Network(), AllOf(specs))]
    else seq(|specs|, i requires 0 <= i < |specs| => Unit(Net(specs[i].netview, specs[i].cidr), specs[i].hosts))
  }

  function UnitsOf(groups: Groups, order: seq<GroupKey>): seq<Unit>
    requires forall k :: k in order ==> k in groups
  {
    if order == [] then []
    else UnitsOf(groups, order[..|order| - 1]) + Units(order[|order| - 1], groups[order[|order| - 1]])
  }

  /** The turns are the units of the groups, the groups taken in some order, each once. */
  ghost predicate Schedule(groups: Groups, turns: seq<Turn>) {
    exists order :: IsSchedule(groups, order, turns)
  }

  ghost predicate IsSchedule(groups: Groups, order: seq<GroupKey>, turns: seq<Turn>) {
    && Distinct(order) && Elements(order) == groups.Keys
    && Serves(turns, UnitsOf(groups, order))
  }

  ghost predicate Serves(turns: seq<Turn>, units: seq<Unit>) {
    |turns| == |units| && forall i :: 0 <= i < |turns| ==> turns[i].unit == units[i]
  }

  /** u is a unit of the group filed under key. */
  ghost predicate UnitIn(groups: Groups, key: GroupKey, i: nat, u: Unit) {
    key in groups && i < |Units(key, groups[key])| && Units(key, groups[key])[i] == u
  }

  ghost predicate IsUnit(groups: Groups, u: Unit) {
    exists key, i :: UnitIn(groups, key, i, u)
  }

  /** All hosts of the groups. */
  function GroupHosts(groups: Groups): set<Host> {
    set k, i, h | k in groups && 0 <= i < |groups[k]| && h in groups[k][i].hosts :: h
  }

  lemma {:induction false} AllOfHosts(specs: seq<Spec>)
    ensures forall h :: h in AllOf(specs) <==> exists i :: 0 <= i < |specs| && h in specs[i].hosts
  {
    if specs != [] {
      AllOfHosts(specs[..|specs| - 1]);
      var init := specs[..|specs| - 1];
      forall h ensures h in AllOf(specs) <==> exists i :: 0 <= i < |specs| && h in specs[i].hosts {
        if i :| 0 <= i < |specs| && h in specs[i].hosts {
          if i < |init| { assert h in init[i].hosts; }
        }
        if h in AllOf(init) {
          var i :| 0 <= i < |init| && h in init[i].hosts;
          assert h in specs[i].hosts;
        }
      }
    }
  }

  /** The hosts of specs[k] sit at their place in the concatenation. */
  lemma {:induction false} AllOfSlice(specs: seq<Spec>, k: nat)
    requires k < |specs|
    ensures |AllOf(specs[..k])| + |specs[k].hosts| <= |AllOf(specs)|
    ensures AllOf(specs)[|AllOf(specs[..k])|..|AllOf(specs[..k])| + |specs[k].hosts|] == specs[k].hosts
    ensures AllOf(specs[..k + 1]) == AllOf(specs[..k]) + specs[k].hosts
  {
    assert specs[..k + 1][..k] == specs[..k];
    if k == |specs| - 1 {
      assert specs[..k + 1] == specs;
    } else {
      var init := specs[..|specs| - 1];
      AllOfSlice(init, k);
      assert init[..k] == specs[..k] && init[..k + 1] == specs[..k + 1];
      var a, b := |AllOf(specs[..k])|, |AllOf(specs[..k])| + |specs[k].hosts|;
      assert AllOf(specs)[a..b] == AllOf(init)[a..b];
    }
  }

  /** A named group is one unit, which lists its specs' hosts one spec after the other: hosts i and j of the specs a
      and b are in that order when a stands before b, or in one spec when i is before j. */
  lemma UnitOrder(groups: Groups, key: GroupKey, u: Unit, a: nat, i: nat, b: nat, j: nat)
    requires key.name != "" && UnitIn(groups, key, 0, u) && a <= b < |groups[key]|
    requires i < |groups[key][a].hosts| && j < |groups[key][b].hosts| && (a == b ==> i < j)
    ensures |Units(key, groups[key])| == 1
    ensures exists m, n ::
      0 <= m < n < |u.hosts| && u.hosts[m] == groups[key][a].hosts[i] && u.hosts[n] == groups[key][b].hosts[j]
  {
    var specs := groups[key];
    AllOfSlice(specs, a);
    AllOfSlice(specs, b);
    var m, n := |AllOf(specs[..a])| + i, |AllOf(specs[..b])| + j;
    assert AllOf(specs)[m] == specs[a].hosts[i] by {
      assert AllOf(specs)[|AllOf(specs[..a])|..|AllOf(specs[..a])| + |specs[a].hosts|][i] == specs[a].hosts[i];
    }
    assert AllOf(specs)[n] == specs[b].hosts[j] by {
      assert AllOf(specs)[|AllOf(specs[..b])|..|AllOf(specs[..b])| + |specs[b].hosts|][j] == specs[b].hosts[j];
    }
    if a < b { AllOfLonger(specs, a + 1, b); }
  }

  lemma {:induction false} AllOfLonger(specs: seq<Spec>, a: nat, b: nat)
    requires a <= b <= |specs|
    ensures |AllOf(specs[..a])| <= |AllOf(specs[..b])|
  {
    if a < b {
      AllOfLonger(specs, a, b - 1);
      assert specs[..b][..b - 1] == specs[..b - 1];
    }
  }

  /** The first host of a named group is the first host of its first spec that has any. */
  lemma UnitFirst(groups: Groups, key: GroupKey, u: Unit, a: nat)
    requires key.name != "" && UnitIn(groups, key, 0, u) && a < |groups[key]|
    requires groups[key][a].hosts != [] && forall b :: 0 <= b < a ==> groups[key][b].hosts == []
    ensures u.hosts != [] && u.hosts[0] == groups[key][a].hosts[0]
  {
    var specs := groups[key];
    AllOfNothing(specs[..a]);
    AllOfSlice(specs, a);
    assert AllOf(specs)[0..0 + |specs[a].hosts|][0] == specs[a].hosts[0];
  }

  lemma {:induction false} AllOfNothing(specs: seq<Spec>)
    requires forall b :: 0 <= b < |specs| ==> specs[b].hosts == []
    ensures AllOf(specs) == []
  {
    if specs != [] { AllOfNothing(specs[..|specs| - 1]); }
  }

  lemma UnitHosts(groups: Groups, key: GroupKey, i: nat, u: Unit)
    requires UnitIn(groups, key, i, u)
    ensures forall h :: h in u.hosts ==> h in GroupHosts(groups)
  {
    AllOfHosts(groups[key]);
  }

  lemma HostHasUnit(groups: Groups, key: GroupKey, j: nat, h: Host)
    requires key in groups && j < |groups[key]| && h in groups[key][j].hosts
    ensures exists i, u :: UnitIn(groups, key, i, u) && h in u.hosts
  {
    AllOfHosts(groups[key]);
    if key.name != "" {
      assert UnitIn(groups, key, 0, Unit(key.Network(), AllOf(groups[key])));
    } else {
      assert UnitIn(groups, key, j, Units(key, groups[key])[j]);
    }
  }

  /** Every unit listed comes from one of the keys walked, and every unit of a key walked is listed. */
  lemma {:induction false} UnitsOfIn(groups: Groups, order: seq<GroupKey>, u: Unit)
    requires forall k :: k in order ==> k in groups
    ensures u in UnitsOf(groups, order) <==> exists key, i :: key in order && UnitIn(groups, key, i, u)
  {
    if order != [] {
      var init, key := order[..|order| - 1], order[|order| - 1];
      UnitsOfIn(groups, init, u);
      assert order == init + [key];
      if u in Units(key, groups[key]) {
        var i :| 0 <= i < |Units(key, groups[key])| && Units(key, groups[key])[i] == u;
        assert UnitIn(groups, key, i, u);
      }
    }
  }

  /** The turns of a schedule are the units of the groups: no more, no fewer. */
  lemma ScheduleUnits(groups: Groups, turns: seq<Turn>)
    requires Schedule(groups, turns)
    ensures forall t :: t in turns ==> IsUnit(groups, t.unit)
    ensures forall u :: IsUnit(groups, u) ==> exists t :: t in turns && t.unit == u
  {
    hide UnitIn;
    var order :| IsSchedule(groups, order, turns);
    forall t | t in turns ensures IsUnit(groups, t.unit) {
      var i :| 0 <= i < |turns| && turns[i] == t;
      assert t.unit in UnitsOf(groups, order);
      UnitsOfIn(groups, order, t.unit);
    }
    forall u | IsUnit(groups, u) ensures exists t :: t in turns && t.unit == u {
      var key, i :| UnitIn(groups, key, i, u);
      UnitInKey(groups, key, i, u);
      assert key in Elements(order);
      UnitsOfIn(groups, order, u);
      var j :| 0 <= j < |turns| && UnitsOf(groups, order)[j] == u;
      assert turns[j] in turns;
    }
  }

  lemma UnitInKey(groups: Groups, key: GroupKey, i: nat, u: Unit)
    requires UnitIn(groups, key, i, u)
    ensures key in groups
  {
  }

  lemma ScheduleHosts(groups: Groups, turns: seq<Turn>)
    requires Schedule(groups, turns)
    ensures HostsOf(turns) == GroupHosts(groups)
  {
    hide Schedule, Units, AllOf;
    ScheduleUnits(groups, turns);
    forall h | h in HostsOf(turns) ensures h in GroupHosts(groups) {
      var t :| t in turns && h in t.unit.hosts;
      var key, i :| UnitIn(groups, key, i, t.unit);
      UnitHosts(groups, key, i, t.unit);
    }
    forall h | h in GroupHosts(groups) ensures h in HostsOf(turns) {
      var key, j :| key in groups && 0 <= j < |groups[key]| && h in groups[key][j].hosts;
      HostHasUnit(groups, key, j, h);
      var i, u :| UnitIn(groups, key, i, u) && h in u.hosts;
      assert IsUnit(groups, u);
      var t :| t in turns && t.unit == u;
    }
  }

  /** Each host of the groups that has an address has one in the network its group is for: the one the group's key
      names, and in the unnamed group the one its spec names. */
  ghost predicate OwnNets(homes: Homes, where: map<Host, Addr>, groups: Groups) {
    forall k, i, h :: k in groups && 0 <= i < |groups[k]| && h in groups[k][i].hosts && h in where ==>
      where[h] in homes && homes[where[h]] ==
        if k.name != "" then Net(k.netview, k.cidr) else Net(groups[k][i].netview, groups[k][i].cidr)
  }

  /** Specs that share a host are for one network. */
  ghost predicate OneNetEach(groups: Groups) {
    forall k, i, k', i', h ::
      k in groups && 0 <= i < |groups[k]| && h in groups[k][i].hosts &&
      k' in groups && 0 <= i' < |groups[k']| && h in groups[k'][i'].hosts ==>
        (if k.name != "" then Net(k.netview, k.cidr) else Net(groups[k][i].netview, groups[k][i].cidr)) ==
        (if k'.name != "" then Net(k'.netview, k'.cidr) else Net(groups[k'][i'].netview, groups[k'][i'].cidr))
  }

  /** Stored hosts of the groups, and specs that share a host, agree on the network: nobody changes a
      resource's netview or cidr while it is managed. */
  ghost predicate GroupNets(homes: Homes, where: map<Host, Addr>, groups: Groups) {
    OwnNets(homes, where, groups) && OneNetEach(groups)
  }

  /** The spec a unit has a host from, and the network of both. */
  lemma UnitSpec(groups: Groups, u: Unit, h: Host) returns (k: GroupKey, i: nat)
    requires IsUnit(groups, u) && h in u.hosts
    ensures k in groups && i < |groups[k]| && h in groups[k][i].hosts
    ensures u.net == if k.name != "" then Net(k.netview, k.cidr) else Net(groups[k][i].netview, groups[k][i].cidr)
  {
    var j;
    k, j :| UnitIn(groups, k, j, u);
    AllOfHosts(groups[k]);
    if k.name != "" {
      i :| 0 <= i < |groups[k]| && h in groups[k][i].hosts;
    } else {
      i := j;
    }
  }

  lemma GroupNetsUnits(homes: Homes, where: map<Host, Addr>, groups: Groups, u: Unit, u': Unit)
    requires GroupNets(homes, where, groups) && IsUnit(groups, u) && IsUnit(groups, u')
    ensures SameNet(homes, where, u) && forall h :: h in u.hosts && h in u'.hosts ==> u.net == u'.net
  {
    hide IsUnit;
    forall h | h in u.hosts
      ensures h in where ==> where[h] in homes && homes[where[h]] == u.net
      ensures h in u'.hosts ==> u.net == u'.net
    {
      var k, i := UnitSpec(groups, u, h);
      if h in u'.hosts { var k', i' := UnitSpec(groups, u', h); }
    }
  }

  lemma ScheduleNets(homes: Homes, where: map<Host, Addr>, groups: Groups, turns: seq<Turn>)
    requires GroupNets(homes, where, groups) && forall t :: t in turns ==> IsUnit(groups, t.unit)
    ensures NetsAgree(homes, where, turns)
  {
    hide IsUnit, SameNet, GroupNets;
    forall t, t' | t in turns && t' in turns
      ensures SameNet(homes, where, t.unit)
      ensures forall h :: h in t.unit.hosts && h in t'.unit.hosts ==> t.unit.net == t'.unit.net
    {
      GroupNetsUnits(homes, where, groups, t.unit, t'.unit);
    }
  }

  /** Every spec is in a unit of its network. */
  lemma SpecUnit(groups: Groups, k: GroupKey, i: nat) returns (u: Unit)
    requires k in groups && i < |groups[k]|
    ensures IsUnit(groups, u) && forall h :: h in groups[k][i].hosts ==> h in u.hosts
    ensures u.net == if k.name != "" then Net(k.netview, k.cidr) else Net(groups[k][i].netview, groups[k][i].cidr)
  {
    AllOfHosts(groups[k]);
    u := if k.name != "" then Units(k, groups[k])[0] else Units(k, groups[k])[i];
    assert UnitIn(groups, k, if k.name != "" then 0 else i, u);
  }

  /** When the units' hosts are in the units' networks, each host is in the network its group is for. */
  lemma UnitsOwnNets(homes: Homes, where: map<Host, Addr>, groups: Groups)
    requires forall u :: IsUnit(groups, u) ==> SameNet(homes, where, u)
    ensures OwnNets(homes, where, groups)
  {
    hide IsUnit;
    forall k, i, h | k in groups && 0 <= i < |groups[k]| && h in groups[k][i].hosts && h in where
      ensures where[h] in homes && homes[where[h]] ==
        if k.name != "" then Net(k.netview, k.cidr) else Net(groups[k][i].netview, groups[k][i].cidr)
    {
      var u := SpecUnit(groups, k, i);
      assert SameNet(homes, where, u);
    }
  }

  // ---------- the success assumption on allocation ----------

  function FreeIn(homes: Homes, reserved: set<Addr>, net: Net): set<Addr> {
    set a | a in homes && homes[a] == net && a !in reserved
  }

  /** Every network the groups name has at least n free addresses: those of the named groups' keys, and those of
      the specs of unnamed groups. */
  ghost predicate Roomy(homes: Homes, reserved: set<Addr>, groups: Groups, n: nat) {
    && (forall k :: k in groups && k.name != "" ==> |FreeIn(homes, reserved, Net(k.netview, k.cidr))| >= n)
    && (forall k, i :: k in groups && k.name == "" && 0 <= i < |groups[k]| ==>
          |FreeIn(homes, reserved, Net(groups[k][i].netview, groups[k][i].cidr))| >= n)
  }

  lemma RoomForUnit(homes: Homes, reserved: set<Addr>, groups: Groups, n: nat, u: Unit)
    requires Roomy(homes, reserved, groups, n) && IsUnit(groups, u)
    ensures |FreeIn(homes, reserved, u.net)| >= n
  {
    var k, i :| UnitIn(groups, k, i, u);
  }

  /** The units of the groups, told apart by key and position. */
  function UnitIds(groups: Groups): set<(GroupKey, nat)> {
    set k, i: nat | k in groups && i < |Units(k, groups[k])| :: (k, i)
  }

  lemma SmallerSet<T>(a: set<T>, b: set<T>)
    requires a <= b
    ensures |a| <= |b|
  {
    assert b == a + (b - a);
  }

  lemma {:induction false} PlaceHostsReserved(s: Sys, u: Unit, next: Addr, n: nat)
    requires n <= |u.hosts|
    ensures PlaceHosts(s, u, next, n).s.reserved == s.reserved + {next}
  {
    if n > 0 {
      PlaceHostsReserved(s, u, next, n - 1);
    }
  }

  /** A unit takes at most one address. */
  lemma RoomAfterUnit(homes: Homes, s: Sys, u: Unit, next: Addr, groups: Groups, n: nat)
    requires Roomy(homes, s.reserved, groups, n + 1)
    ensures Roomy(homes, AddUnit(homes, s, u, next).reserved, groups, n)
  {
    hide PlaceHosts;
    PlaceHostsReserved(s, u, next, |u.hosts|);
    var reserved := AddUnit(homes, s, u, next).reserved;
    forall net | |FreeIn(homes, s.reserved, net)| >= n + 1 ensures |FreeIn(homes, reserved, net)| >= n {
      var before, after := FreeIn(homes, s.reserved, net), FreeIn(homes, reserved, net);
      assert before - {next} <= after;
      SmallerSet(before - {next}, after);
    }
  }

  lemma RoomIsFree(homes: Homes, reserved: set<Addr>, groups: Groups, n: nat, u: Unit)
    requires Roomy(homes, reserved, groups, n) && n > 0 && IsUnit(groups, u)
    ensures exists a :: a in homes && homes[a] == u.net && a !in reserved
  {
    hide IsUnit;
    RoomForUnit(homes, reserved, groups, n, u);
    var free := FreeIn(homes, reserved, u.net);
    assert free != {};
    var a :| a in free;
  }

  // ---------- a pass under way ----------

  /** The turns taken so far are of units of the groups, each with an address that was free. */
  ghost predicate Underway(homes: Homes, s: Sys, p: Plan, groups: Groups, turns: seq<Turn>) {
    && Settled(s, homes, p, false) && "" !in homes && GroupNets(homes, p.where, groups)
    && AllAvailable(homes, s, turns) && forall t :: t in turns ==> IsUnit(groups, t.unit)
  }

  lemma NextUnit(homes: Homes, s: Sys, p: Plan, groups: Groups, turns: seq<Turn>, u: Unit)
    requires Underway(homes, s, p, groups, turns) && IsUnit(groups, u)
    ensures Settled(AddPhase(homes, s, turns), homes, PlanPhase(p, turns), false)
    ensures SameNet(homes, PlanPhase(p, turns).where, u)
  {
    hide Settled, GroupNets, IsUnit, AddPhase, PlanPhase, SameNet;
    var all := turns + [Turn(u, "")];
    ScheduleNets(homes, p.where, groups, all);
    AddPhaseSettles(homes, s, p, turns, all);
    NetsStillAgree(homes, p, PlanPhase(p, turns), turns, all);
    assert all[|turns|] in all;
  }

  lemma TurnAdded(homes: Homes, s: Sys, p: Plan, groups: Groups, turns: seq<Turn>, t: Turn)
    requires Underway(homes, s, p, groups, turns) && IsUnit(groups, t.unit)
    requires Available(homes, AddPhase(homes, s, turns), t)
    ensures Underway(homes, s, p, groups, turns + [t])
    ensures AddPhase(homes, s, turns + [t]) == AddUnit(homes, AddPhase(homes, s, turns), t.unit, t.next)
  {
    hide Settled, GroupNets, IsUnit, AddUnit;
    assert (turns + [t])[..|turns|] == turns;
  }

  lemma NothingUnderway(homes: Homes, s: Sys, p: Plan, groups: Groups)
    requires Settled(s, homes, p, false) && "" !in homes && GroupNets(homes, p.where, groups)
    ensures Underway(homes, s, p, groups, []) && AddPhase(homes, s, []) == s
  {
  }

  lemma AllOfOne(spec: Spec)
    ensures AllOf([spec]) == spec.hosts
  {
    assert [spec][..0] == [];
    assert AllOf([]) + spec.hosts == spec.hosts;
  }

  lemma UnitIsUnit(groups: Groups, key: GroupKey, i: nat)
    requires key in groups && i < |Units(key, groups[key])|
    ensures IsUnit(groups, Units(key, groups[key])[i])
  {
    assert UnitIn(groups, key, i, Units(key, groups[key])[i]);
  }

  lemma ServesMore(turns: seq<Turn>, units: seq<Unit>, t: Turn, u: Unit)
    requires Serves(turns, units) && t.unit == u
    ensures Serves(turns + [t], units + [u])
  {
  }

  lemma ServesConcat(turns: seq<Turn>, units: seq<Unit>, turns': seq<Turn>, units': seq<Unit>)
    requires Serves(turns, units) && Serves(turns', units')
    ensures Serves(turns + turns', units + units')
  {
  }

  lemma UnitsOfSnoc(groups: Groups, order: seq<GroupKey>, key: GroupKey)
    requires forall k :: k in order + [key] ==> k in groups
    ensures forall k :: k in order ==> k in groups
    ensures key in groups && UnitsOf(groups, order + [key]) == UnitsOf(groups, order) + Units(key, groups[key])
  {
    assert forall k :: k in order ==> k in order + [key];
    assert key in order + [key];
    assert (order + [key])[..|order|] == order;
  }
}
