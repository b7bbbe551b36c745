/** The address written back to each resource. */
module Annotation {
  import opened Types
  import opened StoreSpec
  import opened Reconcile
  import opened Addition
  import opened Attachment
  import opened Coherence
  import opened Removal
  import opened Pass
  import opened Sharing
  import opened GroupUnits
  import opened GroupSpec
  import opened Orchestration

  predicate KeyIn(specs: seq<Spec>, key: ResourceKey) {
    exists i :: 0 <= i < |specs| && specs[i].key == key
  }

  lemma KeyInMore(specs: seq<Spec>, i: nat)
    requires i < |specs|
    ensures forall key :: KeyIn(specs[..i + 1], key) <==> KeyIn(specs[..i], key) || key == specs[i].key
  {
    assert specs[..i + 1] == specs[..i] + [specs[i]];
    assert specs[..i + 1][i] == specs[i];
    forall key | KeyIn(specs[..i], key) ensures KeyIn(specs[..i + 1], key) {
      var j :| 0 <= j < i && specs[..i][j].key == key;
      assert specs[..i + 1][j].key == key;
    }
  }

  ghost predicate AllAt(st: StoreVal, ip: Addr, s: Spec) {
    forall h :: h in s.hosts ==> At(st, ip, h)
  }

  /** One spec per resource; a spec with hosts has all of them at one address of the store. */
  ghost predicate SpecsTogether(st: StoreVal, groups: Groups) {
    OneSpecEach(groups) && forall gk, s :: In(groups, gk, s) && s.hosts != [] ==> exists ip :: AllAt(st, ip, s)
  }

  /** Every resource with hosts has been given the one address all its hosts have. */
  ghost predicate Annotated(st: StoreVal, groups: Groups, annotations: map<ResourceKey, Addr>) {
    forall gk, s :: In(groups, gk, s) && s.hosts != [] ==> s.key in annotations && AllAt(st, annotations[s.key], s)
  }

  /** The specs selected for an address are those whose first host is there, and nobody else's key. */
  lemma AnnotatedOnce(st: StoreVal, groups: Groups, gk: GroupKey, s: Spec, x: Addr, ip: Addr, hosts: seq<Host>,
      specs: seq<Spec>)
    requires HostOnce(st) && OneSpecEach(groups) && In(groups, gk, s) && s.hosts != [] && At(st, x, s.hosts[0])
    requires forall h :: h in hosts <==> At(st, ip, h)
    requires forall t :: t in specs <==> exists g :: In(groups, g, t) && FirstIn(t, hosts)
    ensures KeyIn(specs, s.key) <==> x == ip
  {
    if x == ip {
      assert FirstIn(s, hosts);
      var i :| 0 <= i < |specs| && specs[i] == s;
    }
    if KeyIn(specs, s.key) {
      var i :| 0 <= i < |specs| && specs[i].key == s.key;
      assert specs[i] in specs;
      var g :| In(groups, g, specs[i]) && FirstIn(specs[i], hosts);
    }
  }

  /** Every resource whose first host is at one of the addresses done is annotated with that address, and no other
      resource is annotated. */
  ghost predicate Written(st: StoreVal, groups: Groups, done: set<Addr>, annotations: map<ResourceKey, Addr>) {
    && (forall gk, s, ip :: In(groups, gk, s) && s.hosts != [] && At(st, ip, s.hosts[0]) && ip in done ==>
          s.key in annotations && annotations[s.key] == ip)
    && (forall key :: key in annotations ==> WrittenFor(st, groups, key, annotations[key]))
  }

  /** Some spec of the resource has its first host at the address. */
  ghost predicate WrittenFor(st: StoreVal, groups: Groups, key: ResourceKey, ip: Addr) {
    exists gk, s :: In(groups, gk, s) && s.key == key && s.hosts != [] && At(st, ip, s.hosts[0])
  }

  lemma NothingWritten(st: StoreVal, groups: Groups)
    ensures Written(st, groups, {}, map[])
  {
  }

  lemma HostsListed(st: StoreVal, ip: Addr, hosts: seq<Host>)
    requires ip in st.records && Elements(hosts) == st.records[ip].Keys
    ensures forall h :: h in hosts <==> At(st, ip, h)
  {
    assert forall h :: h in hosts <==> h in Elements(hosts);
  }

  /** One more address. */
  lemma WrittenMore(st: StoreVal, groups: Groups, done: set<Addr>, ip: Addr, hosts: seq<Host>, specs: seq<Spec>,
      was: map<ResourceKey, Addr>, now: map<ResourceKey, Addr>)
    requires HostOnce(st) && OneSpecEach(groups) && Written(st, groups, done, was)
    requires forall h :: h in hosts <==> At(st, ip, h)
    requires forall t :: t in specs <==> exists g :: In(groups, g, t) && FirstIn(t, hosts)
    requires forall key :: key in now <==> key in was || KeyIn(specs, key)
    requires forall key :: key in now ==> now[key] == if KeyIn(specs, key) then ip else was[key]
    ensures Written(st, groups, done + {ip}, now)
  {
    hide HostOnce, OneSpecEach, FirstIn, KeyIn, WrittenFor;
    forall gk, s, x | In(groups, gk, s) && s.hosts != [] && At(st, x, s.hosts[0]) && x in done + {ip}
      ensures s.key in now && now[s.key] == x
    {
      AnnotatedOnce(st, groups, gk, s, x, ip, hosts, specs);
    }
    forall key | key in now ensures WrittenFor(st, groups, key, now[key]) {
      if KeyIn(specs, key) { SelectedFor(st, groups, ip, hosts, specs, key); }
    }
  }

  lemma SelectedFor(st: StoreVal, groups: Groups, ip: Addr, hosts: seq<Host>, specs: seq<Spec>, key: ResourceKey)
    requires forall h :: h in hosts <==> At(st, ip, h)
    requires forall t :: t in specs <==> exists g :: In(groups, g, t) && FirstIn(t, hosts)
    requires KeyIn(specs, key)
    ensures WrittenFor(st, groups, key, ip)
  {
    var i :| 0 <= i < |specs| && specs[i].key == key;
    assert specs[i] in specs;
    var g :| In(groups, g, specs[i]) && FirstIn(specs[i], hosts);
  }

  /** A resource is annotated exactly when the first host of its spec is stored, with that host's address. */
  ghost predicate FirstAnnotated(st: StoreVal, groups: Groups, annotations: map<ResourceKey, Addr>) {
    && (forall gk, s, ip :: In(groups, gk, s) && s.hosts != [] && At(st, ip, s.hosts[0]) ==>
          s.key in annotations && annotations[s.key] == ip)
    && (forall key :: key in annotations ==> WrittenFor(st, groups, key, annotations[key]))
  }

  lemma AllWritten(st: StoreVal, groups: Groups, annotations: map<ResourceKey, Addr>)
    requires Written(st, groups, st.records.Keys, annotations)
    ensures FirstAnnotated(st, groups, annotations)
    ensures SpecsTogether(st, groups) ==> Annotated(st, groups, annotations)
  {
    hide WrittenFor, OneSpecEach;
    if SpecsTogether(st, groups) {
      forall gk, s | In(groups, gk, s) && s.hosts != []
        ensures s.key in annotations && AllAt(st, annotations[s.key], s)
      {
        var ip :| AllAt(st, ip, s);
        assert At(st, ip, s.hosts[0]);
      }
    }
  }

  /** A spec's hosts are all in one unit of the groups. */
  lemma SpecInUnit(groups: Groups, gk: GroupKey, s: Spec)
    requires In(groups, gk, s)
    ensures exists u :: IsUnit(groups, u) && forall h :: h in s.hosts ==> h in u.hosts
  {
    var j :| 0 <= j < |groups[gk]| && groups[gk][j] == s;
    AllOfHosts(groups[gk]);
    if gk.name != "" {
      assert UnitIn(groups, gk, 0, Unit(gk.Network(), AllOf(groups[gk])));
      assert IsUnit(groups, Unit(gk.Network(), AllOf(groups[gk])));
    } else {
      assert UnitIn(groups, gk, j, Units(gk, groups[gk])[j]);
      assert IsUnit(groups, Units(gk, groups[gk])[j]);
    }
  }

  /** A store that holds the hosts of the groups and shares addresses by unit gives every resource one
      address for all its hosts. */
  lemma SharedSpecsTogether(st: StoreVal, groups: Groups, turns: seq<Turn>)
    requires HostOnce(st) && Schedule(groups, turns) && SharedByUnit(st, turns)
    requires forall h :: h in GroupHosts(groups) ==> Stored(st, h)
    requires OneSpecEach(groups)
    ensures SpecsTogether(st, groups)
  {
    hide SharedByUnit, Schedule, GroupHosts, HostsOf, IsUnit, Stored, IpOf;
    ScheduleHosts(groups, turns);
    ScheduleUnits(groups, turns);
    forall gk, s | In(groups, gk, s) && s.hosts != [] ensures exists ip :: AllAt(st, ip, s) {
      SpecInUnit(groups, gk, s);
      var u :| IsUnit(groups, u) && forall h :: h in s.hosts ==> h in u.hosts;
      var t :| t in turns && t.unit == u;
      FirstHostDecides(st, turns, t, s.hosts, IpOf(st, s.hosts[0]));
      assert AllAt(st, IpOf(st, s.hosts[0]), s);
    }
  }

  // ---------- the groups instead of the turns: no order is left in these statements ----------

  ghost predicate SameUnit(groups: Groups, h: Host, k: Host) {
    exists u :: IsUnit(groups, u) && h in u.hosts && k in u.hosts
  }

  /** Two hosts are in the same unit exactly when a named group has both, or one spec of an unnamed group. */
  lemma SameUnitIff(groups: Groups, h: Host, k: Host)
    ensures SameUnit(groups, h, k) <==> exists gk, i, j :: SameGroup(groups, gk, i, j, h, k)
  {
    hide IsUnit;
    if SameUnit(groups, h, k) {
      var u :| IsUnit(groups, u) && h in u.hosts && k in u.hosts;
      InGroup(groups, u, h, k);
    }
    if gk, i, j :| SameGroup(groups, gk, i, j, h, k) {
      var u := SpecUnit(groups, gk, i);
      OneUnit(groups, gk, i, j, h, k);
    }
  }

  ghost predicate SameGroup(groups: Groups, gk: GroupKey, i: nat, j: nat, h: Host, k: Host) {
    && gk in groups && i < |groups[gk]| && j < |groups[gk]|
    && h in groups[gk][i].hosts && k in groups[gk][j].hosts && (gk.name != "" || i == j)
  }

  lemma InGroup(groups: Groups, u: Unit, h: Host, k: Host)
    requires IsUnit(groups, u) && h in u.hosts && k in u.hosts
    ensures exists gk, i, j :: SameGroup(groups, gk, i, j, h, k)
  {
    var gk, n :| UnitIn(groups, gk, n, u);
    AllOfHosts(groups[gk]);
    if gk.name != "" {
      var i :| 0 <= i < |groups[gk]| && h in groups[gk][i].hosts;
      var j :| 0 <= j < |groups[gk]| && k in groups[gk][j].hosts;
      assert SameGroup(groups, gk, i, j, h, k);
    } else {
      assert SameGroup(groups, gk, n, n, h, k);
    }
  }

  lemma OneUnit(groups: Groups, gk: GroupKey, i: nat, j: nat, h: Host, k: Host)
    requires SameGroup(groups, gk, i, j, h, k)
    ensures SameUnit(groups, h, k)
  {
    AllOfHosts(groups[gk]);
    var n := if gk.name != "" then 0 else i;
    var u := Units(gk, groups[gk])[n];
    assert UnitIn(groups, gk, n, u);
    assert IsUnit(groups, u);
  }

  /** Stored hosts of the groups have the same address exactly when they are in the same unit. */
  ghost predicate SharedByGroups(st: StoreVal, groups: Groups) {
    forall h, k :: h in GroupHosts(groups) && k in GroupHosts(groups) && Stored(st, h) && Stored(st, k) ==>
      (IpOf(st, h) == IpOf(st, k) <==> SameUnit(groups, h, k))
  }

  /** Every unit has its first host stored, or none of its hosts. */
  ghost predicate FirstsStored(st: StoreVal, groups: Groups) {
    forall u :: IsUnit(groups, u) ==> FirstOrNoneStored(st, u)
  }

  /** No host is in two units. */
  ghost predicate DisjointGroups(groups: Groups) {
    forall k, i, u, k', i', u', h ::
      UnitIn(groups, k, i, u) && UnitIn(groups, k', i', u') && h in u.hosts && h in u'.hosts ==> k == k' && i == i'
  }

  ghost predicate DisjointList(units: seq<Unit>) {
    forall i, j, h :: 0 <= i < j < |units| && h in units[i].hosts ==> h !in units[j].hosts
  }

  lemma {:induction false} UnitsDisjoint(groups: Groups, order: seq<GroupKey>)
    requires DisjointGroups(groups) && Distinct(order) && forall k :: k in order ==> k in groups
    ensures DisjointList(UnitsOf(groups, order))
  {
    hide Units;
    if order != [] {
      var init, key := order[..|order| - 1], order[|order| - 1];
      SnocElements(order);
      UnitsDisjoint(groups, init);
      var before, last := UnitsOf(groups, init), Units(key, groups[key]);
      assert forall j :: 0 <= j < |last| ==> UnitIn(groups, key, j, last[j]);
      forall i, h | 0 <= i < |before| && h in before[i].hosts
        ensures forall j :: 0 <= j < |last| ==> h !in last[j].hosts
      {
        UnitsOfIn(groups, init, before[i]);
        var k, n :| k in init && UnitIn(groups, k, n, before[i]);
        assert k in Elements(init);
      }
    }
  }

  lemma ScheduleDisjoint(groups: Groups, turns: seq<Turn>)
    requires Schedule(groups, turns) && DisjointGroups(groups)
    ensures DisjointUnits(turns)
  {
    hide DisjointGroups, UnitsOf;
    var order :| IsSchedule(groups, order, turns);
    UnitsDisjoint(groups, order);
  }

  lemma SameUnitTurn(groups: Groups, turns: seq<Turn>, h: Host, k: Host)
    requires Schedule(groups, turns)
    ensures InOneUnit(turns, h, k) <==> SameUnit(groups, h, k)
  {
    hide Schedule, IsUnit;
    ScheduleUnits(groups, turns);
    if InOneUnit(turns, h, k) {
      var t :| t in turns && h in t.unit.hosts && k in t.unit.hosts;
      assert IsUnit(groups, t.unit);
    }
    if SameUnit(groups, h, k) {
      var u :| IsUnit(groups, u) && h in u.hosts && k in u.hosts;
      var t :| t in turns && t.unit == u;
    }
  }

  lemma SharedBySchedule(st: StoreVal, groups: Groups, turns: seq<Turn>)
    requires Schedule(groups, turns)
    ensures SharedByUnit(st, turns) <==> SharedByGroups(st, groups)
  {
    hide Schedule, HostsOf, GroupHosts, InOneUnit, SameUnit, Stored, IpOf;
    ScheduleHosts(groups, turns);
    forall h, k ensures InOneUnit(turns, h, k) <==> SameUnit(groups, h, k) {
      SameUnitTurn(groups, turns, h, k);
    }
  }

  lemma FirstsBySchedule(st: StoreVal, groups: Groups, turns: seq<Turn>)
    requires Schedule(groups, turns)
    ensures FirstsStored(st, groups) <==> forall t :: t in turns ==> FirstOrNoneStored(st, t.unit)
  {
    hide Schedule, FirstOrNoneStored, IsUnit;
    ScheduleUnits(groups, turns);
  }

  /** Sharing after a pass over disjoint groups, in the terms of groups and stores only and so the same for
      every order: from a store that shares addresses by unit, the final store does too if and only if each
      unit's first host was stored or none of its hosts was. */
  lemma PassSharesByGroupsIff(homes: Homes, s: Sys, p: Plan, groups: Groups, turns: seq<Turn>, visits: seq<Visit>)
    requires Settled(s, homes, p, false) && "" !in homes && GroupNets(homes, p.where, groups)
    requires Schedule(groups, turns) && Possible(homes, s, turns, visits) && DisjointGroups(groups)
    requires SharedByGroups(s.st, groups)
    ensures SharedByGroups(RunPass(homes, s, turns, visits).st, groups) <==> FirstsStored(s.st, groups)
  {
    hide Settled, GroupNets, Schedule, Possible, DisjointGroups, SharedByGroups, SharedByUnit, RunPass, FirstsStored,
      FirstOrNoneStored, NetsAgree, DisjointUnits, IsUnit;
    ScheduleUnits(groups, turns);
    ScheduleNets(homes, p.where, groups, turns);
    ScheduleDisjoint(groups, turns);
    SharedBySchedule(s.st, groups, turns);
    SharedBySchedule(RunPass(homes, s, turns, visits).st, groups, turns);
    FirstsBySchedule(s.st, groups, turns);
    PassSharesIff(homes, s, p, turns, visits);
  }

  /** Every unit of the groups fits the store. */
  ghost predicate AllFitting(p: Plan, groups: Groups) {
    forall u :: IsUnit(groups, u) ==> Fitting(p, u, GroupHosts(groups))
  }

  /** A pass keeps a coherent system coherent if and only if every unit fits the store its turn finds; when no
      two units share a host, if and only if every unit fits the store before the pass, in whatever order. */
  lemma PassCoherentByGroupsIff(homes: Homes, s: Sys, p: Plan, groups: Groups, turns: seq<Turn>, visits: seq<Visit>)
    requires Settled(s, homes, p, true) && "" !in homes && GroupNets(homes, p.where, groups)
    requires Schedule(groups, turns) && Possible(homes, s, turns, visits)
    ensures Coherent(RunPass(homes, s, turns, visits), homes) <==> FittingInTurn(p, turns, GroupHosts(groups))
    ensures DisjointGroups(groups) ==> (FittingInTurn(p, turns, GroupHosts(groups)) <==> AllFitting(p, groups))
  {
    hide Settled, GroupNets, Schedule, Possible, DisjointGroups, RunPass, NetsAgree, DisjointUnits, IsUnit, Fitting,
      FittingInTurn, Coherent, GroupHosts, HostsOf;
    ScheduleUnits(groups, turns);
    ScheduleHosts(groups, turns);
    ScheduleNets(homes, p.where, groups, turns);
    if DisjointGroups(groups) { ScheduleDisjoint(groups, turns); }
    PassKeepsCoherentIff(homes, s, p, turns, visits);
  }

  /** Every unit of the groups has all its hosts on one address. */
  ghost predicate UnitsTogether(st: StoreVal, groups: Groups) {
    forall u :: IsUnit(groups, u) ==> OnOneAddress(st, u)
  }

  /** In the terms of the groups: a named group has one address for all hosts of all its specs, an unnamed one an
      address for each spec. */
  lemma UnitsTogetherMeans(st: StoreVal, groups: Groups)
    requires UnitsTogether(st, groups)
    ensures forall gk :: gk in groups && gk.name != "" ==> exists ip :: AllSpecsAt(st, ip, groups[gk])
    ensures forall gk, i :: gk in groups && gk.name == "" && 0 <= i < |groups[gk]| ==>
      OnOneAddress(st, Unit(Net(groups[gk][i].netview, groups[gk][i].cidr), groups[gk][i].hosts))
  {
    hide OnOneAddress;
    forall gk | gk in groups && gk.name != "" ensures exists ip :: AllSpecsAt(st, ip, groups[gk]) {
      var u := Units(gk, groups[gk])[0];
      assert UnitIn(groups, gk, 0, u);
      assert IsUnit(groups, u);
      AllOfHosts(groups[gk]);
      GroupTogether(st, groups[gk], u);
    }
    forall gk, i | gk in groups && gk.name == "" && 0 <= i < |groups[gk]|
      ensures OnOneAddress(st, Unit(Net(groups[gk][i].netview, groups[gk][i].cidr), groups[gk][i].hosts))
    {
      assert UnitIn(groups, gk, i, Units(gk, groups[gk])[i]);
      assert IsUnit(groups, Units(gk, groups[gk])[i]);
    }
  }

  lemma GroupTogether(st: StoreVal, specs: seq<Spec>, u: Unit)
    requires OnOneAddress(st, u) && forall h :: h in u.hosts <==> exists i :: 0 <= i < |specs| && h in specs[i].hosts
    ensures exists ip :: AllSpecsAt(st, ip, specs)
  {
    var ip :| AllStoredAt(st, ip, u.hosts);
    forall i, h | 0 <= i < |specs| && h in specs[i].hosts ensures At(st, ip, h) {
      assert h in u.hosts;
    }
    assert AllSpecsAt(st, ip, specs);
  }

  ghost predicate AllSpecsAt(st: StoreVal, ip: Addr, specs: seq<Spec>) {
    forall i, h :: 0 <= i < |specs| && h in specs[i].hosts ==> At(st, ip, h)
  }

  /** The same for each resource. */
  lemma TogetherSpecs(st: StoreVal, groups: Groups)
    requires UnitsTogether(st, groups) && OneSpecEach(groups)
    ensures SpecsTogether(st, groups)
  {
    hide IsUnit, At;
    forall gk, s | In(groups, gk, s) && s.hosts != [] ensures exists ip :: AllAt(st, ip, s) {
      SpecInUnit(groups, gk, s);
      var u :| IsUnit(groups, u) && forall h :: h in s.hosts ==> h in u.hosts;
      assert OnOneAddress(st, u);
      var ip :| AllStoredAt(st, ip, u.hosts);
      assert AllAt(st, ip, s);
    }
  }

  /** After a pass over any groups, which may share hosts, every unit has one address for all its hosts if and
      only if each finds its hosts on one address and its first host stored, or none, when its turn comes. */
  lemma PassTogetherByGroupsIff(homes: Homes, s: Sys, p: Plan, groups: Groups, turns: seq<Turn>, visits: seq<Visit>)
    requires Settled(s, homes, p, false) && "" !in homes && GroupNets(homes, p.where, groups)
    requires Schedule(groups, turns) && Possible(homes, s, turns, visits)
    ensures UnitsTogether(RunPass(homes, s, turns, visits).st, groups) <==> TogetherInTurn(p, turns)
  {
    hide Settled, GroupNets, Schedule, Possible, RunPass, NetsAgree, IsUnit, TogetherInTurn, OnOneAddress;
    ScheduleUnits(groups, turns);
    ScheduleNets(homes, p.where, groups, turns);
    PassTogetherIff(homes, s, p, turns, visits);
  }

  /** The annotations of a pass over any groups: if so, every resource with hosts gets exactly one address. */
  lemma PassAnnotatesOnce(homes: Homes, s: Sys, p: Plan, groups: Groups, turns: seq<Turn>, visits: seq<Visit>)
    requires Settled(s, homes, p, false) && "" !in homes && GroupNets(homes, p.where, groups)
    requires Schedule(groups, turns) && Possible(homes, s, turns, visits)
    requires TogetherInTurn(p, turns) && OneSpecEach(groups)
    ensures SpecsTogether(RunPass(homes, s, turns, visits).st, groups)
  {
    hide Settled, GroupNets, Schedule, Possible, RunPass, TogetherInTurn, UnitsTogether, SpecsTogether, OneSpecEach;
    PassTogetherByGroupsIff(homes, s, p, groups, turns, visits);
    TogetherSpecs(RunPass(homes, s, turns, visits).st, groups);
  }

  /** Over disjoint groups the store before the pass decides: it shares addresses by unit, and each unit has its
      first host stored, or none of its hosts. */
  lemma DisjointTogether(homes: Homes, s: Sys, p: Plan, groups: Groups, turns: seq<Turn>, visits: seq<Visit>)
    requires Settled(s, homes, p, false) && "" !in homes && GroupNets(homes, p.where, groups)
    requires Schedule(groups, turns) && Possible(homes, s, turns, visits) && DisjointGroups(groups)
    requires SharedByGroups(s.st, groups) && FirstsStored(s.st, groups)
    ensures TogetherInTurn(p, turns)
  {
    hide Settled, SharedByUnit, SharedByGroups, Schedule, GroupHosts, HostsOf, IsUnit, FirstsStored, Possible,
      DisjointGroups, RunPass, GroupNets, NetsAgree, TogetherInTurn, OnOneAddress, Sound;
    var s' := RunPass(homes, s, turns, visits);
    ScheduleUnits(groups, turns);
    ScheduleNets(homes, p.where, groups, turns);
    PassConverges(homes, s, p, turns, visits);
    PassSharesByGroupsIff(homes, s, p, groups, turns, visits);
    SharedBySchedule(s'.st, groups, turns);
    SoundMeans(s', homes);
    forall t | t in turns ensures OnOneAddress(s'.st, t.unit) {
      SharedOnOne(s'.st, turns, t);
    }
    PassTogetherIff(homes, s, p, turns, visits);
  }

  lemma SharedOnOne(st: StoreVal, turns: seq<Turn>, t: Turn)
    requires HostOnce(st) && SharedByUnit(st, turns) && t in turns && forall h :: h in HostsOf(turns) ==> Stored(st, h)
    ensures OnOneAddress(st, t.unit)
  {
    hide SharedByUnit, HostsOf, IpOf, Stored;
    if t.unit.hosts == [] {
      assert AllStoredAt(st, "", t.unit.hosts);
    } else {
      FirstHostDecides(st, turns, t, t.unit.hosts, IpOf(st, t.unit.hosts[0]));
      assert AllStoredAt(st, IpOf(st, t.unit.hosts[0]), t.unit.hosts);
    }
  }
}
