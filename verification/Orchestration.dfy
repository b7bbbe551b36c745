/** The groups object the orchestration client edits in place. */
module Orchestration {
  import opened Types
  import opened GroupSpec
  import opened HostSlice
  import GroupUnits

  class IPGroup {
    var Groups: Groups

    ghost predicate Valid()
      reads this
    {
      WellGrouped(Groups)
    }

    constructor ()
      ensures Valid() && Groups == map[]
    {
      Groups := map[];
    }

    /** Adds a resource to a group, or the hosts it lacks to the specs the group has for it. */
    method AddToIPGroup(gKey: GroupKey, key: ResourceKey, hosts: seq<Host>) returns (updated: bool)
      requires Valid() && key.kind != NoKind
      modifies this
      ensures Valid() && Groups == AddSpec(old(Groups), gKey, key, hosts)
      ensures updated <==> Groups != old(Groups)
    {
      AddKeepsStructure(Groups, gKey, key, hosts);
      updated := false;
      var newSpec := Spec(key, hosts, gKey.netview, gKey.cidr);
      if gKey in Groups {
        var grp := Groups[gKey];
        ghost var was := Groups;
        var haveSpec := false;
        for i := 0 to |grp|
          invariant was == old(Groups) && gKey in Groups && |Groups[gKey]| == |grp|
          invariant Groups == was[gKey := Groups[gKey]]
          invariant forall j :: 0 <= j < |grp| ==>
            Groups[gKey][j] == if j < i then MergeSpec(grp[j], key, hosts) else grp[j]
          invariant haveSpec <==> HasKey(grp[..i], key)
          invariant updated <==> exists j :: 0 <= j < i && MergeSpec(grp[j], key, hosts) != grp[j]
        {
          var spec := grp[i];
          if spec.key == newSpec.key {
            haveSpec := true;
            assert grp[..i + 1][i].key == key;
            var merged, more := MergeHosts(spec.hosts, hosts);
            spec := spec.(hosts := merged);
            updated := updated || more;
          }
          HasKeyMore(grp, i, key);
          Groups := Groups[gKey := Groups[gKey][i := Groups[gKey][i].(hosts := spec.hosts)]];
        }
        assert grp[..|grp|] == grp;
        if !haveSpec {
          assert forall j :: 0 <= j < |grp| ==> MergeSpec(grp[j], key, hosts) == grp[j];
          assert Groups[gKey] == grp;
          Groups := Groups[gKey := Groups[gKey] + [newSpec]];
          updated := true;
        } else {
          assert Groups[gKey] == MergeGroup(grp, key, hosts);
          assert updated <==> Groups[gKey] != grp;
        }
      } else {
        Groups := Groups[gKey := [newSpec]];
        updated := true;
      }
    }

    /** Lines 60-65 of orchestration.go: the hosts a listed resource lacks. */
    method MergeHosts(have: seq<Host>, hosts: seq<Host>) returns (r: seq<Host>, more: bool)
      ensures r == Merge(have, hosts) && (more <==> r != have)
    {
      r, more := have, false;
      for i := 0 to |hosts|
        invariant r == Merge(have, hosts[..i]) && (more <==> r != have)
      {
        assert hosts[..i + 1][..i] == hosts[..i];
        MergeHas(have, hosts[..i]);
        if hosts[i] !in r {
          r := r + [hosts[i]];
          more := true;
        }
      }
      assert hosts[..|hosts|] == hosts;
    }

    /** Finds the resource in one group, in any order of groups, closes the gap it leaves, zeroes the last
        place, truncates, and deletes a group that was left with a zeroed spec only. */
    method RemoveFromIPGroup(rmKey: ResourceKey)
      requires Valid() && rmKey.kind != NoKind
      modifies this
      ensures Valid()
      ensures if exists gk :: Holds(old(Groups), gk, rmKey)
        then exists gk ::
          Holds(old(Groups), gk, rmKey) && Groups == CutSpec(old(Groups), gk, FirstKey(old(Groups)[gk], rmKey))
        else Groups == old(Groups)
    {
      var todo := Groups.Keys;
      while todo != {}
        invariant Groups == old(Groups) && todo <= Groups.Keys
        invariant forall gk :: Holds(Groups, gk, rmKey) ==> gk in todo
        decreases |todo|
      {
        var grpName :| grpName in todo;
        todo := todo - {grpName};
        assert WellFormed(grpName, Groups[grpName]);
        var grp := Groups[grpName];
        var i := 0;
        while i < |grp| && grp[i].key != rmKey
          invariant i <= |grp| && forall j :: 0 <= j < i ==> grp[j].key != rmKey
        {
          i := i + 1;
        }
        var deleted := i < |grp|;
        if deleted {
          FirstIs(grp, rmKey, i);
          assert Holds(old(Groups), grpName, rmKey);
          CutKeepsStructure(Groups, grpName, i);
          var rest := grp[..i] + grp[i + 1..];
          grp := rest + [grp[|grp| - 1]];
          grp := grp[|grp| - 1 := ZERO_SPEC];
          Groups := Groups[grpName := grp[..|grp| - 1]];
          assert grp[..|grp| - 1] == rest;
        }
        if |grp| == 1 && grp[0] == ZERO_SPEC {
          Groups := Groups - {grpName};
          assert Groups == old(Groups) - {grpName};
        }
        if deleted {
          return;
        }
      }
    }

    /** Every spec of the resource in turn: the first place of the host is closed in the array behind the
        spec's hosts, the spec keeps the shorter list, and what is left of its group is skipped. */
    method RemoveHost(rmHost: Host, key: ResourceKey, arr: array<Host>, len: nat, ghost gk: GroupKey)
        returns (newLen: nat)
      requires OnlySpec(Groups, gk, key) && len <= arr.Length && SpecHosts(Groups, gk, key) == arr[..len]
      modifies this, arr
      ensures Slice(arr[..], newLen) == Shift(Slice(old(arr[..]), len), rmHost)
      ensures Groups == SetHosts(old(Groups), gk, FirstKey(old(Groups)[gk], key), arr[..newLen])
      ensures OnlySpec(Groups, gk, key) && SpecHosts(Groups, gk, key) == arr[..newLen]
    {
      hide Shift, SetHosts, FirstKey, OnlySpec, SpecHosts;
      ghost var groups, was, met := Groups, Slice(arr[..], len), false;
      newLen := len;
      var todo, deleted := Groups.Keys, false;
      HoldsOne(groups, gk, key);
      while todo != {}
        invariant todo <= groups.Keys && newLen <= arr.Length && (met <==> gk !in todo) && (deleted ==> met)
        invariant Removing(groups, Groups, gk, key, was, Slice(arr[..], newLen), rmHost, met)
        decreases |todo|
      {
        var gKey :| gKey in todo;
        todo := todo - {gKey};
        RemovingElsewhere(groups, Groups, gk, key, was, Slice(arr[..], newLen), rmHost, met, gKey);
        var grp := Groups[gKey];
        for i := 0 to |grp|
          invariant newLen <= arr.Length && (deleted ==> met)
          invariant if gKey == gk then met <==> i > FirstKey(groups[gk], key) else met <==> gk !in todo
          invariant Removing(groups, Groups, gk, key, was, Slice(arr[..], newLen), rmHost, met)
        {
          OnlyAt(groups, gk, key, gKey, i);
          if grp[i].key == key {
            newLen := HostSlice.RemoveHost(arr, newLen, rmHost);
            met := true;
            if newLen < len {
              Groups := Groups[gKey := Groups[gKey][i := Groups[gKey][i].(hosts := arr[..newLen])]];
              deleted := true;
              SetsHosts(groups, gk, key, arr[..newLen]);
              assert arr[..][..newLen] == arr[..newLen];
            }
            RemovingMet(groups, Groups, gk, key, was, Slice(arr[..], newLen), rmHost);
          }
          if deleted {
            break;
          }
        }
      }
      assert arr[..][..newLen] == arr[..newLen];
      SetKeeps(groups, gk, key, arr[..newLen]);
    }

    /** The first spec of the resource, with the name of its group. */
    method GetSpec(key: ResourceKey) returns (found: bool, spec: Spec, name: string)
      ensures if exists gk :: Holds(Groups, gk, key)
        then found && exists gk ::
          Holds(Groups, gk, key) && gk.name == name && spec == Groups[gk][FirstKey(Groups[gk], key)]
        else !found && spec == ZERO_SPEC && name == ""
    {
      var todo := Groups.Keys;
      while todo != {}
        invariant todo <= Groups.Keys
        invariant forall gk :: Holds(Groups, gk, key) ==> gk in todo
        decreases |todo|
      {
        var gKey :| gKey in todo;
        todo := todo - {gKey};
        var grp := Groups[gKey];
        for i := 0 to |grp|
          invariant forall j :: 0 <= j < i ==> grp[j].key != key
        {
          if grp[i].key == key {
            FirstIs(grp, key, i);
            assert Holds(Groups, gKey, key);
            return true, grp[i], gKey.name;
          }
        }
      }
      return false, ZERO_SPEC, "";
    }

    /** The specs whose first host is one of the hosts.  A spec without hosts is read out of bounds, and every
        spec is read. */
    method GetSpecsWithHosts(hosts: seq<Host>) returns (panicked: bool, specs: seq<Spec>)
      ensures panicked <==> !HaveHosts(Groups)
      ensures !panicked ==> forall s :: s in specs <==> exists gk :: In(Groups, gk, s) && FirstIn(s, hosts)
    {
      panicked, specs := false, [];
      var todo := Groups.Keys;
      while todo != {}
        invariant todo <= Groups.Keys
        invariant forall gk, s :: In(Groups, gk, s) && gk !in todo ==> s.hosts != []
        invariant forall s :: s in specs <==> exists gk :: In(Groups, gk, s) && gk !in todo && FirstIn(s, hosts)
        decreases |todo|
      {
        var gKey :| gKey in todo;
        var grp := Groups[gKey];
        for i := 0 to |grp|
          invariant forall s :: s in grp[..i] ==> s.hosts != []
          invariant forall s :: s in specs <==>
            (s in grp[..i] && FirstIn(s, hosts)) || (exists gk :: In(Groups, gk, s) && gk !in todo && FirstIn(s, hosts))
        {
          assert In(Groups, gKey, grp[i]);
          assert grp[..i + 1] == grp[..i] + [grp[i]];
          if grp[i].hosts == [] {
            return true, [];
          }
          if grp[i].hosts[0] in hosts {
            specs := specs + [grp[i]];
          }
        }
        assert grp[..|grp|] == grp;
        todo := todo - {gKey};
      }
    }

    /** Every host of every group. */
    method GetAllHosts() returns (hosts: seq<Host>)
      ensures Elements(hosts) == GroupUnits.GroupHosts(Groups)
    {
      hosts := [];
      var todo := Groups.Keys;
      while todo != {}
        invariant todo <= Groups.Keys
        invariant forall h :: h in hosts <==> exists gk, s :: In(Groups, gk, s) && gk !in todo && h in s.hosts
        decreases |todo|
      {
        var gKey :| gKey in todo;
        var grp := Groups[gKey];
        for i := 0 to |grp|
          invariant forall h :: h in hosts <==>
            (exists s :: s in grp[..i] && h in s.hosts) ||
              (exists gk, s :: In(Groups, gk, s) && gk !in todo && h in s.hosts)
        {
          assert grp[..i + 1] == grp[..i] + [grp[i]];
          hosts := hosts + grp[i].hosts;
        }
        assert grp[..|grp|] == grp;
        assert forall s :: s in grp ==> In(Groups, gKey, s);
        todo := todo - {gKey};
      }
      HostsInSpecs(Groups, hosts);
    }
  }

  /** The group under gk has the only spec of the resource. */
  ghost predicate OnlySpec(groups: Groups, gk: GroupKey, key: ResourceKey) {
    Holds(groups, gk, key) &&
    forall g, i :: g in groups && 0 <= i < |groups[g]| && groups[g][i].key == key ==>
      g == gk && i == FirstKey(groups[gk], key)
  }

  ghost function SpecHosts(groups: Groups, gk: GroupKey, key: ResourceKey): seq<Host>
    requires Holds(groups, gk, key)
  {
    groups[gk][FirstKey(groups[gk], key)].hosts
  }

  /** The search before and after it has met the resource's spec. */
  ghost predicate Removing(groups: Groups, now: Groups, gk: GroupKey, key: ResourceKey, was: Slice, s: Slice, rm: Host,
    met: bool)
    requires Holds(groups, gk, key) && HostSlice.Fits(was) && HostSlice.Fits(s)
  {
    if met then s == Shift(was, rm) && now == SetHosts(groups, gk, FirstKey(groups[gk], key), List(s))
    else s == was && now == groups
  }

  lemma HoldsOne(groups: Groups, gk: GroupKey, key: ResourceKey)
    requires OnlySpec(groups, gk, key)
    ensures Holds(groups, gk, key)
  {
  }

  lemma OnlyAt(groups: Groups, gk: GroupKey, key: ResourceKey, g: GroupKey, i: nat)
    requires OnlySpec(groups, gk, key) && g in groups && i < |groups[g]|
    ensures groups[g][i].key == key <==> g == gk && i == FirstKey(groups[gk], key)
  {
  }

  lemma SetsHosts(groups: Groups, gk: GroupKey, key: ResourceKey, hosts: seq<Host>)
    requires Holds(groups, gk, key)
    ensures var i := FirstKey(groups[gk], key);
      SetHosts(groups, gk, i, hosts) == groups[gk := groups[gk][i := groups[gk][i].(hosts := hosts)]]
  {
  }

  lemma RemovingElsewhere(groups: Groups, now: Groups, gk: GroupKey, key: ResourceKey, was: Slice, s: Slice, rm: Host,
    met: bool, g: GroupKey)
    requires Holds(groups, gk, key) && HostSlice.Fits(was) && HostSlice.Fits(s) && g in groups
    requires Removing(groups, now, gk, key, was, s, rm, met) && (met ==> g != gk)
    ensures g in now && now[g] == groups[g]
  {
  }

  lemma RemovingMet(groups: Groups, now: Groups, gk: GroupKey, key: ResourceKey, was: Slice, s: Slice, rm: Host)
    requires Holds(groups, gk, key) && HostSlice.Fits(was) && HostSlice.Fits(s) && s == Shift(was, rm)
    requires List(was) == SpecHosts(groups, gk, key)
    requires if s.len < was.len then now == SetHosts(groups, gk, FirstKey(groups[gk], key), List(s)) else now == groups
    ensures Removing(groups, now, gk, key, was, s, rm, true)
  {
    hide SetHosts, Shift;
    if s.len >= was.len {
      ShiftSame(was, rm);
      SetSame(groups, gk, key);
    }
  }

  lemma ShiftSame(s: Slice, rm: Host)
    requires HostSlice.Fits(s) && Shift(s, rm).len >= s.len
    ensures Shift(s, rm) == s
  {
  }

  lemma SetSame(groups: Groups, gk: GroupKey, key: ResourceKey)
    requires Holds(groups, gk, key)
    ensures SetHosts(groups, gk, FirstKey(groups[gk], key), SpecHosts(groups, gk, key)) == groups
  {
    var i := FirstKey(groups[gk], key);
    assert groups[gk][i := groups[gk][i]] == groups[gk];
  }

  lemma SetKeeps(groups: Groups, gk: GroupKey, key: ResourceKey, hosts: seq<Host>)
    requires OnlySpec(groups, gk, key)
    ensures var groups' := SetHosts(groups, gk, FirstKey(groups[gk], key), hosts);
      && groups'.Keys == groups.Keys && OnlySpec(groups', gk, key)
      && FirstKey(groups'[gk], key) == FirstKey(groups[gk], key) && SpecHosts(groups', gk, key) == hosts
  {
    var i := FirstKey(groups[gk], key);
    var groups' := SetHosts(groups, gk, i, hosts);
    FirstIs(groups'[gk], key, i);
  }

  lemma SetTwice(groups: Groups, gk: GroupKey, key: ResourceKey, hosts: seq<Host>, hosts': seq<Host>)
    requires Holds(groups, gk, key)
    ensures var i := FirstKey(groups[gk], key);
      var groups' := SetHosts(groups, gk, i, hosts);
      gk in groups' && i < |groups'[gk]| && SetHosts(groups', gk, i, hosts') == SetHosts(groups, gk, i, hosts')
  {
    var i := FirstKey(groups[gk], key);
    var groups' := SetHosts(groups, gk, i, hosts);
    var grp, grp' := groups[gk], groups'[gk];
    assert grp'[i := grp'[i].(hosts := hosts')] == grp[i := grp[i].(hosts := hosts')];
  }

  lemma ListedOnly(groups: Groups, reg: Registry, key: ResourceKey)
    requires Lists(groups, reg) && key in reg
    ensures OnlySpec(groups, reg[key].gk, key) && SpecHosts(groups, reg[key].gk, key) == reg[key].hosts
  {
    ListedAt(groups, reg, key);
    assert WellFormed(reg[key].gk, groups[reg[key].gk]);
    forall g, i | g in groups && 0 <= i < |groups[g]| && groups[g][i].key == key
      ensures g == reg[key].gk && i == FirstKey(groups[g], key)
    {
      assert HasKey(groups[g], key);
    }
  }

  predicate FirstIn(s: Spec, hosts: seq<Host>) {
    s.hosts != [] && s.hosts[0] in hosts
  }

  lemma FirstIs(grp: seq<Spec>, key: ResourceKey, i: nat)
    requires i < |grp| && grp[i].key == key && forall j :: 0 <= j < i ==> grp[j].key != key
    ensures FirstKey(grp, key) == i && HasKey(grp, key)
  {
  }

  lemma HasKeyMore(grp: seq<Spec>, i: nat, key: ResourceKey)
    requires i < |grp|
    ensures HasKey(grp[..i + 1], key) <==> HasKey(grp[..i], key) || grp[i].key == key
  {
    if HasKey(grp[..i], key) {
      var j :| 0 <= j < i && grp[..i][j].key == key;
      assert grp[..i + 1][j].key == key;
    }
    if grp[i].key == key { assert grp[..i + 1][i].key == key; }
  }

  lemma HostsInSpecs(groups: Groups, hosts: seq<Host>)
    requires forall h :: h in hosts <==> exists gk, s :: In(groups, gk, s) && h in s.hosts
    ensures Elements(hosts) == GroupUnits.GroupHosts(groups)
  {
    forall h ensures h in Elements(hosts) <==> h in GroupUnits.GroupHosts(groups) {
      if h in GroupUnits.GroupHosts(groups) {
        var k, i :| k in groups && 0 <= i < |groups[k]| && h in groups[k][i].hosts;
        assert In(groups, k, groups[k][i]);
      }
      if h in hosts {
        var gk, s :| In(groups, gk, s) && h in s.hosts;
        var i :| 0 <= i < |groups[gk]| && groups[gk][i] == s;
        assert h in groups[gk][i].hosts;
      }
    }
  }
}
