/** The three ways a resource's entry in the groups changes, as functions on the groups. */
module GroupSpec {
  import opened Types

  const ZERO_SPEC := Spec(ResourceKey(NoKind, "", ""), [], "", "")

  predicate In(groups: Groups, gk: GroupKey, s: Spec) {
    gk in groups && s in groups[gk]
  }

  predicate HasKey(grp: seq<Spec>, key: ResourceKey) {
    exists i :: 0 <= i < |grp| && grp[i].key == key
  }

  /** The position of the first spec of the resource, or the length of the group. */
  function FirstKey(grp: seq<Spec>, key: ResourceKey): (i: nat)
    ensures i <= |grp| && (i < |grp| ==> grp[i].key == key) && forall j :: 0 <= j < i ==> grp[j].key != key
  {
    if grp == [] || grp[0].key == key then 0 else
      var i := FirstKey(grp[1..], key);
      assert forall j :: 0 < j < i + 1 ==> grp[j] == grp[1..][j - 1];
      i + 1
  }

  /** The group under gk has a spec of the resource. */
  predicate Holds(groups: Groups, gk: GroupKey, key: ResourceKey) {
    gk in groups && FirstKey(groups[gk], key) < |groups[gk]|
  }

  ghost predicate DistinctSpecs(grp: seq<Spec>) {
    forall i, j :: 0 <= i < j < |grp| ==> grp[i].key != grp[j].key
  }

  /** No group is empty, no resource repeats within a group, every spec carries its group's network. */
  ghost predicate WellGrouped(groups: Groups) {
    forall gk :: gk in groups ==> WellFormed(gk, groups[gk])
  }

  ghost predicate WellFormed(gk: GroupKey, grp: seq<Spec>) {
    && grp != [] && DistinctSpecs(grp)
    && forall i :: 0 <= i < |grp| ==>
      grp[i].netview == gk.netview && grp[i].cidr == gk.cidr && grp[i].key.kind != NoKind
  }

  /** Hosts of the second list that the first lacks are appended, in order, once. */
  function Merge(have: seq<Host>, hosts: seq<Host>): seq<Host> {
    if hosts == [] then have
    else
      var acc := Merge(have, hosts[..|hosts| - 1]);
      if hosts[|hosts| - 1] in acc then acc else acc + [hosts[|hosts| - 1]]
  }

  function MergeSpec(s: Spec, key: ResourceKey, hosts: seq<Host>): Spec {
    if s.key == key then s.(hosts := Merge(s.hosts, hosts)) else s
  }

  function MergeGroup(grp: seq<Spec>, key: ResourceKey, hosts: seq<Host>): seq<Spec> {
    seq(|grp|, i requires 0 <= i < |grp| => MergeSpec(grp[i], key, hosts))
  }

  function NewSpec(gk: GroupKey, key: ResourceKey, hosts: seq<Host>): Spec {
    Spec(key, hosts, gk.netview, gk.cidr)
  }

  function AddSpec(groups: Groups, gk: GroupKey, key: ResourceKey, hosts: seq<Host>): Groups {
    if gk in groups then
      if HasKey(groups[gk], key) then groups[gk := MergeGroup(groups[gk], key, hosts)]
      else groups[gk := groups[gk] + [NewSpec(gk, key, hosts)]]
    else
      groups[gk := [NewSpec(gk, key, hosts)]]
  }

  /** One spec cut out of its group; the group goes with its last spec. */
  function CutSpec(groups: Groups, gk: GroupKey, i: nat): Groups
    requires gk in groups && i < |groups[gk]|
  {
    var rest := groups[gk][..i] + groups[gk][i + 1..];
    if rest == [] then groups - {gk} else groups[gk := rest]
  }

  /** One spec's host list replaced. */
  function SetHosts(groups: Groups, gk: GroupKey, i: nat, hosts: seq<Host>): Groups
    requires gk in groups && i < |groups[gk]|
  {
    groups[gk := groups[gk][i := groups[gk][i].(hosts := hosts)]]
  }

  lemma {:induction false} MergeHas(have: seq<Host>, hosts: seq<Host>)
    ensures forall h :: h in Merge(have, hosts) <==> h in have || h in hosts
    ensures have <= Merge(have, hosts)
    ensures Merge(have, hosts) == have <==> forall h :: h in hosts ==> h in have
  {
    if hosts != [] {
      MergeHas(have, hosts[..|hosts| - 1]);
      assert hosts == hosts[..|hosts| - 1] + [hosts[|hosts| - 1]];
    }
  }

  /** Every spec has hosts. */
  ghost predicate HaveHosts(groups: Groups) {
    forall gk, s :: In(groups, gk, s) ==> s.hosts != []
  }

  /** A resource has one spec. */
  ghost predicate OneSpecEach(groups: Groups) {
    forall gk, s, gk', s' :: In(groups, gk, s) && In(groups, gk', s') && s.key == s'.key ==> gk == gk' && s == s'
  }

  // ---------- the structure every run of the three keeps ----------

  lemma AddKeepsStructure(groups: Groups, gk: GroupKey, key: ResourceKey, hosts: seq<Host>)
    requires WellGrouped(groups) && key.kind != NoKind
    ensures WellGrouped(AddSpec(groups, gk, key, hosts))
  {
    if gk in groups && !HasKey(groups[gk], key) {
      assert WellFormed(gk, groups[gk]);
    }
  }

  lemma CutKeepsStructure(groups: Groups, gk: GroupKey, i: nat)
    requires WellGrouped(groups) && gk in groups && i < |groups[gk]|
    ensures WellGrouped(CutSpec(groups, gk, i))
    ensures gk in CutSpec(groups, gk, i) <==> |groups[gk]| > 1
  {
    assert WellFormed(gk, groups[gk]);
    var rest := groups[gk][..i] + groups[gk][i + 1..];
    assert forall j :: 0 <= j < |rest| ==> rest[j] == groups[gk][if j < i then j else j + 1];
  }

  lemma SetHostsKeepsStructure(groups: Groups, gk: GroupKey, i: nat, hosts: seq<Host>)
    requires WellGrouped(groups) && gk in groups && i < |groups[gk]|
    ensures WellGrouped(SetHosts(groups, gk, i, hosts))
  {
    assert WellFormed(gk, groups[gk]);
  }

  /** One edit of the groups; an edit of a spec that is not there does nothing. */
  datatype Edit =
    | AddHosts(gk: GroupKey, key: ResourceKey, hosts: seq<Host>)
    | ReplaceHosts(gk: GroupKey, i: nat, hosts: seq<Host>)
    | RemoveSpec(gk: GroupKey, i: nat)

  function Edited(groups: Groups, e: Edit): Groups {
    match e
    case AddHosts(gk, key, hosts) => if key.kind == NoKind then groups else AddSpec(groups, gk, key, hosts)
    case ReplaceHosts(gk, i, hosts) => if gk in groups && i < |groups[gk]| then SetHosts(groups, gk, i, hosts)
      else groups
    case RemoveSpec(gk, i) => if gk in groups && i < |groups[gk]| then CutSpec(groups, gk, i) else groups
  }

  function EditedAll(groups: Groups, edits: seq<Edit>): Groups {
    if edits == [] then groups else Edited(EditedAll(groups, edits[..|edits| - 1]), edits[|edits| - 1])
  }

  lemma {:induction false} EditsKeepStructure(groups: Groups, edits: seq<Edit>)
    requires WellGrouped(groups)
    ensures WellGrouped(EditedAll(groups, edits))
  {
    hide AddSpec, SetHosts, CutSpec, WellGrouped;
    if edits != [] {
      var init, e := edits[..|edits| - 1], edits[|edits| - 1];
      EditsKeepStructure(groups, init);
      var mid := EditedAll(groups, init);
      match e {
        case AddHosts(gk, key, hosts) =>
          if key.kind != NoKind { AddKeepsStructure(mid, gk, key, hosts); }
        case ReplaceHosts(gk, i, hosts) =>
          if gk in mid && i < |mid[gk]| { SetHostsKeepsStructure(mid, gk, i, hosts); }
        case RemoveSpec(gk, i) =>
          if gk in mid && i < |mid[gk]| { CutKeepsStructure(mid, gk, i); }
      }
    }
  }

  // ---------- the order of resources and hosts ----------

  /** Resource a stands before resource b in the group. */
  ghost predicate Before(groups: Groups, gk: GroupKey, a: ResourceKey, b: ResourceKey) {
    gk in groups && exists i, j :: 0 <= i < j < |groups[gk]| && groups[gk][i].key == a && groups[gk][j].key == b
  }

  ghost predicate Listed(groups: Groups, gk: GroupKey, key: ResourceKey) {
    gk in groups && HasKey(groups[gk], key)
  }

  /** A new resource comes last in its group, with its hosts as they are. */
  lemma NewComesLast(groups: Groups, gk: GroupKey, key: ResourceKey, hosts: seq<Host>, a: ResourceKey)
    requires !Listed(groups, gk, key) && Listed(groups, gk, a)
    ensures Before(AddSpec(groups, gk, key, hosts), gk, a, key)
    ensures var grp := AddSpec(groups, gk, key, hosts)[gk];
      |grp| == |groups[gk]| + 1 && grp[|groups[gk]|].key == key && grp[|groups[gk]|].hosts == hosts
  {
    var i :| 0 <= i < |groups[gk]| && groups[gk][i].key == a;
    var grp := AddSpec(groups, gk, key, hosts)[gk];
    assert grp[i].key == a && grp[|groups[gk]|].key == key;
  }

  /** No edit reorders the resources of a group: they stand in the order in which they were added. */
  lemma EditKeepsOrder(groups: Groups, e: Edit, gk: GroupKey, a: ResourceKey, b: ResourceKey)
    requires WellGrouped(groups) && Before(groups, gk, a, b)
    requires Listed(Edited(groups, e), gk, a) && Listed(Edited(groups, e), gk, b)
    ensures Before(Edited(groups, e), gk, a, b)
  {
    hide WellGrouped, AddSpec, SetHosts;
    assert WellFormed(gk, groups[gk]) by { WellFormedAt(groups, gk); }
    var i, j :| 0 <= i < j < |groups[gk]| && groups[gk][i].key == a && groups[gk][j].key == b;
    if e.RemoveSpec? && e.gk == gk && e.i < |groups[gk]| {
      CutPlaces(groups[gk], e.i, i, j);
    } else {
      EditKeepsPlace(groups, e, gk, i);
      EditKeepsPlace(groups, e, gk, j);
    }
  }

  lemma EditKeepsPlace(groups: Groups, e: Edit, gk: GroupKey, i: nat)
    requires gk in groups && i < |groups[gk]| && !(e.RemoveSpec? && e.gk == gk && e.i < |groups[gk]|)
    ensures var groups' := Edited(groups, e);
      gk in groups' && i < |groups'[gk]| && groups'[gk][i].key == groups[gk][i].key
  {
  }

  lemma WellFormedAt(groups: Groups, gk: GroupKey)
    requires WellGrouped(groups) && gk in groups
    ensures WellFormed(gk, groups[gk])
  {
  }

  lemma CutPlaces(grp: seq<Spec>, n: nat, i: nat, j: nat)
    requires i < j < |grp| && n < |grp| && DistinctSpecs(grp)
    requires var rest := grp[..n] + grp[n + 1..]; HasKey(rest, grp[i].key) && HasKey(rest, grp[j].key)
    ensures var rest := grp[..n] + grp[n + 1..];
      exists i', j' :: 0 <= i' < j' < |rest| && rest[i'].key == grp[i].key && rest[j'].key == grp[j].key
  {
    var rest := grp[..n] + grp[n + 1..];
    forall k | 0 <= k < |rest| ensures rest[k] == grp[if k < n then k else k + 1] {
    }
    var i', j' := if i < n then i else i - 1, if j < n then j else j - 1;
    assert i != n && j != n;
    assert rest[i'] == grp[i] && rest[j'] == grp[j];
  }

  /** The hosts that merging appends stand in the order of the list they come from, each once. */
  lemma {:induction false} MergeOrder(have: seq<Host>, hosts: seq<Host>, i: nat, j: nat)
    requires |have| <= i < j < |Merge(have, hosts)|
    ensures var r := Merge(have, hosts); IndexOf(hosts, r[i]) < IndexOf(hosts, r[j]) < |hosts|
  {
    MergeHas(have, hosts);
    var init, last := hosts[..|hosts| - 1], hosts[|hosts| - 1];
    var acc, r := Merge(have, init), Merge(have, hosts);
    MergeHas(have, init);
    assert hosts == init + [last];
    IndexOfSnoc(init, last, r[i]);
    IndexOfSnoc(init, last, r[j]);
    if j < |acc| {
      MergeOrder(have, init, i, j);
    } else {
      assert r == acc + [last] && r[i] in acc && last !in acc;
      MergeNew(have, init, i);
    }
  }

  /** What stands behind the old list comes from the new one. */
  lemma {:induction false} MergeNew(have: seq<Host>, hosts: seq<Host>, i: nat)
    requires |have| <= i < |Merge(have, hosts)|
    ensures Merge(have, hosts)[i] in hosts
  {
    var init := hosts[..|hosts| - 1];
    assert hosts == init + [hosts[|hosts| - 1]];
    if i < |Merge(have, init)| { MergeNew(have, init, i); }
  }

  lemma IndexOfSnoc(s: seq<Host>, x: Host, h: Host)
    ensures IndexOf(s + [x], h) == if h in s then IndexOf(s, h) else if h == x then |s| else |s| + 1
  {
    var t := s + [x];
    if h in s {
      var j := IndexOf(s, h);
      assert t[..j] == s[..j];
      FirstAt(t, h, j);
    } else if h == x {
      assert t[..|s|] == s;
      FirstAt(t, h, |s|);
    }
  }

  // ---------- the groups as a registry of resources ----------

  datatype Entry = Entry(gk: GroupKey, hosts: seq<Host>)

  type Registry = map<ResourceKey, Entry>

  /** Every resource has one spec, in one group. */
  ghost predicate Lists(groups: Groups, reg: Registry) {
    && WellGrouped(groups)
    && (forall gk, s :: In(groups, gk, s) ==> s.key in reg && reg[s.key] == Entry(gk, s.hosts))
    && (forall key :: key in reg ==> In(groups, reg[key].gk, NewSpec(reg[key].gk, key, reg[key].hosts)))
  }

  /** Where the one spec of a listed resource is. */
  lemma ListedAt(groups: Groups, reg: Registry, key: ResourceKey)
    requires Lists(groups, reg) && key in reg
    ensures var gk := reg[key].gk;
      && gk in groups && FirstKey(groups[gk], key) < |groups[gk]|
      && groups[gk][FirstKey(groups[gk], key)] == NewSpec(gk, key, reg[key].hosts)
    ensures forall gk :: gk in groups && HasKey(groups[gk], key) ==> gk == reg[key].gk
  {
    var gk := reg[key].gk;
    var s := NewSpec(gk, key, reg[key].hosts);
    assert WellFormed(gk, groups[gk]);
    var i :| 0 <= i < |groups[gk]| && groups[gk][i] == s;
    forall gk' | gk' in groups && HasKey(groups[gk'], key) ensures gk' == gk {
      var j :| 0 <= j < |groups[gk']| && groups[gk'][j].key == key;
      assert In(groups, gk', groups[gk'][j]);
    }
  }

  lemma NotListed(groups: Groups, reg: Registry, key: ResourceKey, gk: GroupKey)
    requires Lists(groups, reg) && key !in reg && gk in groups
    ensures !HasKey(groups[gk], key)
  {
    if i :| 0 <= i < |groups[gk]| && groups[gk][i].key == key {
      assert In(groups, gk, groups[gk][i]);
    }
  }

  /** Adding a resource that is not listed. */
  lemma AddNew(groups: Groups, reg: Registry, gk: GroupKey, key: ResourceKey, hosts: seq<Host>)
    requires Lists(groups, reg) && key !in reg && key.kind != NoKind
    ensures Lists(AddSpec(groups, gk, key, hosts), reg[key := Entry(gk, hosts)])
  {
    hide WellGrouped;
    AddKeepsStructure(groups, gk, key, hosts);
    var groups', reg', s := AddSpec(groups, gk, key, hosts), reg[key := Entry(gk, hosts)], NewSpec(gk, key, hosts);
    if gk in groups { NotListed(groups, reg, key, gk); }
    forall g, x ensures In(groups', g, x) <==> In(groups, g, x) || (g == gk && x == s) {
    }
  }

  /** Adding hosts to a resource listed in the same group. */
  lemma AddMore(groups: Groups, reg: Registry, gk: GroupKey, key: ResourceKey, hosts: seq<Host>)
    requires Lists(groups, reg) && key in reg && reg[key].gk == gk && key.kind != NoKind
    ensures Lists(AddSpec(groups, gk, key, hosts), reg[key := Entry(gk, Merge(reg[key].hosts, hosts))])
  {
    hide WellGrouped, Merge;
    AddKeepsStructure(groups, gk, key, hosts);
    ListedAt(groups, reg, key);
    var merged := Merge(reg[key].hosts, hosts);
    AddMoreIn(groups, reg, gk, key, hosts);
    var groups' := AddSpec(groups, gk, key, hosts);
    forall k | k in reg
      ensures In(groups', reg[k].gk, if k == key then NewSpec(gk, key, merged) else NewSpec(reg[k].gk, k, reg[k].hosts))
    {
    }
  }

  lemma AddMoreIn(groups: Groups, reg: Registry, gk: GroupKey, key: ResourceKey, hosts: seq<Host>)
    requires Lists(groups, reg) && key in reg && reg[key].gk == gk
    ensures var groups' := AddSpec(groups, gk, key, hosts);
      forall g, x :: In(groups', g, x) <==>
        (x.key != key && In(groups, g, x)) || (g == gk && x == NewSpec(gk, key, Merge(reg[key].hosts, hosts)))
  {
    hide Merge;
    ListedAt(groups, reg, key);
    var i, grp := FirstKey(groups[gk], key), groups[gk];
    assert WellFormed(gk, grp);
    assert grp[i].key == key;
    var groups' := AddSpec(groups, gk, key, hosts);
    forall g, x
      ensures In(groups', g, x) <==>
        (x.key != key && In(groups, g, x)) || (g == gk && x == NewSpec(gk, key, Merge(reg[key].hosts, hosts)))
    {
      MergedIn(groups, reg, gk, key, hosts, g, x, i);
    }
  }

  lemma MergedIn(groups: Groups, reg: Registry, gk: GroupKey, key: ResourceKey, hosts: seq<Host>, g: GroupKey, x: Spec,
      i: nat)
    requires Lists(groups, reg) && key in reg && reg[key].gk == gk && gk in groups
    requires i < |groups[gk]| && groups[gk][i] == NewSpec(gk, key, reg[key].hosts) && DistinctSpecs(groups[gk])
    ensures In(AddSpec(groups, gk, key, hosts), g, x) <==>
      (x.key != key && In(groups, g, x)) || (g == gk && x == NewSpec(gk, key, Merge(reg[key].hosts, hosts)))
  {
    hide Merge, WellGrouped;
    var grp, merged := groups[gk], MergeGroup(groups[gk], key, hosts);
    if g == gk {
      assert merged[i] == NewSpec(gk, key, Merge(reg[key].hosts, hosts));
      if x in grp && x.key != key {
        var j :| 0 <= j < |grp| && grp[j] == x;
        assert merged[j] == x;
      }
    } else if In(groups, g, x) {
      assert x.key != key;
    }
  }

  /** Cutting the one spec of a resource. */
  lemma CutListed(groups: Groups, reg: Registry, key: ResourceKey)
    requires Lists(groups, reg) && key in reg
    ensures reg[key].gk in groups && FirstKey(groups[reg[key].gk], key) < |groups[reg[key].gk]|
    ensures Lists(CutSpec(groups, reg[key].gk, FirstKey(groups[reg[key].gk], key)), reg - {key})
  {
    ListedAt(groups, reg, key);
    var gk := reg[key].gk;
    var i := FirstKey(groups[gk], key);
    CutKeepsStructure(groups, gk, i);
    CutIn(groups, gk, i, key);
    forall g, x | In(groups, g, x) && g != gk ensures x.key != key {
    }
  }

  lemma CutIn(groups: Groups, gk: GroupKey, i: nat, key: ResourceKey)
    requires gk in groups && i < |groups[gk]| && groups[gk][i].key == key && DistinctSpecs(groups[gk])
    ensures forall g, x :: In(CutSpec(groups, gk, i), g, x) <==> In(groups, g, x) && !(g == gk && x.key == key)
  {
    var grp := groups[gk];
    var rest := grp[..i] + grp[i + 1..];
    forall x ensures x in rest <==> x in grp && x.key != key {
      if x in grp && x.key != key {
        var j :| 0 <= j < |grp| && grp[j] == x;
        assert x == rest[if j < i then j else j - 1];
      }
    }
  }

  /** Replacing the host list of a listed resource. */
  lemma SetListed(groups: Groups, reg: Registry, key: ResourceKey, hosts: seq<Host>)
    requires Lists(groups, reg) && key in reg
    ensures reg[key].gk in groups && FirstKey(groups[reg[key].gk], key) < |groups[reg[key].gk]|
    ensures Lists(SetHosts(groups, reg[key].gk, FirstKey(groups[reg[key].gk], key), hosts),
      reg[key := Entry(reg[key].gk, hosts)])
  {
    hide WellGrouped, SetHosts;
    ListedAt(groups, reg, key);
    var gk := reg[key].gk;
    var i := FirstKey(groups[gk], key);
    SetHostsKeepsStructure(groups, gk, i, hosts);
    GroupDistinct(groups, gk);
    SetIn(groups, gk, i, key, hosts);
    forall g, x | In(groups, g, x) && g != gk ensures x.key != key {
    }
  }

  lemma GroupDistinct(groups: Groups, gk: GroupKey)
    requires WellGrouped(groups) && gk in groups
    ensures DistinctSpecs(groups[gk])
  {
    assert WellFormed(gk, groups[gk]);
  }

  lemma SetIn(groups: Groups, gk: GroupKey, i: nat, key: ResourceKey, hosts: seq<Host>)
    requires gk in groups && i < |groups[gk]| && groups[gk][i].key == key && DistinctSpecs(groups[gk])
    ensures forall g, x :: In(SetHosts(groups, gk, i, hosts), g, x) <==>
      (In(groups, g, x) && !(g == gk && x.key == key)) || (g == gk && x == groups[gk][i].(hosts := hosts))
  {
    var grp, changed := groups[gk], groups[gk][i].(hosts := hosts);
    var grp' := grp[i := changed];
    forall x ensures x in grp' <==> (x in grp && x.key != key) || x == changed {
      if x in grp && x.key != key {
        var j :| 0 <= j < |grp| && grp[j] == x;
        assert grp'[j] == x;
      }
      if x == changed { assert grp'[i] == x; }
    }
  }
}
