/**
 Inputs at which the code does not do what one expects.  Each lemma shows, on one small system, that the
 hypotheses of the exact conditions can be met on their failing side.
 */
module Instances {
  import opened Types
  import opened StoreSpec
  import opened Reconcile
  import opened Addition
  import opened Attachment
  import opened Removal
  import opened Pass
  import opened Coherence
  import opened Sharing
  import opened GroupSpec
  import opened GroupUnits
  import opened HostSlice
  import opened EventSpec
  import opened RecordTable
  import opened Rebuild
  import opened Lossy
  import Failing
  import opened Service
  import opened Restart
  import opened Runs
  import Controller

  /** Two addresses of one network; host a is a CNAME of o at the first. */
  const NET := Net("v", "c")
  const HOMES: Homes := map["1" := NET, "2" := NET]
  const PAIR_STORE := StoreVal(map["1" := map["o" := A, "a" := CNAME]], map["1" := "v"], map["1" := "c"])
  const PAIR_DNS: map<Host, Rec> := map["o" := ARec("1", "v"), "a" := CRec("o", "v")]
  const PAIR := Sys(PAIR_STORE, PAIR_DNS, {"1"})
  const PAIR_PLAN := Plan(map["o" := "1", "a" := "1"], map["1" := "o"])

  lemma PairFiled()
    ensures Filed(PAIR.st, PAIR_PLAN.where)
  {
  }

  lemma PairFollows()
    ensures Follows(PAIR, HOMES, PAIR_PLAN, true)
  {
    hide Backed;
    forall h | h in PAIR_PLAN.where ensures Backed(PAIR, PAIR_PLAN, h, true) {
      if h == "o" { OwnerBacked(); } else { MateBacked(); }
    }
  }

  lemma OwnerBacked()
    ensures Backed(PAIR, PAIR_PLAN, "o", true)
  {
  }

  lemma MateBacked()
    ensures Backed(PAIR, PAIR_PLAN, "a", true)
  {
  }

  lemma PairSettled()
    ensures Settled(PAIR, HOMES, PAIR_PLAN, true) && Settled(PAIR, HOMES, PAIR_PLAN, false) && "" !in HOMES
  {
    hide Follows, Filed, Pointed;
    PairFollows();
    PairFiled();
    SettledStrict(PAIR, HOMES, PAIR_PLAN);
  }

  /** One unit of the network, with the second address on offer. */
  function OneTurn(hosts: seq<Host>): seq<Turn> {
    [Turn(Unit(NET, hosts), "2")]
  }

  lemma OneTurnFacts(hosts: seq<Host>)
    ensures HostsOf(OneTurn(hosts)) == Elements(hosts) && DisjointUnits(OneTurn(hosts))
    ensures AllAvailable(HOMES, PAIR, OneTurn(hosts)) && NetsAgree(HOMES, PAIR_PLAN.where, OneTurn(hosts))
    ensures PlanPhase(PAIR_PLAN, OneTurn(hosts)) == PlanUnit(PAIR_PLAN, Unit(NET, hosts), "2")
  {
    hide PlanUnit;
    HostsOfOne(Turn(Unit(NET, hosts), "2"));
    assert OneTurn(hosts)[..0] == [];
    assert AllAvailable(HOMES, PAIR, []);
    assert AddPhase(HOMES, PAIR, []) == PAIR;
    assert PlanPhase(PAIR_PLAN, []) == PAIR_PLAN;
  }

  // ---------- attachment and shared addresses ----------

  /** The unit [b, x, c], where x is one of the stored hosts: b takes the second address, c lands with x. */
  function Between(x: Host): seq<Host> {
    ["b", x, "c"]
  }

  const SPREAD := Plan(map["o" := "1", "a" := "1", "b" := "2", "c" := "1"], map["1" := "o", "2" := "b"])

  const VISITS := [Visit("1", ["o", "a", "c"], ["o", "a", "c"]), Visit("2", ["b"], ["b"])]

  lemma BetweenPlanned(x: Host)
    requires x in PAIR_PLAN.where
    ensures PlanUnit(PAIR_PLAN, Unit(NET, Between(x)), "2") == SPREAD
  {
    var u := Unit(NET, Between(x));
    assert PlanHosts(PAIR_PLAN, u, "2", 0) == PlanWalk(PAIR_PLAN, "2", false);
    assert PlanHosts(PAIR_PLAN, u, "2", 1) ==
      PlanWalk(Plan(PAIR_PLAN.where["b" := "2"], PAIR_PLAN.owner["2" := "b"]), "2", true);
    assert PlanHosts(PAIR_PLAN, u, "2", 2).cur == "1";
  }

  lemma BetweenPossible(x: Host)
    requires x in PAIR_PLAN.where
    ensures Possible(HOMES, PAIR, OneTurn(Between(x)), VISITS)
  {
    hide AddPhase, PlanPhase, PlanUnit, AllAvailable, NetsAgree, HostsOf, Settled, Extends;
    var turns := OneTurn(Between(x));
    PairSettled();
    OneTurnFacts(Between(x));
    BetweenPlanned(x);
    AddPhaseSettles(HOMES, PAIR, PAIR_PLAN, turns, turns);
    SpreadVisits(AddPhase(HOMES, PAIR, turns));
  }

  lemma SpreadVisits(s: Sys)
    requires Settled(s, HOMES, SPREAD, false)
    ensures RangeOrder(s.st, VISITS)
  {
    hide Follows, Filed;
    forall v | v in VISITS ensures VisitsAll(SPREAD.where, v) {
    }
    SweepIsRange(s.st, SPREAD.where, VISITS);
  }

  /** No unit is attachable, but the addition phase's wrong pointer is repaired: o, the owner of the address at
      which c lands, is dropped. */
  lemma RepairedByRemoval()
    ensures var turns := OneTurn(Between("a"));
      && Settled(PAIR, HOMES, PAIR_PLAN, true) && Possible(HOMES, PAIR, turns, VISITS)
      && NetsAgree(HOMES, PAIR_PLAN.where, turns) && DisjointUnits(turns)
      && !Attachable(PAIR_PLAN, turns[0].unit) && Coherent(RunPass(HOMES, PAIR, turns, VISITS), HOMES)
  {
    hide RunPass, Possible, Settled, NetsAgree, DisjointUnits, AllAvailable, Coherent;
    var turns, u := OneTurn(Between("a")), Unit(NET, Between("a"));
    PairSettled();
    OneTurnFacts(Between("a"));
    BetweenPossible("a");
    assert IsNew(PAIR_PLAN, u, 2) && !Follower(PAIR_PLAN, u, 2);
    assert Landing(PAIR_PLAN.where, u.hosts, 2) == Some("1");
    PassKeepsCoherentIff(HOMES, PAIR, PAIR_PLAN, turns, VISITS);
  }

  /** With o wanted, c is left with a CNAME to b at the address of o; the unit is on two addresses. */
  lemma BrokenAttachment()
    ensures var turns := OneTurn(Between("o"));
      && Settled(PAIR, HOMES, PAIR_PLAN, true) && Possible(HOMES, PAIR, turns, VISITS)
      && NetsAgree(HOMES, PAIR_PLAN.where, turns) && DisjointUnits(turns) && SharedByUnit(PAIR.st, turns)
      && Sound(RunPass(HOMES, PAIR, turns, VISITS), HOMES) && !Coherent(RunPass(HOMES, PAIR, turns, VISITS), HOMES)
      && IsSplit(PlanPhase(PAIR_PLAN, turns).where, turns[0].unit)
      && !SharedByUnit(RunPass(HOMES, PAIR, turns, VISITS).st, turns)
  {
    hide RunPass, Possible, Settled, NetsAgree, DisjointUnits, AllAvailable, Coherent, Sound, Converged, IsSplit,
      PlanPhase, SharedByUnit, FittingInTurn, FirstOrNone, FirstOrNoneStored, HostsOf;
    var turns, u := OneTurn(Between("o")), Unit(NET, Between("o"));
    PairSettled();
    OneTurnFacts(Between("o"));
    BetweenPossible("o");
    BetweenMisses();
    PassKeepsCoherentIff(HOMES, PAIR, PAIR_PLAN, turns, VISITS);
    PassConverges(HOMES, PAIR, PAIR_PLAN, turns, VISITS);
    AddPhaseSplits(HOMES, PAIR, PAIR_PLAN, turns, turns, turns[0]);
    OnlyOShared(turns);
    FirstStored(PAIR.st, PAIR_PLAN.where, u);
    PassSharesIff(HOMES, PAIR, PAIR_PLAN, turns, VISITS);
  }

  lemma BetweenMisses()
    ensures var turns := OneTurn(Between("o"));
      !FittingInTurn(PAIR_PLAN, turns, HostsOf(turns)) && !FirstOrNone(PAIR_PLAN.where, turns[0].unit)
  {
    hide HostsOf, PlanHosts;
    var turns, u := OneTurn(Between("o")), Unit(NET, Between("o"));
    OneTurnFacts(Between("o"));
    assert u.hosts[1] == "o" && turns[..0] == [] && PlanPhase(PAIR_PLAN, []) == PAIR_PLAN;
    assert Landing(PAIR_PLAN.where, u.hosts, 2) == Some("1");
    assert IsNew(PAIR_PLAN, u, 2) && !Aims(PAIR_PLAN, u, HostsOf(turns), 2);
    assert !Fitting(PAIR_PLAN, u, HostsOf(turns));
  }

  lemma OnlyO(h: Host)
    requires h in Elements(Between("o")) && h in PAIR_PLAN.where
    ensures h == "o"
  {
  }

  lemma OnlyOShared(turns: seq<Turn>)
    requires turns == OneTurn(Between("o"))
    ensures SharedByUnit(PAIR.st, turns) && Filed(PAIR.st, PAIR_PLAN.where)
  {
    hide Settled, Follows, Filed, IpOf, Stored, HostsOf, Elements;
    PairFiled();
    OneTurnFacts(Between("o"));
    forall h, k | h in HostsOf(turns) && k in HostsOf(turns) && Stored(PAIR.st, h) && Stored(PAIR.st, k)
      ensures IpOf(PAIR.st, h) == IpOf(PAIR.st, k) && InOneUnit(turns, h, k)
    {
      StoredWhere(PAIR.st, PAIR_PLAN.where, h);
      StoredWhere(PAIR.st, PAIR_PLAN.where, k);
      OnlyO(h);
      OnlyO(k);
      assert turns[0] in turns && turns[0].unit.hosts[1] == "o";
    }
  }

  // ---------- units that share a host ----------

  const EMPTY_PLAN := Plan(map[], map[])

  /** Two resources name y; the first turn gives x and y an address, the second files z beside y. */
  const FIRST := Turn(Unit(NET, ["x", "y"]), "1")
  const SECOND := Turn(Unit(NET, ["y", "z"]), "2")
  const SHARING := [FIRST, SECOND]

  const ONE_UNIT := Plan(map["x" := "1", "y" := "1"], map["1" := "x"])
  const CHAINED := Plan(map["x" := "1", "y" := "1", "z" := "1"], map["1" := "x"])

  const CHAIN_VISITS := [Visit("1", ["x", "y", "z"], ["x", "y", "z"])]

  lemma EmptySettled()
    ensures Settled(EMPTY_SYS, HOMES, EMPTY_PLAN, true) && Settled(EMPTY_SYS, HOMES, EMPTY_PLAN, false)
  {
    SettledStrict(EMPTY_SYS, HOMES, EMPTY_PLAN);
  }

  lemma SharingPlanned()
    ensures PlanPhase(EMPTY_PLAN, [FIRST]) == ONE_UNIT && PlanPhase(EMPTY_PLAN, SHARING) == CHAINED
  {
    var u, v := FIRST.unit, SECOND.unit;
    assert [FIRST][..0] == [] && SHARING[..1] == [FIRST];
    assert PlanPhase(EMPTY_PLAN, []) == EMPTY_PLAN;
    assert PlanHosts(EMPTY_PLAN, u, "1", 0) == PlanWalk(EMPTY_PLAN, "1", false);
    assert PlanHosts(EMPTY_PLAN, u, "1", 1) == PlanWalk(Plan(map["x" := "1"], map["1" := "x"]), "1", true);
    assert PlanHosts(EMPTY_PLAN, u, "1", 2).p == ONE_UNIT;
    assert PlanHosts(ONE_UNIT, v, "2", 0) == PlanWalk(ONE_UNIT, "2", false);
    assert PlanHosts(ONE_UNIT, v, "2", 1) == PlanWalk(ONE_UNIT, "1", false);
    assert PlanHosts(ONE_UNIT, v, "2", 2).p == CHAINED;
  }

  lemma SharingTurns()
    ensures HostsOf(SHARING) == {"x", "y", "z"} && NetsAgree(HOMES, EMPTY_PLAN.where, SHARING)
    ensures AllAvailable(HOMES, EMPTY_SYS, SHARING) && !DisjointUnits(SHARING)
  {
    hide AddUnit, PlanPhase, Extends, Settled, HostsOf;
    assert [FIRST][..0] == [] && SHARING[..1] == [FIRST];
    SharingHosts();
    assert AddPhase(HOMES, EMPTY_SYS, []) == EMPTY_SYS;
    assert AllAvailable(HOMES, EMPTY_SYS, []);
    assert AllAvailable(HOMES, EMPTY_SYS, [FIRST]);
    EmptySettled();
    AddPhaseSettles(HOMES, EMPTY_SYS, EMPTY_PLAN, [FIRST], SHARING);
    SharingPlanned();
    SettledPlanOK(AddPhase(HOMES, EMPTY_SYS, [FIRST]), HOMES, ONE_UNIT, false);
  }

  lemma SharingHosts()
    ensures HostsOf(SHARING) == {"x", "y", "z"} && NetsAgree(HOMES, EMPTY_PLAN.where, SHARING)
    ensures !DisjointUnits(SHARING)
  {
    hide HostsOf;
    assert SHARING[..1] == [FIRST];
    SnocTurns(SHARING);
    HostsOfOne(FIRST);
    assert SHARING[0].unit.hosts[1] == "y" && SHARING[1].unit.hosts[0] == "y";
  }

  lemma SharingPossible()
    ensures Possible(HOMES, EMPTY_SYS, SHARING, CHAIN_VISITS)
  {
    hide AddPhase, PlanPhase, AllAvailable, NetsAgree, HostsOf, Extends, Follows, Filed;
    EmptySettled();
    SharingTurns();
    SharingPlanned();
    AddPhaseSettles(HOMES, EMPTY_SYS, EMPTY_PLAN, SHARING, SHARING);
    var s1 := AddPhase(HOMES, EMPTY_SYS, SHARING);
    forall v | v in CHAIN_VISITS ensures VisitsAll(CHAINED.where, v) {
    }
    SweepIsRange(s1.st, CHAINED.where, CHAIN_VISITS);
  }

  lemma SharingFits()
    ensures forall t :: t in SHARING ==> Fitting(EMPTY_PLAN, t.unit, {"x", "y", "z"})
    ensures !FittingInTurn(EMPTY_PLAN, SHARING, {"x", "y", "z"})
    ensures TogetherInTurn(EMPTY_PLAN, SHARING)
  {
    var wanted := {"x", "y", "z"};
    SharingPlanned();
    assert [FIRST][..0] == [] && SHARING[..1] == [FIRST];
    assert Landing(EMPTY_PLAN.where, FIRST.unit.hosts, 1) == None == Landing(EMPTY_PLAN.where, SECOND.unit.hosts, 1);
    assert Landing(ONE_UNIT.where, SECOND.unit.hosts, 1) == Some("1");
    assert IsNew(ONE_UNIT, SECOND.unit, 1) && !Aims(ONE_UNIT, SECOND.unit, wanted, 1);
    assert !Fitting(ONE_UNIT, SECOND.unit, wanted);
    assert OneHome(EMPTY_PLAN.where, FIRST.unit) && OneHome(ONE_UNIT.where, SECOND.unit);
    assert PlanPhase(EMPTY_PLAN, []) == EMPTY_PLAN;
  }

  /** Both units fit the empty store, but y is a CNAME of x when z becomes a CNAME of y.  All three are at one
      address, so each resource gets exactly one. */
  lemma SharedHostChains()
    ensures Settled(EMPTY_SYS, HOMES, EMPTY_PLAN, true) && Possible(HOMES, EMPTY_SYS, SHARING, CHAIN_VISITS)
    ensures NetsAgree(HOMES, EMPTY_PLAN.where, SHARING) && !DisjointUnits(SHARING)
    ensures forall t :: t in SHARING ==> Fitting(EMPTY_PLAN, t.unit, HostsOf(SHARING))
    ensures var s' := RunPass(HOMES, EMPTY_SYS, SHARING, CHAIN_VISITS);
      Sound(s', HOMES) && !Coherent(s', HOMES) && forall t :: t in SHARING ==> OnOneAddress(s'.st, t.unit)
  {
    hide RunPass, Possible, Settled, NetsAgree, DisjointUnits, AllAvailable, Coherent, Sound, Converged, Fitting,
      FittingInTurn, TogetherInTurn, OnOneAddress, HostsOf;
    EmptySettled();
    SharingTurns();
    SharingPossible();
    SharingFits();
    PassKeepsCoherentIff(HOMES, EMPTY_SYS, EMPTY_PLAN, SHARING, CHAIN_VISITS);
    PassConverges(HOMES, EMPTY_SYS, EMPTY_PLAN, SHARING, CHAIN_VISITS);
    PassTogetherIff(HOMES, EMPTY_SYS, EMPTY_PLAN, SHARING, CHAIN_VISITS);
  }

  // ---------- zones ----------

  function SplitZones(h: Host): string {
    if h == "a" then "y" else "z"
  }

  const SPLIT_STORE :=
    StoreVal(map["1" := map["o" := A], "" := map["a" := CNAME]], map["1" := "v", "" := "v"], map["1" := "c", "" := ""])

  /** The CNAME and its A host are in two zones: a coherent system whose store is not the one a tick loads, and
      in the loaded one a is under the empty address. */
  lemma AcrossZones()
    ensures Coherent(PAIR, HOMES) && !OneZone(PAIR.dns, SplitZones)
    ensures !Loaded(PAIR.st, PAIR.dns, HOMES, SplitZones, PAIR.dns.Keys)
    ensures Loaded(SPLIT_STORE, PAIR.dns, HOMES, SplitZones, PAIR.dns.Keys) && At(SPLIT_STORE, "", "a")
  {
    hide Loaded, Settled;
    PairSettled();
    assert PAIR.dns["a"].CRec?;
    LoadedIffOneZone(PAIR, HOMES, SplitZones);
    SplitLoaded();
  }

  lemma SplitAt()
    ensures forall ip, h :: At(SPLIT_STORE, ip, h) <==> h in PAIR.dns && LoadIp(PAIR.dns, SplitZones, h) == ip
    ensures forall ip, h :: At(SPLIT_STORE, ip, h) ==> SPLIT_STORE.records[ip][h] == LoadType(PAIR.dns[h])
  {
    assert LoadIp(PAIR.dns, SplitZones, "o") == "1" && LoadIp(PAIR.dns, SplitZones, "a") == "";
    forall ip, h ensures At(SPLIT_STORE, ip, h) <==> (ip == "1" && h == "o") || (ip == "" && h == "a") {
    }
  }

  lemma SplitShape()
    ensures WellShaped(SPLIT_STORE)
  {
    assert At(SPLIT_STORE, "1", "o") && At(SPLIT_STORE, "", "a");
  }

  lemma SplitNets(ip: Addr)
    requires ip in SPLIT_STORE.records
    ensures NetLoaded(SPLIT_STORE, PAIR.dns, HOMES, SplitZones, PAIR.dns.Keys, ip)
  {
    assert LoadsNet(SPLIT_STORE, PAIR.dns, HOMES, SplitZones, ip, if ip == "1" then "o" else "a");
  }

  lemma SplitLoaded()
    ensures Loaded(SPLIT_STORE, PAIR.dns, HOMES, SplitZones, PAIR.dns.Keys)
  {
    hide At, LoadIp, LoadType, WellShaped, NetLoaded, SplitZones;
    SplitAt();
    SplitShape();
    forall ip | ip in SPLIT_STORE.records
      ensures NetLoaded(SPLIT_STORE, PAIR.dns, HOMES, SplitZones, PAIR.dns.Keys, ip)
    {
      SplitNets(ip);
    }
  }

  // ---------- drift ----------

  const GONE_STORE := StoreVal(map["1" := map["a" := A]], map["1" := "v"], map["1" := "c"])
  const GONE := Sys(GONE_STORE, map[], {})
  const BACK_VISITS := [Visit("2", ["a"], ["a"])]

  lemma EmptyHealthy()
    ensures Healthy(map[], {}, HOMES, SameZone) && Loaded(EMPTY_STORE, map[], HOMES, SameZone, {})
    ensures LoadedPlan(map[], {}, HOMES, SameZone) == EMPTY_PLAN
  {
  }

  lemma BackTurn()
    ensures AllAvailable(HOMES, EMPTY_SYS, OneTurn(["a"])) && NetsAgree(HOMES, EMPTY_PLAN.where, OneTurn(["a"]))
    ensures LooseRange(AddPhase(HOMES, EMPTY_SYS, OneTurn(["a"])).st, BACK_VISITS)
  {
    hide AddUnit, Extends, Follows;
    var turns, u := OneTurn(["a"]), Unit(NET, ["a"]);
    assert turns[..0] == [];
    assert AddPhase(HOMES, EMPTY_SYS, []) == EMPTY_SYS && AllAvailable(HOMES, EMPTY_SYS, []);
    EmptySettled();
    AddPhaseSettles(HOMES, EMPTY_SYS, EMPTY_PLAN, turns, turns);
    assert PlanPhase(EMPTY_PLAN, []) == EMPTY_PLAN;
    assert PlanHosts(EMPTY_PLAN, u, "2", 0) == PlanWalk(EMPTY_PLAN, "2", false);
    var p1 := Plan(map["a" := "2"], map["2" := "a"]);
    assert PlanUnit(EMPTY_PLAN, u, "2") == p1;
    var st := AddPhase(HOMES, EMPTY_SYS, turns).st;
    forall v | v in BACK_VISITS ensures LooseVisit(st, v) {
      forall h ensures h in st.records["2"] <==> h in Elements(["a"]) {
        assert At(st, "2", h) <==> h in p1.where;
      }
    }
  }

  /** Somebody has removed the record and the reservation of a: the next tick gives it both again. */
  lemma DriftRepaired()
    ensures var m, e := Memory(GONE, {}, true), Tick(EMPTY_STORE, OneTurn(["a"]), BACK_VISITS);
      && (exists m' :: Step(HOMES, m, e, m'))
      && forall m' :: Step(HOMES, m, e, m') ==> Sound(m'.s, HOMES) && Stored(m'.s.st, "a") && "a" in m'.s.dns
  {
    hide LossyPass, Healthy, Loaded, LoadedPlan, AllAvailable, LooseRange, NetsAgree, Sound, HostsOf, Stored, AddPhase;
    var m, e := Memory(GONE, {}, true), Tick(EMPTY_STORE, OneTurn(["a"]), BACK_VISITS);
    EmptyHealthy();
    BackTurn();
    HostsOfOne(e.turns[0]);
    SomePass(HOMES, m.(s := EMPTY_SYS), e.turns, e.visits);
    assert GONE.(st := EMPTY_STORE) == EMPTY_SYS && GONE_STORE != EMPTY_STORE by {
      assert "1" in GONE_STORE.records;
    }
    assert Unbroken(EMPTY_STORE, {}, HostsOf(e.turns)) && m.s.dns.Keys == {};
    var m0 :| LossyPass(HOMES, m.(s := EMPTY_SYS), e.turns, e.visits, m0);
    assert Step(HOMES, m, e, m0);
    forall m' | Step(HOMES, m, e, m') ensures Sound(m'.s, HOMES) && Stored(m'.s.st, "a") && "a" in m'.s.dns {
      DriftedTick(HOMES, SameZone, m, e, m');
      SoundMeans(m'.s, HOMES);
      assert "a" in HostsOf(e.turns);
    }
  }

  // ---------- aliased removal ----------

  /** Two hosts are taken from a list of three and one of them stays; the sync that follows does not help. */
  lemma OneStaysListed()
    ensures Distinct(["a", "b", "c"]) && GonePair(["a", "b", "c"], ["c"], 0)
    ensures Pruned(["a", "b", "c"], ["c"]) == ["b", "c"] && Merge(["b", "c"], ["c"]) == ["b", "c"]
  {
    hide Prune;
    PruneIsSkipping(["a", "b", "c"], ["c"]);
    assert ["a", "b", "c"][2..] == ["c"];
    assert Skipping(["c"], ["c"]) == ["c"] + Skipping([], ["c"]);
    MergeHas(["b", "c"], ["c"]);
  }

  lemma ClosedLists()
    ensures Closed(["a", "a", "c", "a"], 0, 4) == ["a", "c", "a", "a"]
    ensures Closed(["a", "c", "a", "a"], 0, 3) == ["c", "a", "a", "a"]
    ensures Closed(["c", "a", "a", "a"], 1, 2) == ["c", "a", "a", "a"]
  {
  }

  /** With repeats a gone pair can be made good: each removal takes the first a, and the third is met twice. */
  lemma RepeatsHeal()
    ensures GonePair(["a", "a", "c", "a"], ["c"], 0) && Pruned(["a", "a", "c", "a"], ["c"]) == ["c"]
  {
    hide Prune, Shift, Closed;
    var keep := ["c"];
    var s0, s1 := Slice(["a", "a", "c", "a"], 4), Slice(["a", "c", "a", "a"], 3);
    var s2, s3 := Slice(["c", "a", "a", "a"], 2), Slice(["c", "a", "a", "a"], 1);
    ShiftAt(s0, "a", 0);
    ShiftAt(s1, "a", 0);
    ShiftAt(s2, "a", 1);
    ClosedLists();
    assert Shift(s0, "a") == s1 && Shift(s1, "a") == s2 && Shift(s2, "a") == s3;
    PruneStep(s0, 0, keep);
    PruneStep(s1, 1, keep);
    PruneStep(s1, 2, keep);
    PruneStep(s2, 3, keep);
    PruneEnd(s3, keep);
    assert List(s3) == ["c"] by { assert s3.arr[..1] == ["c"]; }
    assert Pruned(s0.arr, keep) == List(s3);
  }

  // ---------- restart ----------

  /** A client without references drops o: the A record and the address go, a keeps a CNAME to nothing, and
      the store files the empty name as A host. */
  lemma DropWithoutReference(clean: bool)
    ensures var m := Memory(PAIR, {"o", "a"}, clean);
      && Failing.Failing(PAIR, m, {"o", "a"}, {})
      && LossyDrop(HOMES, m, "1", "o", ["a"]) == Memory(
        Sys(MarkA(PAIR.st, "1", ""), map["a" := CRec("o", "v")], {}), {"o", "a"}, clean)
  {
    assert {"1"} - {"1"} == {};
    assert PAIR_DNS - {"o"} == map["a" := CRec("o", "v")];
    assert NetAt(PAIR.st, "1") == NET;
  }

  /** What a tick then finds in the IPAM system, and the store it loads. */
  const DANGLING: Table := map[1 := Record("a", CRec("o", "v"))]
  const DANGLING_DNS: map<Host, Rec> := map["a" := CRec("o", "v")]
  const DANGLING_STORE := StoreVal(map["" := map["a" := CNAME]], map["" := "v"], map["" := ""])

  /** It files a under the empty address, where GetIP does not find it; as the first host of its unit a is given
      an A record beside its CNAME (section 3.6.2 of RFC 1034 allows no such name). */
  lemma NextPassClashes(netview: string, next: Addr)
    ensures Mirrors(DANGLING, map[], DANGLING_DNS) && Exclusive(DANGLING)
    ensures Loaded(DANGLING_STORE, DANGLING_DNS, HOMES, SameZone, DANGLING_DNS.Keys)
    ensures !Healthy(DANGLING_DNS, {}, HOMES, SameZone)
    ensures Controller.Unfound(DANGLING_STORE, "a") && Controller.Clashing(DANGLING, "a", "a", next, netview)
  {
    hide Loaded;
    assert 1 in DANGLING && DANGLING[1].name == "a";
    assert DANGLING_DNS["a"].CRec?;
    DanglingLoaded();
  }

  lemma DanglingLoaded()
    ensures Loaded(DANGLING_STORE, DANGLING_DNS, HOMES, SameZone, DANGLING_DNS.Keys)
  {
    assert At(DANGLING_STORE, "", "a");
    assert LoadsNet(DANGLING_STORE, DANGLING_DNS, HOMES, SameZone, "", "a");
  }

  const KEY := ResourceKey(Ingress, "web", "default")
  const WEB := Resource(true, "", Some(NET), Some(["a"]))
  const WEB_GROUPS: Groups := map[GroupKey("", "v", "c") := [Spec(KEY, ["a"], "v", "c")]]
  const WEB_VISITS := [Visit("1", ["o", "a"], ["o", "a"])]

  function SameZone(h: Host): string { "z" }

  lemma WebListed()
    ensures var k, e := RunEvents(INITIAL, [Added(KEY, WEB)]), Sync(KEY);
      && Inv(k, map[]) && Enabled(k, e) && Regular(k, e) && k.sent == [] && Next(k, e).sent == [WEB_GROUPS]
      && KEY in Next(k, e).cache && Next(k, e).cache[KEY] == WEB
  {
    hide Inv, AddSpec, OnSync;
    assert [Added(KEY, WEB)][..0] == [];
    assert RunEvents(INITIAL, []) == INITIAL;
    StartInv();
    AddInv(INITIAL, map[], KEY, WEB);
    FirstListed(KEY, WEB, ["a"]);
    WebGroups();
    SyncGroups();
  }

  lemma WebGroups()
    ensures AddSpec(map[], GroupKey("", "v", "c"), KEY, ["a"]) == WEB_GROUPS
  {
  }

  lemma SyncGroups()
    ensures OnSync(OnAdd(INITIAL, KEY, WEB), KEY).groups == AddSpec(map[], GroupKey("", "v", "c"), KEY, ["a"])
  {
    hide AddSpec;
  }

  lemma WebUnits()
    ensures Schedule(WEB_GROUPS, OneTurn(["a"])) && GroupHosts(WEB_GROUPS) == {"a"}
  {
    var gk, turns := GroupKey("", "v", "c"), OneTurn(["a"]);
    assert [gk][..0] == [];
    assert UnitsOf(WEB_GROUPS, []) == [];
    assert UnitsOf(WEB_GROUPS, [gk]) == Units(gk, WEB_GROUPS[gk]) == [Unit(NET, ["a"])];
    assert IsSchedule(WEB_GROUPS, [gk], turns);
    WebHosts();
  }

  lemma WebHosts()
    ensures GroupHosts(WEB_GROUPS) == {"a"}
  {
    forall h ensures h in GroupHosts(WEB_GROUPS) <==> h == "a" {
      assert "a" in WEB_GROUPS[GroupKey("", "v", "c")][0].hosts;
    }
  }

  lemma WebNets()
    ensures GroupNets(HOMES, PAIR_PLAN.where, WEB_GROUPS)
  {
    forall k, i, h | k in WEB_GROUPS && 0 <= i < |WEB_GROUPS[k]| && h in WEB_GROUPS[k][i].hosts
      ensures k.name == "" && h == "a" && WEB_GROUPS[k][i].netview == "v" && WEB_GROUPS[k][i].cidr == "c"
    {
    }
  }

  lemma WebRange()
    ensures AllAvailable(HOMES, PAIR, OneTurn(["a"])) &&
      LooseRange(AddPhase(HOMES, PAIR, OneTurn(["a"])).st, WEB_VISITS)
  {
    hide AddPhase, AllAvailable, NetsAgree, HostsOf, Extends, Follows;
    var turns, u := OneTurn(["a"]), Unit(NET, ["a"]);
    PairSettled();
    OneTurnFacts(["a"]);
    AddPhaseSettles(HOMES, PAIR, PAIR_PLAN, turns, turns);
    assert PlanHosts(PAIR_PLAN, u, "2", 0).p == PAIR_PLAN;
    assert PlanUnit(PAIR_PLAN, u, "2") == PAIR_PLAN;
    var st := AddPhase(HOMES, PAIR, turns).st;
    forall v | v in WEB_VISITS ensures LooseVisit(st, v) {
      forall h ensures h in st.records["1"] <==> h in Elements(["o", "a"]) {
        assert At(st, "1", h) <==> h in PAIR_PLAN.where;
      }
    }
  }

  lemma PairLoaded()
    ensures Healthy(PAIR.dns, PAIR.reserved, HOMES, SameZone) &&
      Loaded(PAIR.st, PAIR.dns, HOMES, SameZone, PAIR.dns.Keys)
    ensures LoadedPlan(PAIR.dns, PAIR.reserved, HOMES, SameZone) == PAIR_PLAN
  {
    hide Settled, Healthy, Loaded, LoadedPlan;
    PairSettled();
    CoherentIffRebuilt(PAIR, HOMES, SameZone);
    LoadedIsCoherent(PAIR, HOMES, SameZone);
    var p := LoadedPlan(PAIR.dns, PAIR.reserved, HOMES, SameZone);
    SettledStrict(PAIR, HOMES, p);
    PlanUnique(PAIR, HOMES, p, PAIR_PLAN);
  }

  /** A restart while the groups have come to name a only: the first snapshot lists a, the first pass drops o
      without a reference, and a is stored where it was but has lost its service. */
  lemma RestartLosesService(clean: bool)
    ensures var k, e, m := RunEvents(INITIAL, [Added(KEY, WEB)]), Sync(KEY), Memory(PAIR, PAIR.dns.Keys, clean);
      && Inv(k, map[]) && Enabled(k, e) && Regular(k, e) && k.sent == [] && Next(k, e).sent == [WEB_GROUPS]
      && Healthy(PAIR.dns, PAIR.reserved, HOMES, SameZone) && Loaded(PAIR.st, PAIR.dns, HOMES, SameZone, PAIR.dns.Keys)
      && (exists m' :: LossyPass(HOMES, m, OneTurn(["a"]), WEB_VISITS, m'))
      && (forall m' :: LossyPass(HOMES, m, OneTurn(["a"]), WEB_VISITS, m') ==>
          At(m'.s.st, "1", "a") && !("1" in m'.s.reserved && Resolves(m'.s.dns, "a", "1")))
  {
    hide Inv, Enabled, Regular, Next, RunEvents, Healthy, Loaded, LoadedPlan, GroupNets, Schedule, AllAvailable,
      LooseRange, AddPhase, LossyPass, GroupHosts, Resolves;
    var k, e, m, turns :=
      RunEvents(INITIAL, [Added(KEY, WEB)]), Sync(KEY), Memory(PAIR, PAIR.dns.Keys, clean), OneTurn(["a"]);
    WebListed();
    WebUnits();
    WebNets();
    WebRange();
    PairLoaded();
    SomePass(HOMES, m, turns, WEB_VISITS);
    forall m' | LossyPass(HOMES, m, turns, WEB_VISITS, m')
      ensures At(m'.s.st, "1", "a") && !("1" in m'.s.reserved && Resolves(m'.s.dns, "a", "1"))
    {
      FirstPassKeepsHosts(k, map[], e, HOMES, SameZone, PAIR, clean, turns, WEB_VISITS, m', KEY, "a", "1");
      assert AHost(PAIR.st, "1", "o") && "o" !in GroupHosts(WEB_GROUPS);
    }
  }
}
