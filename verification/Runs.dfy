/**
 Whole runs of the controller: snapshots from the orchestration client and verify ticks, in any order,
 with no other change to the IPAM system.  A run is the list of the states it goes through.
 */
module Runs {
  import opened Types
  import opened StoreSpec
  import opened Reconcile
  import opened Addition
  import opened Attachment
  import opened Removal
  import opened Pass
  import opened Coherence
  import opened Rebuild
  import opened Zones
  import opened Lossy

  /** A snapshot is processed with its units, free addresses and map orders.  A tick rebuilds a store;
      if that is not the controller's store, it replaces it and the latest groups are processed again. */
  datatype Event =
    | Snapshot(turns: seq<Turn>, visits: seq<Visit>)
    | Tick(loaded: StoreVal, turns: seq<Turn>, visits: seq<Visit>)

  ghost predicate Step(homes: Homes, m: Memory, e: Event, m': Memory) {
    match e
    case Snapshot(turns, visits) => LossyPass(homes, m, turns, visits, m')
    case Tick(loaded, turns, visits) =>
      if loaded != m.s.st then LossyPass(homes, m.(s := m.s.(st := loaded)), turns, visits, m') else m' == m
  }

  ghost predicate Run(homes: Homes, ms: seq<Memory>, events: seq<Event>) {
    |ms| == |events| + 1 && forall i :: 0 <= i < |events| ==> Step(homes, ms[i], events[i], ms[i + 1])
  }

  /** What is asked of a snapshot beside fitting units: free addresses, units that stay in their networks, and
      the references its promotions need. */
  ghost predicate Acceptable(homes: Homes, m: Memory, p: Plan, turns: seq<Turn>, visits: seq<Visit>) {
    && Settled(m.s, homes, p, true) && "" !in HostsOf(turns)
    && AllAvailable(homes, m.s, turns) && LooseRange(AddPhase(homes, m.s, turns).st, visits)
    && NetsAgree(homes, p.where, turns) && Unbroken(m.s.st, m.lost, HostsOf(turns))
  }

  /** Every unit fits the store its turn finds, from the system the snapshot finds on. */
  ghost predicate Fits(homes: Homes, m: Memory, turns: seq<Turn>) {
    exists p :: Settled(m.s, homes, p, true) && FittingInTurn(p, turns, HostsOf(turns))
  }

  /** So does the zone of every new host. */
  ghost predicate FitsZones(homes: Homes, zone: ZoneOf, m: Memory, turns: seq<Turn>) {
    exists p :: Settled(m.s, homes, p, true) && ZonedInTurn(p, turns, HostsOf(turns), zone)
  }

  /** A snapshot is acceptable if it finds a coherent system; a tick loads what the IPAM system holds. */
  ghost predicate EventOK(homes: Homes, zone: ZoneOf, m: Memory, e: Event) {
    match e
    case Snapshot(turns, visits) => Coherent(m.s, homes) ==> exists p :: Acceptable(homes, m, p, turns, visits)
    case Tick(loaded, _, _) => Loaded(loaded, m.s.dns, homes, zone, m.s.dns.Keys)
  }

  /** What a run keeps: a coherent system without CNAMEs across zones and without a record for the empty name. */
  ghost predicate Good(homes: Homes, zone: ZoneOf, m: Memory) {
    Coherent(m.s, homes) && OneZone(m.s.dns, zone) && "" !in m.s.dns
  }

  /** A tick of a coherent system finds no drift and does nothing. */
  lemma TickIdle(homes: Homes, zone: ZoneOf, m: Memory, e: Event, m': Memory)
    requires Coherent(m.s, homes) && OneZone(m.s.dns, zone) && "" !in homes
    requires e.Tick? && EventOK(homes, zone, m, e) && Step(homes, m, e, m')
    ensures m' == m
  {
    hide LossyPass, Coherent, OneZone, Loaded, OneView, Healthy;
    LoadedIffOneZone(m.s, homes, zone);
    CoherentIsHealthy(m.s, homes, zone);
    HealthyOneView(m.s.dns, m.s.reserved, homes, zone);
    LoadedUnique(m.s.st, e.loaded, m.s.dns, homes, zone, m.s.dns.Keys);
  }

  // ---------- a tick that finds drift ----------

  /** Whatever has happened to the IPAM system, as long as it is healthy: a tick that loads another store than the
      controller's reconciles it with the groups at once.  Afterwards the system is sound, exactly the hosts of the
      groups are stored, and those the IPAM system still knew have kept the addresses it has for them.  A tick that
      loads the same store changes nothing. */
  lemma DriftedTick(homes: Homes, zone: ZoneOf, m: Memory, e: Event, m': Memory)
    requires e.Tick? && Step(homes, m, e, m') && "" !in homes && "" !in m.s.dns && "" !in HostsOf(e.turns)
    requires Healthy(m.s.dns, m.s.reserved, homes, zone) && Loaded(e.loaded, m.s.dns, homes, zone, m.s.dns.Keys)
    ensures e.loaded == m.s.st ==> m' == m
    ensures var s := m.s.(st := e.loaded);
      && e.loaded != m.s.st && m.lost <= m.s.dns.Keys && Unbroken(e.loaded, m.lost, HostsOf(e.turns))
      && AllAvailable(homes, s, e.turns) && LooseRange(AddPhase(homes, s, e.turns).st, e.visits)
      && NetsAgree(homes, LoadedPlan(m.s.dns, m.s.reserved, homes, zone).where, e.turns) ==>
        && Sound(m'.s, homes) && Converged(e.loaded, m'.s.st, HostsOf(e.turns)) && m'.clean == m.clean
  {
    hide LossyPass, Healthy, Loaded, LoadedPlan, Settled, NetsAgree, HostsOf, Unbroken, AllAvailable, LooseRange,
      RunPass, Possible, NamedAll, Sound, Converged, Coherent;
    var s, p := m.s.(st := e.loaded), LoadedPlan(m.s.dns, m.s.reserved, homes, zone);
    LoadedIsCoherent(s, homes, zone);
    SettledStrict(s, homes, p);
    SettledPlanOK(s, homes, p, true);
    if && e.loaded != m.s.st && m.lost <= m.s.dns.Keys && Unbroken(e.loaded, m.lost, HostsOf(e.turns))
       && AllAvailable(homes, s, e.turns) && LooseRange(AddPhase(homes, s, e.turns).st, e.visits)
       && NetsAgree(homes, p.where, e.turns) {
      RecalledPass(homes, m.(s := s), p, e.turns, e.visits, m');
      PassConverges(homes, s, p, e.turns, NamedAll(e.visits));
    }
  }

  // ---------- one snapshot ----------

  /** One snapshot from a good state, whose units may share hosts: the next state is coherent if and only if
      every unit fits, and good if and only if the zones fit as well, as they do when no unit crosses a zone. */
  lemma SnapshotGoodIff(homes: Homes, zone: ZoneOf, m: Memory, turns: seq<Turn>, visits: seq<Visit>, m': Memory)
    requires Good(homes, zone, m) && m.lost <= m.s.dns.Keys && "" !in homes
    requires EventOK(homes, zone, m, Snapshot(turns, visits)) && LossyPass(homes, m, turns, visits, m')
    ensures Coherent(m'.s, homes) <==> Fits(homes, m, turns)
    ensures Good(homes, zone, m') <==> Fits(homes, m, turns) && FitsZones(homes, zone, m, turns)
    ensures Coherent(m'.s, homes) && UnitsInOneZone(turns, zone) ==> FitsZones(homes, zone, m, turns)
    ensures m'.clean == m.clean && m'.lost <= m.lost && m'.lost <= m'.s.dns.Keys
    ensures Uniform(m.s.st, m.lost) ==> Uniform(m'.s.st, m'.lost)
  {
    hide LossyPass, Settled, NetsAgree, HostsOf, Unbroken, AllAvailable, LooseRange, RunPass, OneZone, FittingInTurn,
      ZonedInTurn, UnitsInOneZone, Possible, NamedAll, Coherent, Uniform, Converged, Sound, Fits, FitsZones;
    var p :| Acceptable(homes, m, p, turns, visits);
    SettledStrict(m.s, homes, p);
    SettledPlanOK(m.s, homes, p, true);
    RecalledPass(homes, m, p, turns, visits, m');
    var named := NamedAll(visits);
    PassKeepsCoherentIff(homes, m.s, p, turns, named);
    FitsIff(homes, zone, m, p, turns);
    PassConverges(homes, m.s, p, turns, named);
    SoundMeans(RunPass(homes, m.s, turns, named), homes);
    NamesConverged(homes, m.s, RunPass(homes, m.s, turns, named), HostsOf(turns));
    if Coherent(m'.s, homes) {
      PassKeepsZonesIff(homes, m.s, p, turns, named, zone);
    }
  }

  lemma NamesConverged(homes: Homes, s: Sys, s': Sys, wanted: set<Host>)
    requires Converged(s.st, s'.st, wanted) && "" !in wanted && forall h :: h in s'.dns <==> Stored(s'.st, h)
    ensures "" !in s'.dns
  {
  }

  lemma FitsIff(homes: Homes, zone: ZoneOf, m: Memory, p: Plan, turns: seq<Turn>)
    requires Settled(m.s, homes, p, true)
    ensures Fits(homes, m, turns) <==> FittingInTurn(p, turns, HostsOf(turns))
    ensures FitsZones(homes, zone, m, turns) <==> ZonedInTurn(p, turns, HostsOf(turns), zone)
  {
    hide Settled, HostsOf, FittingInTurn, ZonedInTurn;
    forall q | Settled(m.s, homes, q, true) ensures q == p {
      SettledStrict(m.s, homes, p);
      SettledStrict(m.s, homes, q);
      PlanUnique(m.s, homes, p, q);
    }
  }

  /** What holds of every state of a run whose snapshots fit: it is good, no release has missed, no
      reference has been lost, and addresses are uniform if they were. */
  ghost predicate Kept(homes: Homes, zone: ZoneOf, m0: Memory, m: Memory) {
    && Good(homes, zone, m) && m.lost <= m0.lost && m.lost <= m.s.dns.Keys && m.clean == m0.clean
    && (Uniform(m0.s.st, m0.lost) ==> Uniform(m.s.st, m.lost))
  }

  /** The snapshots among the first n events fit the states they find, zones included. */
  ghost predicate AllFit(homes: Homes, zone: ZoneOf, ms: seq<Memory>, events: seq<Event>, n: nat)
    requires n <= |events| < |ms|
  {
    forall i :: 0 <= i < n && events[i].Snapshot? ==>
      Fits(homes, ms[i], events[i].turns) && FitsZones(homes, zone, ms[i], events[i].turns)
  }

  ghost predicate RunOK(homes: Homes, zone: ZoneOf, ms: seq<Memory>, events: seq<Event>) {
    && Run(homes, ms, events) && forall i :: 0 <= i < |events| ==> EventOK(homes, zone, ms[i], events[i])
  }

  lemma {:induction false} RunKeeps(homes: Homes, zone: ZoneOf, ms: seq<Memory>, events: seq<Event>, n: nat)
    requires "" !in homes && RunOK(homes, zone, ms, events) && n <= |events| && AllFit(homes, zone, ms, events, n)
    requires Kept(homes, zone, ms[0], ms[0])
    ensures Kept(homes, zone, ms[0], ms[n])
  {
    hide EventOK, LossyPass, Fits, FitsZones, Coherent, OneZone, Uniform;
    if n > 0 {
      RunKeeps(homes, zone, ms, events, n - 1);
      assert EventOK(homes, zone, ms[n - 1], events[n - 1]) && Step(homes, ms[n - 1], events[n - 1], ms[n - 1 + 1]);
      match events[n - 1] {
        case Snapshot(turns, visits) => SnapshotGoodIff(homes, zone, ms[n - 1], turns, visits, ms[n]);
        case Tick(_, _, _) => TickIdle(homes, zone, ms[n - 1], events[n - 1], ms[n]);
      }
    }
  }

  lemma {:induction false} GoodRunFits(homes: Homes, zone: ZoneOf, ms: seq<Memory>, events: seq<Event>, n: nat)
    requires "" !in homes && RunOK(homes, zone, ms, events) && n <= |events|
    requires Kept(homes, zone, ms[0], ms[0]) && forall i :: 0 <= i <= n ==> Good(homes, zone, ms[i])
    ensures AllFit(homes, zone, ms, events, n)
  {
    hide EventOK, LossyPass, Fits, FitsZones, Kept, Good, UnitsInOneZone, Coherent, OneZone;
    if n > 0 {
      GoodRunFits(homes, zone, ms, events, n - 1);
      RunKeeps(homes, zone, ms, events, n - 1);
      KeptMeans(homes, zone, ms[0], ms[n - 1]);
      assert EventOK(homes, zone, ms[n - 1], events[n - 1]) && Step(homes, ms[n - 1], events[n - 1], ms[n - 1 + 1]);
      if events[n - 1].Snapshot? {
        SnapshotGoodIff(homes, zone, ms[n - 1], events[n - 1].turns, events[n - 1].visits, ms[n]);
      }
    }
  }

  /** No unit of a snapshot crosses a zone. */
  ghost predicate ZonesApart(events: seq<Event>, zone: ZoneOf) {
    forall i :: 0 <= i < |events| && events[i].Snapshot? ==> UnitsInOneZone(events[i].turns, zone)
  }

  lemma {:induction false} CoherentRunGood(homes: Homes, zone: ZoneOf, ms: seq<Memory>, events: seq<Event>, n: nat)
    requires "" !in homes && RunOK(homes, zone, ms, events) && n <= |events| && ZonesApart(events, zone)
    requires Kept(homes, zone, ms[0], ms[0]) && forall i :: 0 <= i <= n ==> Coherent(ms[i].s, homes)
    ensures AllFit(homes, zone, ms, events, n)
  {
    hide EventOK, LossyPass, Fits, FitsZones, Coherent, Kept, Good, UnitsInOneZone;
    if n > 0 {
      CoherentRunGood(homes, zone, ms, events, n - 1);
      RunKeeps(homes, zone, ms, events, n - 1);
      KeptMeans(homes, zone, ms[0], ms[n - 1]);
      assert EventOK(homes, zone, ms[n - 1], events[n - 1]) && Step(homes, ms[n - 1], events[n - 1], ms[n - 1 + 1]);
      if events[n - 1].Snapshot? {
        SnapshotGoodIff(homes, zone, ms[n - 1], events[n - 1].turns, events[n - 1].visits, ms[n]);
      }
    }
  }

  lemma KeptMeans(homes: Homes, zone: ZoneOf, m0: Memory, m: Memory)
    requires Kept(homes, zone, m0, m)
    ensures Good(homes, zone, m) && Coherent(m.s, homes) && OneZone(m.s.dns, zone) && m.lost <= m.s.dns.Keys
  {
  }

  /** A whole run from a good system: every state of it is good if and only if every snapshot fits the state it
      finds, zones included. */
  lemma RunGoodIff(homes: Homes, zone: ZoneOf, ms: seq<Memory>, events: seq<Event>)
    requires "" !in homes && RunOK(homes, zone, ms, events) && Kept(homes, zone, ms[0], ms[0])
    ensures (forall i :: 0 <= i <= |events| ==> Good(homes, zone, ms[i])) <==>
      AllFit(homes, zone, ms, events, |events|)
  {
    hide EventOK, Step, Good, Kept, AllFit;
    if AllFit(homes, zone, ms, events, |events|) {
      forall i | 0 <= i <= |events| ensures Good(homes, zone, ms[i]) {
        FitEarlier(homes, zone, ms, events, i);
        RunKeeps(homes, zone, ms, events, i);
        KeptMeans(homes, zone, ms[0], ms[i]);
      }
    }
    if forall i :: 0 <= i <= |events| ==> Good(homes, zone, ms[i]) {
      GoodRunFits(homes, zone, ms, events, |events|);
    }
  }

  lemma FitEarlier(homes: Homes, zone: ZoneOf, ms: seq<Memory>, events: seq<Event>, n: nat)
    requires n <= |events| < |ms| && AllFit(homes, zone, ms, events, |events|)
    ensures AllFit(homes, zone, ms, events, n)
  {
    hide Fits, FitsZones;
  }

  /** When no unit crosses a zone: every state of it is coherent if and only if every unit fits the store its turn
      finds. */
  lemma RunCoherentIff(homes: Homes, zone: ZoneOf, ms: seq<Memory>, events: seq<Event>)
    requires "" !in homes && RunOK(homes, zone, ms, events) && Kept(homes, zone, ms[0], ms[0])
    requires ZonesApart(events, zone)
    ensures (forall i :: 0 <= i <= |events| ==> Coherent(ms[i].s, homes)) <==>
      forall i :: 0 <= i < |events| && events[i].Snapshot? ==> Fits(homes, ms[i], events[i].turns)
  {
    hide EventOK, Step, Coherent, Kept, Fits, FitsZones, Good;
    if forall i :: 0 <= i <= |events| ==> Coherent(ms[i].s, homes) {
      CoherentRunGood(homes, zone, ms, events, |events|);
    }
    if forall i :: 0 <= i < |events| && events[i].Snapshot? ==> Fits(homes, ms[i], events[i].turns) {
      forall i | 0 <= i <= |events| ensures Coherent(ms[i].s, homes) {
        FittingRunKeeps(homes, zone, ms, events, i);
        KeptMeans(homes, zone, ms[0], ms[i]);
      }
    }
  }

  lemma {:induction false} FittingRunKeeps(homes: Homes, zone: ZoneOf, ms: seq<Memory>, events: seq<Event>, n: nat)
    requires "" !in homes && RunOK(homes, zone, ms, events) && n <= |events| && ZonesApart(events, zone)
    requires forall i :: 0 <= i < n && events[i].Snapshot? ==> Fits(homes, ms[i], events[i].turns)
    requires Kept(homes, zone, ms[0], ms[0])
    ensures AllFit(homes, zone, ms, events, n) && Kept(homes, zone, ms[0], ms[n])
  {
    hide EventOK, LossyPass, Fits, FitsZones, Coherent, Kept, Good, UnitsInOneZone;
    if n > 0 {
      FittingRunKeeps(homes, zone, ms, events, n - 1);
      KeptMeans(homes, zone, ms[0], ms[n - 1]);
      assert EventOK(homes, zone, ms[n - 1], events[n - 1]) && Step(homes, ms[n - 1], events[n - 1], ms[n - 1 + 1]);
      if events[n - 1].Snapshot? {
        SnapshotGoodIff(homes, zone, ms[n - 1], events[n - 1].turns, events[n - 1].visits, ms[n]);
      }
      assert AllFit(homes, zone, ms, events, n);
    }
    RunKeeps(homes, zone, ms, events, n);
  }

  /** In such a run every state is good, its store is the one GetRecords would rebuild, and every tick is a
      no-op; no release has missed and no reference has been lost. */
  lemma RunKeepsCoherent(homes: Homes, zone: ZoneOf, ms: seq<Memory>, events: seq<Event>, i: nat)
    requires "" !in homes && RunOK(homes, zone, ms, events) && Kept(homes, zone, ms[0], ms[0])
    requires i <= |events| && AllFit(homes, zone, ms, events, i)
    ensures Kept(homes, zone, ms[0], ms[i])
    ensures Loaded(ms[i].s.st, ms[i].s.dns, homes, zone, ms[i].s.dns.Keys)
    ensures i < |events| && events[i].Tick? ==> ms[i + 1] == ms[i]
  {
    hide EventOK, LossyPass, Fits, FitsZones, Coherent, OneZone, Loaded, Kept;
    RunKeeps(homes, zone, ms, events, i);
    KeptMeans(homes, zone, ms[0], ms[i]);
    LoadedIffOneZone(ms[i].s, homes, zone);
    if i < |events| && events[i].Tick? {
      assert EventOK(homes, zone, ms[i], events[i]) && Step(homes, ms[i], events[i], ms[i + 1]);
      TickIdle(homes, zone, ms[i], events[i], ms[i + 1]);
    }
  }

  const EMPTY_SYS := Sys(EMPTY_STORE, map[], {})

  /** Every run may start with an empty IPAM system and an empty store; then no reference is ever missed. */
  lemma FreshStart(homes: Homes, zone: ZoneOf)
    ensures var m := Memory(EMPTY_SYS, {}, true); Kept(homes, zone, m, m)
    ensures forall m', st, wanted ::
      Kept(homes, zone, Memory(EMPTY_SYS, {}, true), m') ==> Unbroken(st, m'.lost, wanted)
  {
    forall m', st, wanted | Kept(homes, zone, Memory(EMPTY_SYS, {}, true), m') ensures Unbroken(st, m'.lost, wanted) {
      assert m'.lost == {};
      NothingLost(st, wanted);
    }
    assert Settled(EMPTY_SYS, homes, Plan(map[], map[]), true);
  }

  /** Or with a store loaded from a healthy IPAM system and no reference at all. */
  lemma LoadedStart(homes: Homes, zone: ZoneOf, s: Sys)
    requires Healthy(s.dns, s.reserved, homes, zone) && Loaded(s.st, s.dns, homes, zone, s.dns.Keys) && "" !in s.dns
    ensures var m := Memory(s, s.dns.Keys, true); Kept(homes, zone, m, m) && Uniform(s.st, m.lost)
  {
    hide LoadIp, Loaded, LoadedPlan;
    LoadedIsCoherent(s, homes, zone);
    LoadedLive(s, homes, zone);
  }

  lemma LoadedLive(s: Sys, homes: Homes, zone: ZoneOf)
    requires Loaded(s.st, s.dns, homes, zone, s.dns.Keys)
    ensures Uniform(s.st, s.dns.Keys)
  {
    AllLostUniform(s.st, s.dns);
  }
}
