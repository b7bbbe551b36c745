/**
 A pass that finds every host of the groups stored, and no other host, changes nothing: each fresh
 reservation goes back to the network it came from and nothing is doomed.
 */
module FixedPoint {
  import opened Types
  import opened StoreSpec
  import opened Reconcile
  import opened Addition
  import opened Removal
  import opened Pass

  lemma {:induction false} PlaceHostsIdle(s: Sys, u: Unit, next: Addr, n: nat)
    requires n <= |u.hosts| && "" !in s.st.records
    requires forall h :: h in u.hosts ==> Stored(s.st, h)
    ensures PlaceHosts(s, u, next, n).s == s.(reserved := s.reserved + {next})
    ensures !PlaceHosts(s, u, next, n).used
  {
    if n > 0 {
      PlaceHostsIdle(s, u, next, n - 1);
      assert u.hosts[n - 1] in u.hosts;
      assert At(s.st, IpOf(s.st, u.hosts[n - 1]), u.hosts[n - 1]);
    }
  }

  lemma {:induction false} AddPhaseIdle(homes: Homes, s: Sys, turns: seq<Turn>)
    requires AllAvailable(homes, s, turns) && "" !in s.st.records
    requires forall h :: h in HostsOf(turns) ==> Stored(s.st, h)
    ensures AddPhase(homes, s, turns) == s
  {
    hide PlaceHosts, HostsOf;
    if turns != [] {
      var init, t := turns[..|turns| - 1], turns[|turns| - 1];
      SnocTurns(turns);
      AddPhaseIdle(homes, s, init);
      assert forall h :: h in t.unit.hosts ==> h in Elements(t.unit.hosts);
      PlaceHostsIdle(s, t.unit, t.next, |t.unit.hosts|);
      assert s.reserved + {t.next} - {t.next} == s.reserved;
    }
  }

  lemma {:induction false} SweepHostsIdle(homes: Homes, w: Sweep, ip: Addr, wanted: set<Host>, order: seq<Host>)
    requires forall h :: h in order ==> h in wanted
    ensures SweepHosts(homes, w, ip, wanted, order) == w
  {
    if order != [] {
      SweepHostsIdle(homes, w, ip, wanted, order[..|order| - 1]);
      assert order[|order| - 1] in order;
    }
  }

  lemma {:induction false} SweepStoreIdle(homes: Homes, s: Sys, wanted: set<Host>, visits: seq<Visit>)
    requires forall v, h :: v in visits && h in v.order ==> h in wanted
    ensures SweepStore(homes, s, wanted, visits).s == s && SweepStore(homes, s, wanted, visits).gone == []
  {
    hide SweepHosts;
    if visits != [] {
      var init, v := visits[..|visits| - 1], visits[|visits| - 1];
      SweepStoreIdle(homes, s, wanted, init);
      assert v in visits;
      SweepHostsIdle(homes, Sweep(s, v.avail, []), v.ip, wanted, v.order);
    }
  }

  /** The fixed point, for every choice of addresses and orders. */
  lemma PassIdle(homes: Homes, s: Sys, turns: seq<Turn>, visits: seq<Visit>)
    requires "" !in s.st.records && Possible(homes, s, turns, visits)
    requires forall h :: Stored(s.st, h) <==> h in HostsOf(turns)
    ensures RunPass(homes, s, turns, visits) == s
  {
    hide AddPhase, AllAvailable, HostsOf;
    AddPhaseIdle(homes, s, turns);
    forall v, h | v in visits && h in v.order ensures h in HostsOf(turns) {
      assert h in Elements(v.order);
      assert At(s.st, v.ip, h);
    }
    SweepStoreIdle(homes, s, HostsOf(turns), visits);
  }

  lemma NoEmptyKey(homes: Homes, s: Sys)
    requires Sound(s, homes) && "" !in homes
    ensures "" !in s.st.records
  {
    var p :| Settled(s, homes, p, false);
  }

  /** A second pass over the same hosts, grouped and ordered in any way and with any free addresses on
      offer, leaves the store, the records and the reservations of the first as they are. */
  lemma SecondPassIdle(homes: Homes, s: Sys, p: Plan, turns: seq<Turn>, visits: seq<Visit>, turns': seq<Turn>,
      visits': seq<Visit>)
    requires Settled(s, homes, p, false) && "" !in homes
    requires Possible(homes, s, turns, visits) && NetsAgree(homes, p.where, turns)
    requires HostsOf(turns') == HostsOf(turns)
    requires Possible(homes, RunPass(homes, s, turns, visits), turns', visits')
    ensures RunPass(homes, RunPass(homes, s, turns, visits), turns', visits') == RunPass(homes, s, turns, visits)
  {
    hide RunPass, Possible, HostsOf, Settled, NetsAgree, Sound;
    PassConverges(homes, s, p, turns, visits);
    var s' := RunPass(homes, s, turns, visits);
    NoEmptyKey(homes, s');
    PassIdle(homes, s', turns', visits');
  }
}
