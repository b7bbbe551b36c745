/**
 The update handlers range over a spec's host list while removeHost shifts the very array they range
 over: the range keeps the array and length it started with, the list shrinks underneath.
 */
module HostSlice {
  import opened Types

  /** A Go slice: the first len elements of an array that ranges over the old, longer list still see. */
  datatype Slice = Slice(arr: seq<Host>, len: nat)

  predicate Fits(s: Slice) {
    s.len <= |s.arr|
  }

  function List(s: Slice): seq<Host>
    requires Fits(s)
  {
    s.arr[..s.len]
  }

  /** append(hosts[:j], hosts[j+1:]...) for the first j that holds h: the elements behind it move one
      place down and the array's old last place keeps its value. */
  function Shift(s: Slice, h: Host): (r: Slice)
    requires Fits(s)
    ensures Fits(r) && |r.arr| == |s.arr|
  {
    var j := IndexOf(List(s), h);
    if j == s.len then s
    else Slice(s.arr[..j] + s.arr[j + 1..s.len] + s.arr[s.len - 1..], s.len - 1)
  }

  lemma ShiftIsWithout(s: Slice, h: Host)
    requires Fits(s)
    ensures List(Shift(s, h)) == Without(List(s), h)
  {
    hide Without, IndexOf;
    var l := List(s);
    WithoutIndex(l, h);
    var j := IndexOf(l, h);
    if j < s.len {
      assert l[..j] == s.arr[..j] && l[j + 1..] == s.arr[j + 1..s.len];
      assert List(Shift(s, h)) == l[..j] + l[j + 1..];
    }
  }

  lemma {:induction false} WithoutIndex(s: seq<Host>, h: Host)
    ensures var j := IndexOf(s, h); Without(s, h) == if j == |s| then s else s[..j] + s[j + 1..]
  {
    if s != [] && s[0] != h {
      var rest, j := s[1..], IndexOf(s[1..], h);
      WithoutIndex(rest, h);
      assert s == [s[0]] + rest;
      if j < |rest| {
        assert s[..j + 1] == [s[0]] + rest[..j];
        assert s[j + 2..] == rest[j + 1..];
        assert [s[0]] + (rest[..j] + rest[j + 1..]) == ([s[0]] + rest[..j]) + rest[j + 1..];
      }
    }
  }

  /** The handler's loop from place i on: whatever stands there is removed unless it is still listed. */
  function Prune(s: Slice, i: nat, keep: seq<Host>): (r: Slice)
    requires Fits(s) && i <= |s.arr|
    ensures Fits(r)
    decreases |s.arr| - i
  {
    if i == |s.arr| then s
    else Prune(if s.arr[i] in keep then s else Shift(s, s.arr[i]), i + 1, keep)
  }

  /** The hosts of a list that are still listed, in order. */
  function Kept(s: seq<Host>, keep: seq<Host>): seq<Host> {
    if s == [] then []
    else if s[0] in keep then [s[0]] + Kept(s[1..], keep)
    else Kept(s[1..], keep)
  }

  lemma {:induction false} KeptWithout(s: seq<Host>, h: Host, keep: seq<Host>)
    requires h !in keep
    ensures Kept(Without(s, h), keep) == Kept(s, keep)
  {
    if s != [] && s[0] != h {
      KeptWithout(s[1..], h, keep);
      assert ([s[0]] + Without(s[1..], h))[1..] == Without(s[1..], h);
    }
  }

  /** On every list, with or without repeats: no host that is still listed is lost, repeated or moved. */
  lemma {:induction false} PruneKeeps(s: Slice, i: nat, keep: seq<Host>)
    requires Fits(s) && i <= |s.arr|
    ensures Kept(List(Prune(s, i, keep)), keep) == Kept(List(s), keep)
    decreases |s.arr| - i
  {
    if i < |s.arr| {
      if s.arr[i] in keep {
        PruneKeeps(s, i + 1, keep);
      } else {
        PruneKeeps(Shift(s, s.arr[i]), i + 1, keep);
        ShiftIsWithout(s, s.arr[i]);
        KeptWithout(List(s), s.arr[i], keep);
      }
    }
  }

  /** What the loop leaves of a list without repeats: the host behind a removed one is skipped, except
      that the last host is always looked at, since its value stays behind in the array. */
  function Skipping(s: seq<Host>, keep: seq<Host>): seq<Host> {
    if s == [] then []
    else if s[0] in keep then [s[0]] + Skipping(s[1..], keep)
    else if |s| <= 2 then Kept(s[1..], keep)
    else [s[1]] + Skipping(s[2..], keep)
  }

  /** Place i of the loop, r removals in: what was read is settled, the rest has moved r places down, and
      the places past the list hold copies of the last host. */
  ghost predicate Midway(l: seq<Host>, s: Slice, i: nat, r: nat) {
    && l != [] && Distinct(l) && |s.arr| == |l| && s.len + r == |l| && i <= s.len
    && s.arr[i..s.len] == l[i + r..]
    && (forall k :: s.len <= k < |l| ==> s.arr[k] == l[|l| - 1])
    && (forall k :: 0 <= k < i ==> s.arr[k] !in l[i + r..])
  }

  /** What append(a[:j], a[j+1:len]...) leaves in the array. */
  function Closed(a: seq<Host>, j: nat, len: nat): seq<Host>
    requires j < len <= |a|
  {
    a[..j] + a[j + 1..len] + a[len - 1..]
  }

  lemma ShiftAt(s: Slice, h: Host, j: nat)
    requires Fits(s) && j < s.len && s.arr[j] == h && h !in s.arr[..j]
    ensures Shift(s, h) == Slice(Closed(s.arr, j, s.len), s.len - 1)
  {
    assert List(s)[..j] == s.arr[..j];
    FirstAt(List(s), h, j);
  }

  lemma ShiftNone(s: Slice, h: Host)
    requires Fits(s) && h !in s.arr[..s.len]
    ensures Shift(s, h) == s
  {
  }

  lemma PruneStep(s: Slice, i: nat, keep: seq<Host>)
    requires Fits(s) && i < |s.arr|
    ensures Prune(s, i, keep) == Prune(if s.arr[i] in keep then s else Shift(s, s.arr[i]), i + 1, keep)
    ensures Shift(s, s.arr[i]).len <= s.len && (i < s.len ==> Shift(s, s.arr[i]).len < s.len)
  {
    if i < s.len { assert List(s)[i] == s.arr[i]; }
  }

  lemma PruneEnd(s: Slice, keep: seq<Host>)
    requires Fits(s)
    ensures Prune(s, |s.arr|, keep) == s
  {
  }

  lemma ClosedParts(a: seq<Host>, j: nat, len: nat)
    requires j < len <= |a|
    ensures |Closed(a, j, len)| == |a|
    ensures Closed(a, j, len)[..j] == a[..j] && Closed(a, j, len)[j..len - 1] == a[j + 1..len]
    ensures forall k :: len - 1 <= k < |a| ==> Closed(a, j, len)[k] == a[k]
  {
  }

  /** Removing the host that has just been read. */
  lemma ShiftMidway(l: seq<Host>, s: Slice, i: nat, r: nat)
    requires Midway(l, s, i, r) && i < s.len
    ensures s.arr[i] == l[i + r] && Fits(s)
    ensures var s' := Shift(s, s.arr[i]);
      && s'.len == s.len - 1 && |s'.arr| == |s.arr| && s'.arr[..i] == s.arr[..i] && s'.arr[i..s'.len] == l[i + r + 1..]
      && (forall k :: s'.len <= k < |l| ==> s'.arr[k] == l[|l| - 1])
  {
    hide Shift, Closed, Distinct;
    var h := s.arr[i];
    assert s.arr[i..s.len][0] == h && l[i + r..][0] == l[i + r];
    assert h in l[i + r..];
    ShiftAt(s, h, i);
    ClosedParts(s.arr, i, s.len);
    assert s.arr[i + 1..s.len] == s.arr[i..s.len][1..];
    assert s.arr[s.len - 1] == s.arr[i..s.len][s.len - 1 - i];
  }

  /** Past the end of the shrunken list only the last host is seen again. */
  lemma {:induction false} PruneTail(l: seq<Host>, s: Slice, i: nat, keep: seq<Host>)
    requires l != [] && |s.arr| == |l| && Fits(s) && s.len <= i <= |l|
    requires forall k :: s.len <= k < |l| ==> s.arr[k] == l[|l| - 1]
    requires l[|l| - 1] in keep || l[|l| - 1] !in List(s)
    ensures Prune(s, i, keep) == s
    decreases |l| - i
  {
    if i < |l| {
      PruneTail(l, s, i + 1, keep);
    }
  }

  lemma MidwayOn(l: seq<Host>, s: Slice, i: nat, r: nat)
    requires l != [] && Distinct(l) && |s.arr| == |l| && s.len + r == |l| && i < s.len
    requires s.arr[i..s.len] == l[i + r..]
    requires forall k :: s.len <= k < |l| ==> s.arr[k] == l[|l| - 1]
    requires forall k :: 0 <= k < i ==> s.arr[k] !in l[i + r..]
    ensures Midway(l, s, i + 1, r)
  {
    assert l[i + r..] == [l[i + r]] + l[i + r + 1..];
    assert s.arr[i + 1..s.len] == s.arr[i..s.len][1..];
    assert s.arr[i] == s.arr[i..s.len][0];
  }

  lemma LastIsNew(l: seq<Host>, s: Slice, i: nat, r: nat)
    requires Midway(l, s, i, r) && i < s.len
    ensures l[|l| - 1] !in s.arr[..i]
  {
    assert l[i + r..][|l| - 1 - i - r] == l[|l| - 1];
  }

  /** The list ends where the loop stands, but the array behind it still shows the last host. */
  lemma PruneStale(l: seq<Host>, s: Slice, i: nat, keep: seq<Host>)
    requires |s.arr| == |l| && s.len == i + 1 < |l|
    requires forall k :: i <= k < |l| ==> s.arr[k] == l[|l| - 1]
    requires l[|l| - 1] !in s.arr[..i]
    ensures List(Prune(s, i + 1, keep)) == s.arr[..i] + Kept([l[|l| - 1]], keep)
  {
    hide Prune, Shift;
    var last := l[|l| - 1];
    assert List(s) == s.arr[..i] + [last];
    if last in keep {
      PruneTail(l, s, i + 1, keep);
    } else {
      PruneStep(s, i + 1, keep);
      ShiftAt(s, last, i);
      var s2 := Shift(s, last);
      assert List(s2) == s.arr[..i];
      PruneTail(l, s2, i + 2, keep);
    }
  }

  /** The last two hosts, the first of them removed: the last one is found in its stale copy. */
  lemma PruneLastPair(l: seq<Host>, s: Slice, i: nat, r: nat, keep: seq<Host>)
    requires Midway(l, s, i, r) && i + 2 == s.len && s.arr[i] !in keep
    ensures Fits(s) && List(Prune(s, i, keep)) == s.arr[..i] + Kept(l[i + r + 1..], keep)
  {
    hide Midway, Distinct, Prune, Shift;
    MidwayRest(l, s, i, r);
    ShiftMidway(l, s, i, r);
    LastIsNew(l, s, i, r);
    PruneStep(s, i, keep);
    var s1, last := Shift(s, s.arr[i]), l[|l| - 1];
    assert s1.arr[i] == s1.arr[i..s1.len][0] == l[i + r + 1..][0];
    assert l[i + r + 1..] == [last];
    PruneStale(l, s1, i, keep);
  }

  /** The last host. */
  lemma PruneLast(l: seq<Host>, s: Slice, i: nat, r: nat, keep: seq<Host>)
    requires Midway(l, s, i, r) && i + 1 == s.len
    ensures Fits(s) && List(Prune(s, i, keep)) == s.arr[..i] + Skipping(l[i + r..], keep)
  {
    hide Midway, Distinct, Prune, Shift;
    MidwayRest(l, s, i, r);
    var last := l[|l| - 1];
    ShiftMidway(l, s, i, r);
    MidwayTail(l, s, i, r);
    PruneStep(s, i, keep);
    assert l[i + r..] == [last];
    if last in keep {
      PruneTail(l, s, i + 1, keep);
      assert List(s) == s.arr[..i] + [last];
    } else {
      var s1 := Shift(s, last);
      assert List(s1) == s.arr[..i];
      PruneTail(l, s1, i + 1, keep);
      assert Skipping([last], keep) == [];
    }
  }

  lemma MidwayTail(l: seq<Host>, s: Slice, i: nat, r: nat)
    requires Midway(l, s, i, r) && i < s.len
    ensures forall k :: s.len <= k < |l| ==> s.arr[k] == l[|l| - 1]
    ensures l[|l| - 1] !in s.arr[..i]
  {
    LastIsNew(l, s, i, r);
  }

  lemma SkipStep(s: seq<Host>, keep: seq<Host>)
    requires |s| >= 2
    ensures Skipping(s, keep) ==
      if s[0] in keep then [s[0]] + Skipping(s[1..], keep)
      else if |s| == 2 then Kept(s[1..], keep)
      else [s[1]] + Skipping(s[2..], keep)
  {
  }

  lemma Regroup(a: seq<Host>, x: Host, b: seq<Host>)
    ensures (a + [x]) + b == a + ([x] + b)
  {
  }

  lemma {:induction false} PruneMidway(l: seq<Host>, s: Slice, i: nat, r: nat, keep: seq<Host>)
    requires Midway(l, s, i, r) && i < s.len
    ensures Fits(s) && List(Prune(s, i, keep)) == s.arr[..i] + Skipping(l[i + r..], keep)
    decreases |l| - i
  {
    hide Midway, Distinct, Shift, List, Prune, Skipping, Kept;
    MidwayRest(l, s, i, r);
    if i + 1 == s.len {
      PruneLast(l, s, i, r, keep);
    } else {
      SkipStep(l[i + r..], keep);
      PruneStep(s, i, keep);
      if s.arr[i] in keep {
        MidwayKeep(l, s, i, r);
        PruneMidway(l, s, i + 1, r, keep);
        assert s.arr[..i + 1] == s.arr[..i] + [s.arr[i]];
        Regroup(s.arr[..i], s.arr[i], Skipping(l[i + 1 + r..], keep));
      } else if i + 2 == s.len {
        PruneLastPair(l, s, i, r, keep);
      } else {
        PruneMiddle(l, s, i, r, keep);
        var s1 := Shift(s, s.arr[i]);
        PruneMidway(l, s1, i + 1, r + 1, keep);
        assert s1.arr[..i + 1] == s1.arr[..i] + [s1.arr[i]];
        Regroup(s.arr[..i], l[i + r + 1], Skipping(l[i + r + 2..], keep));
      }
    }
  }

  lemma MidwayRest(l: seq<Host>, s: Slice, i: nat, r: nat)
    requires Midway(l, s, i, r) && i < s.len
    ensures Fits(s) && |s.arr| == |l| && s.len + r == |l|
    ensures l[i + r] == s.arr[i] && l[i + r..][0] == s.arr[i] && l[i + r..][1..] == l[i + r + 1..]
    ensures i + 1 < s.len ==> l[i + r..][1] == l[i + r + 1] && l[i + r..][2..] == l[i + r + 2..]
  {
    assert s.arr[i..s.len][0] == s.arr[i];
  }

  lemma MidwayKeep(l: seq<Host>, s: Slice, i: nat, r: nat)
    requires Midway(l, s, i, r) && i < s.len
    ensures Midway(l, s, i + 1, r)
  {
    MidwayOn(l, s, i, r);
  }

  /** A host removed in the middle: the next one slides under the loop and is passed over. */
  lemma PruneMiddle(l: seq<Host>, s: Slice, i: nat, r: nat, keep: seq<Host>)
    requires Midway(l, s, i, r) && i + 2 < s.len && s.arr[i] !in keep
    ensures Fits(s)
    ensures var s1 := Shift(s, s.arr[i]);
      && Midway(l, s1, i + 1, r + 1) && i + 1 < s1.len && |s1.arr| == |l|
      && s1.arr[i] == l[i + r + 1] && s1.arr[..i] == s.arr[..i]
  {
    hide Shift, Distinct;
    ShiftMidway(l, s, i, r);
    var s1 := Shift(s, s.arr[i]);
    assert s1.arr[i] == s1.arr[i..s1.len][0];
    forall k | 0 <= k < i ensures s1.arr[k] !in l[i + r + 1..] {
      assert s1.arr[..i][k] == s.arr[..i][k];
      assert l[i + r..] == [l[i + r]] + l[i + r + 1..];
    }
    MidwayOn(l, s1, i, r + 1);
  }

  /** The whole loop over a list without repeats. */
  lemma PruneIsSkipping(l: seq<Host>, keep: seq<Host>)
    requires Distinct(l)
    ensures List(Prune(Slice(l, |l|), 0, keep)) == Skipping(l, keep)
  {
    if l != [] {
      assert l[0..|l|] == l == l[0 + 0..];
      PruneMidway(l, Slice(l, |l|), 0, 0, keep);
    }
  }

  /** Two neighbours are both gone, and the second is not the last of the list. */
  ghost predicate GonePair(l: seq<Host>, keep: seq<Host>, k: nat) {
    k + 2 < |l| && l[k] !in keep && l[k + 1] !in keep
  }

  /** The loop leaves exactly the listed hosts if and only if no two neighbours are both gone, the final
      pair excepted. */
  lemma {:induction false} SkippingIsExactIff(l: seq<Host>, keep: seq<Host>)
    ensures Skipping(l, keep) == Kept(l, keep) <==> forall k :: !GonePair(l, keep, k)
  {
    if l == [] {
    } else if l[0] in keep {
      SkippingIsExactIff(l[1..], keep);
      GonePairTail(l, keep, 1);
      assert ([l[0]] + Skipping(l[1..], keep))[1..] == Skipping(l[1..], keep);
      assert ([l[0]] + Kept(l[1..], keep))[1..] == Kept(l[1..], keep);
    } else if |l| <= 2 {
    } else if l[1] !in keep {
      assert GonePair(l, keep, 0);
      KeptAreListed(l, keep);
      assert Skipping(l, keep)[0] == l[1];
    } else {
      SkippingIsExactIff(l[2..], keep);
      GonePairTail(l, keep, 2);
      assert Kept(l, keep) == [l[1]] + Kept(l[2..], keep) by { assert l[1..][1..] == l[2..]; }
      assert ([l[1]] + Skipping(l[2..], keep))[1..] == Skipping(l[2..], keep);
      assert ([l[1]] + Kept(l[2..], keep))[1..] == Kept(l[2..], keep);
    }
  }

  lemma GonePairTail(l: seq<Host>, keep: seq<Host>, n: nat)
    requires n <= |l| && n <= 2 && n > 0 && l[n - 1] in keep
    ensures (forall k :: !GonePair(l, keep, k)) <==> forall k :: !GonePair(l[n..], keep, k)
  {
    forall k: nat ensures GonePair(l[n..], keep, k) <==> GonePair(l, keep, k + n) {
    }
    if k: nat :| GonePair(l, keep, k) {
      assert k >= n;
      assert GonePair(l[n..], keep, k - n);
    }
  }

  lemma {:induction false} KeptAreListed(s: seq<Host>, keep: seq<Host>)
    ensures forall h :: h in Kept(s, keep) <==> h in s && h in keep
  {
    if s != [] {
      KeptAreListed(s[1..], keep);
      assert forall h :: h in s <==> h == s[0] || h in s[1..];
    }
  }

  // ---------- lists with repeats ----------

  lemma {:induction false} KeptAll(s: seq<Host>, keep: seq<Host>)
    requires forall h :: h in s ==> h in keep
    ensures Kept(s, keep) == s
  {
    if s != [] {
      assert s[0] in s;
      KeptAll(s[1..], keep);
    }
  }

  /** Place i of the loop, r removals in, on any list: every host passed so far is still listed, the rest has
      moved r places down, and the places past the list hold copies of the last host. */
  ghost predicate Calm(l: seq<Host>, s: Slice, i: nat, r: nat, keep: seq<Host>) {
    && l != [] && |s.arr| == |l| && s.len + r == |l| && i <= s.len
    && s.arr[i..s.len] == l[i + r..]
    && (forall k :: s.len <= k < |l| ==> s.arr[k] == l[|l| - 1])
    && (forall k :: 0 <= k < i ==> s.arr[k] in keep)
  }

  /** A gone host is met where it stands first, so the rest moves down by one. */
  lemma CalmShift(l: seq<Host>, s: Slice, i: nat, r: nat, keep: seq<Host>)
    requires Calm(l, s, i, r, keep) && i < s.len && s.arr[i] !in keep
    ensures var s1 := Shift(s, s.arr[i]);
      && Fits(s1) && |s1.arr| == |l| && s1.len + r + 1 == |l| && i <= s1.len
      && s1.arr[i..s1.len] == l[i + r + 1..] && s1.arr[..i] == s.arr[..i]
      && (forall k :: s1.len <= k < |l| ==> s1.arr[k] == l[|l| - 1])
  {
    hide Shift, Closed;
    assert s.arr[i] !in s.arr[..i];
    ShiftAt(s, s.arr[i], i);
    ClosedParts(s.arr, i, s.len);
    assert s.arr[s.len - 1] == s.arr[i..s.len][s.len - 1 - i];
    assert s.arr[i + 1..s.len] == s.arr[i..s.len][1..];
  }

  /** What is left when every place of the list has been read. */
  lemma CalmEnd(l: seq<Host>, s: Slice, i: nat, r: nat, keep: seq<Host>)
    requires l != [] && |s.arr| == |l| && s.len + r == |l| && s.len <= i <= |l|
    requires forall k :: s.len <= k < |l| ==> s.arr[k] == l[|l| - 1]
    requires forall k :: 0 <= k < s.len ==> s.arr[k] in keep
    ensures Fits(s) && forall h :: h in List(Prune(s, i, keep)) ==> h in keep
  {
    hide Prune;
    assert l[|l| - 1] !in keep ==> l[|l| - 1] !in List(s);
    PruneTail(l, s, i, keep);
  }

  lemma CalmNext(l: seq<Host>, s: Slice, i: nat, r: nat, keep: seq<Host>)
    requires l != [] && |s.arr| == |l| && s.len + r == |l| && i < s.len && s.arr[i] in keep
    requires s.arr[i..s.len] == l[i + r..]
    requires forall k :: s.len <= k < |l| ==> s.arr[k] == l[|l| - 1]
    requires forall k :: 0 <= k < i ==> s.arr[k] in keep
    ensures Calm(l, s, i + 1, r, keep)
  {
    assert s.arr[i + 1..s.len] == s.arr[i..s.len][1..];
    assert l[i + 1 + r..] == l[i + r..][1..];
  }

  /** Without two gone neighbours, the final pair excepted, nothing gone is left, on any list. */
  lemma {:induction false} PruneCalm(l: seq<Host>, s: Slice, i: nat, r: nat, keep: seq<Host>)
    requires Calm(l, s, i, r, keep) && forall k :: !GonePair(l, keep, k)
    ensures Fits(s) && forall h :: h in List(Prune(s, i, keep)) ==> h in keep
    decreases |l| - i, 1
  {
    hide Prune, Shift;
    if i == s.len {
      CalmEnd(l, s, i, r, keep);
    } else {
      PruneStep(s, i, keep);
      assert s.arr[i] == s.arr[i..s.len][0] == l[i + r..][0];
      if s.arr[i] in keep {
        CalmNext(l, s, i, r, keep);
        PruneCalm(l, s, i + 1, r, keep);
      } else {
        CalmShift(l, s, i, r, keep);
        PruneGone(l, s, Shift(s, s.arr[i]), i, r, keep);
      }
    }
  }

  /** After a removal at place i: the host that has moved there is listed, or is the last. */
  lemma PruneGone(l: seq<Host>, s: Slice, s1: Slice, i: nat, r: nat, keep: seq<Host>)
    requires Calm(l, s, i, r, keep) && i < s.len && s.arr[i] == l[i + r] && s.arr[i] !in keep
    requires forall k :: !GonePair(l, keep, k)
    requires Fits(s1) && |s1.arr| == |l| && s1.len + r + 1 == |l| && i <= s1.len
    requires s1.arr[i..s1.len] == l[i + r + 1..] && s1.arr[..i] == s.arr[..i]
    requires forall k :: s1.len <= k < |l| ==> s1.arr[k] == l[|l| - 1]
    ensures forall h :: h in List(Prune(s1, i + 1, keep)) ==> h in keep
    decreases |l| - i, 0
  {
    hide Prune, Shift;
    forall k | 0 <= k < i ensures s1.arr[k] in keep {
      assert s1.arr[..i][k] == s.arr[..i][k];
    }
    if i == s1.len {
      CalmEnd(l, s1, i + 1, r + 1, keep);
    } else {
      assert s1.arr[i] == s1.arr[i..s1.len][0] == l[i + r + 1..][0];
      if s1.arr[i] in keep {
        CalmNext(l, s1, i, r + 1, keep);
        PruneCalm(l, s1, i + 1, r + 1, keep);
      } else {
        assert !GonePair(l, keep, i + r);
        LastGone(l, s1, i, r + 1, keep);
      }
    }
  }

  /** The last host, gone as well, is found again in its copy. */
  lemma LastGone(l: seq<Host>, s: Slice, i: nat, r: nat, keep: seq<Host>)
    requires Calm(l, s, i, r, keep) && s.len == i + 1 && 0 < r && s.arr[i] == l[|l| - 1] && s.arr[i] !in keep
    ensures Fits(s) && forall h :: h in List(Prune(s, i + 1, keep)) ==> h in keep
  {
    hide Prune, Shift;
    assert s.arr[i + 1] == s.arr[i];
    PruneStep(s, i + 1, keep);
    CalmShift(l, s, i, r, keep);
    var s1 := Shift(s, s.arr[i]);
    forall k | 0 <= k < s1.len ensures s1.arr[k] in keep {
      assert s1.arr[..i][k] == s.arr[..i][k];
    }
    CalmEnd(l, s1, i + 2, r + 1, keep);
  }

  /** On every list, repeats or not: the loop leaves exactly the hosts still listed, each as often and in the
      order as before, when no two neighbours are both gone, the final pair excepted. */
  lemma PruneExact(l: seq<Host>, keep: seq<Host>)
    requires forall k :: !GonePair(l, keep, k)
    ensures List(Prune(Slice(l, |l|), 0, keep)) == Kept(l, keep)
  {
    hide Prune;
    var s := Slice(l, |l|);
    PruneKeeps(s, 0, keep);
    assert List(s) == l;
    if l != [] {
      assert l[0..|l|] == l == l[0 + 0..];
      PruneCalm(l, s, 0, 0, keep);
    } else {
      PruneEnd(s, keep);
    }
    KeptAll(List(Prune(s, 0, keep)), keep);
  }

  // ---------- the same loop on a real array ----------

  method CloseGap(arr: array<Host>, j: nat, len: nat)
    requires j < len <= arr.Length
    modifies arr
    ensures arr[..] == Closed(old(arr[..]), j, len)
  {
    ghost var was := arr[..];
    forall k | j <= k < len - 1 {
      arr[k] := arr[k + 1];
    }
    forall m | 0 <= m < |was| ensures arr[..][m] == Closed(was, j, len)[m] {
      assert arr[m] == if j <= m < len - 1 then was[m + 1] else was[m];
    }
  }

  /** removeHost on the array: lines 115-121 of orchestration.go. */
  method RemoveHost(arr: array<Host>, len: nat, rmHost: Host) returns (newLen: nat)
    requires len <= arr.Length
    modifies arr
    ensures Slice(arr[..], newLen) == Shift(Slice(old(arr[..]), len), rmHost)
  {
    hide Shift, Closed;
    newLen := len;
    for j := 0 to len
      invariant arr[..] == old(arr[..]) && newLen == len && rmHost !in arr[..j]
    {
      assert arr[..][..j] == arr[..j];
      if arr[j] == rmHost {
        ShiftAt(Slice(arr[..], len), rmHost, j);
        CloseGap(arr, j, len);
        newLen := len - 1;
        return;
      }
    }
    assert arr[..][..len] == arr[..len];
    ShiftNone(Slice(arr[..], len), rmHost);
  }
}
