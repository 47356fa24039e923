/** The broker's five-minute event ring: commit and prune, and which events it holds over a run. */
module Ring {

  const REWIND_MS := 300_000
  const RING_CAP := 2_000_000

  datatype Entry<T> = Entry(tsMs: nat, ev: T)

  // u64 saturating subtraction.
  function SaturatingSub(a: nat, b: nat): nat { if a < b then 0 else a - b }

  function Cutoff(nowMs: nat): nat { SaturatingSub(nowMs, REWIND_MS) }

  predicate PopsFront<T>(s: seq<Entry<T>>, cutoff: nat) {
    |s| > RING_CAP || (|s| > 0 && s[0].tsMs < cutoff)
  }

  function Pruned<T>(s: seq<Entry<T>>, cutoff: nat): seq<Entry<T>> {
    if PopsFront(s, cutoff) then Pruned(s[1..], cutoff) else s
  }

  class Batcher<T> {
    var pending: seq<Entry<T>>
    var ring: seq<Entry<T>>

    constructor ()
      ensures pending == [] && ring == []
    {
      pending, ring := [], [];
    }

    method Push(ev: T, nowMs: nat)
      modifies this`pending
      ensures pending == old(pending) + [Entry(nowMs, ev)]
    {
      pending := pending + [Entry(nowMs, ev)];
    }

    // Drains the pending batch into the ring, then drops what is too many or too old.
    method Commit(nowMs: nat)
      modifies this
      ensures pending == []
      ensures ring == Pruned(old(ring) + old(pending), Cutoff(nowMs))
    {
      var cutoff := Cutoff(nowMs);
      while pending != []
        invariant ring + pending == old(ring) + old(pending)
        decreases |pending|
      {
        ring := ring + [pending[0]];
        pending := pending[1..];
      }
      assert ring == old(ring) + old(pending);
      while |ring| > RING_CAP || (|ring| > 0 && ring[0].tsMs < cutoff)
        invariant pending == []
        invariant Pruned(ring, cutoff) == Pruned(old(ring) + old(pending), cutoff)
        decreases |ring|
      {
        ring := ring[1..];
      }
    }
  }

  // ---- whole runs -------------------------------------------------------------------

  ghost predicate Sorted<T>(s: seq<Entry<T>>) {
    forall i, j :: 0 <= i < j < |s| ==> s[i].tsMs <= s[j].tsMs
  }

  // From index lo on, the entries are few and young enough; one entry more would not be.
  ghost predicate LongestFrom<T>(all: seq<Entry<T>>, cutoff: nat, lo: nat) {
    && lo <= |all| && |all| - lo <= RING_CAP
    && (forall i :: lo <= i < |all| ==> all[i].tsMs >= cutoff)
    && (lo > 0 ==> |all| - (lo - 1) > RING_CAP || all[lo - 1].tsMs < cutoff)
  }

  /** LongestFrom says what its name says: no other start gives a longer suffix that qualifies. */
  lemma LongestIsLongest<T>(all: seq<Entry<T>>, cutoff: nat, lo: nat, other: nat)
    requires LongestFrom(all, cutoff, lo) && other <= |all|
    requires |all| - other <= RING_CAP && forall i :: other <= i < |all| ==> all[i].tsMs >= cutoff
    ensures lo <= other
  {
  }

  /** In a sorted run, what one entry has to satisfy to be among those from lo on. */
  lemma LongestMember<T>(all: seq<Entry<T>>, cutoff: nat, lo: nat, i: nat)
    requires LongestFrom(all, cutoff, lo) && Sorted(all) && i < |all|
    ensures lo <= i <==> |all| - i <= RING_CAP && all[i].tsMs >= cutoff
  {
    if i < lo - 1 { assert all[i].tsMs <= all[lo - 1].tsMs; }
  }

  lemma StopsLongest<T>(all: seq<Entry<T>>, lo: nat, cutoff: nat)
    requires Sorted(all) && lo <= |all| && !PopsFront(all[lo..], cutoff)
    requires lo > 0 ==> |all| - (lo - 1) > RING_CAP || all[lo - 1].tsMs < cutoff
    ensures LongestFrom(all, cutoff, lo)
  {
    forall i | lo <= i < |all|
      ensures all[i].tsMs >= cutoff
    {
      assert all[lo..][0] == all[lo] && all[lo].tsMs <= all[i].tsMs;
    }
  }

  lemma {:induction false} PruneLongest<T>(all: seq<Entry<T>>, lo: nat, cutoff: nat)
    requires Sorted(all) && lo <= |all|
    requires lo > 0 ==> |all| - (lo - 1) > RING_CAP || all[lo - 1].tsMs < cutoff
    ensures var r := Pruned(all[lo..], cutoff);
            |r| <= |all| - lo && r == all[|all| - |r|..] && LongestFrom(all, cutoff, |all| - |r|)
    decreases |all| - lo
  {
    hide *;
    PruneStep(all, lo, cutoff);
    if PopsFront(all[lo..], cutoff) {
      PruneLongest(all, lo + 1, cutoff);
    } else {
      StopsLongest(all, lo, cutoff);
      assert |all| - |all[lo..]| == lo;
    }
  }

  // One turn of the pruning loop.
  lemma PruneStep<T>(all: seq<Entry<T>>, lo: nat, cutoff: nat)
    requires lo <= |all|
    ensures if PopsFront(all[lo..], cutoff)
            then lo < |all| && Pruned(all[lo..], cutoff) == Pruned(all[lo + 1..], cutoff)
                 && (|all| - lo > RING_CAP || all[lo].tsMs < cutoff)
            else Pruned(all[lo..], cutoff) == all[lo..]
  {
    if lo < |all| { assert all[lo..][1..] == all[lo + 1..] && all[lo..][0] == all[lo]; }
  }

  // One commit: the batch and the time it is committed at.
  datatype Step<T> = Step(batch: seq<Entry<T>>, nowMs: nat)

  function RingAfter<T>(steps: seq<Step<T>>): seq<Entry<T>> {
    if steps == [] then []
    else var s := steps[|steps| - 1]; Pruned(RingAfter(steps[..|steps| - 1]) + s.batch, Cutoff(s.nowMs))
  }

  function All<T>(steps: seq<Step<T>>): seq<Entry<T>> {
    if steps == [] then [] else All(steps[..|steps| - 1]) + steps[|steps| - 1].batch
  }

  // The clock never runs backwards: commit times and entry times only grow.
  ghost predicate Monotone<T>(steps: seq<Step<T>>) {
    && Sorted(All(steps))
    && forall i, j :: 0 <= i < j < |steps| ==> steps[i].nowMs <= steps[j].nowMs
  }

  lemma MonotoneInit<T>(steps: seq<Step<T>>)
    requires Monotone(steps) && steps != []
    ensures Monotone(steps[..|steps| - 1])
  {
    var n := |steps| - 1;
    forall i, j | 0 <= i < j < |All(steps[..n])|
      ensures All(steps[..n])[i].tsMs <= All(steps[..n])[j].tsMs
    {
      assert All(steps)[i].tsMs <= All(steps)[j].tsMs;
    }
  }

  lemma CommitLongest<T>(before: seq<Entry<T>>, lo: nat, batch: seq<Entry<T>>, cutoff: nat)
    requires Sorted(before + batch) && lo <= |before|
    requires lo > 0 ==> |before| - (lo - 1) > RING_CAP || before[lo - 1].tsMs < cutoff
    ensures var all, r := before + batch, Pruned(before[lo..] + batch, cutoff);
            |r| <= |all| && r == all[|all| - |r|..] && LongestFrom(all, cutoff, |all| - |r|)
  {
    hide *;
    var all := before + batch;
    assert all[lo..] == before[lo..] + batch;
    assert lo > 0 ==> all[lo - 1] == before[lo - 1];
    PruneLongest(all, lo, cutoff);
  }

  lemma SuffixSorted<T>(all: seq<Entry<T>>, lo: nat)
    requires Sorted(all) && lo <= |all|
    ensures Sorted(all[lo..])
  {
    forall i, j | 0 <= i < j < |all| - lo
      ensures all[lo..][i].tsMs <= all[lo..][j].tsMs
    {
      assert all[lo + i].tsMs <= all[lo + j].tsMs;
    }
  }

  /** After every commit the ring is exactly the longest suffix of everything committed that is within
      the cap and no older than the cutoff, and it is sorted. */
  lemma {:induction false} RingIsLongestSuffix<T>(steps: seq<Step<T>>)
    requires Monotone(steps) && steps != []
    ensures var all, r := All(steps), RingAfter(steps);
            |r| <= |all| && r == all[|all| - |r|..] && Sorted(r)
            && LongestFrom(all, Cutoff(steps[|steps| - 1].nowMs), |all| - |r|)
  {
    hide *;
    var n := |steps| - 1;
    var before := All(steps[..n]);
    StepsLast(steps);
    var lo := 0;
    if n > 0 {
      MonotoneInit(steps);
      RingIsLongestSuffix(steps[..n]);
      lo := |before| - |RingAfter(steps[..n])|;
      Older(before, Cutoff(steps[..n][n - 1].nowMs), Cutoff(steps[n].nowMs), lo);
    }
    CommitLongest(before, lo, steps[n].batch, Cutoff(steps[n].nowMs));
    SuffixSorted(All(steps), |All(steps)| - |RingAfter(steps)|);
  }

  // The last of the commits, and what a first one finds.
  lemma StepsLast<T>(steps: seq<Step<T>>)
    requires Monotone(steps) && steps != []
    ensures var n := |steps| - 1;
            && All(steps) == All(steps[..n]) + steps[n].batch && Sorted(All(steps))
            && RingAfter(steps) == Pruned(RingAfter(steps[..n]) + steps[n].batch, Cutoff(steps[n].nowMs))
            && (n == 0 ==> All(steps[..n]) == [] && RingAfter(steps[..n]) == All(steps[..n])[0..])
            && (n > 0 ==> Cutoff(steps[..n][n - 1].nowMs) <= Cutoff(steps[n].nowMs))
  {
    hide Sorted, Pruned;
    var n := |steps| - 1;
    if n > 0 { assert steps[n - 1].nowMs <= steps[n].nowMs; }
  }

  // What was too old or too much for one cutoff is so for a later one.
  lemma Older<T>(all: seq<Entry<T>>, cutoff: nat, later: nat, lo: nat)
    requires LongestFrom(all, cutoff, lo) && cutoff <= later
    ensures lo <= |all| && (lo > 0 ==> |all| - (lo - 1) > RING_CAP || all[lo - 1].tsMs < later)
  {
  }

  /** No event is ever re-admitted: the index of the oldest event held never decreases. */
  lemma NeverReadmitted<T>(steps: seq<Step<T>>, s: Step<T>)
    requires Monotone(steps + [s]) && steps != []
    ensures |All(steps)| - |RingAfter(steps)| <= |All(steps + [s])| - |RingAfter(steps + [s])|
  {
    var both := steps + [s];
    assert both[..|both| - 1] == steps;
    MonotoneInit(both);
    RingIsLongestSuffix(steps);
    PrunedShorter(RingAfter(steps) + s.batch, Cutoff(s.nowMs));
  }

  lemma {:induction false} PrunedShorter<T>(s: seq<Entry<T>>, cutoff: nat)
    ensures |Pruned(s, cutoff)| <= |s| && Pruned(s, cutoff) == s[|s| - |Pruned(s, cutoff)|..]
  {
    if PopsFront(s, cutoff) { PrunedShorter(s[1..], cutoff); }
  }
}
