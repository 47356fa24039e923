/** The viewer's event index: a sorted event list with a live cursor, pruning, and the window of
    events drawn each frame. Times are reals. */
module Viewer {

  const MAX_EVENTS := 2_000_000
  const MAX_VISIBLE := 20_000

  // An event as the index sees it: when it was pushed and between which boards it flies.
  datatype Ev = Ev(t: real, sb: nat, db: nat)

  type Hidden = nat -> bool

  predicate Concealed(e: Ev, hidden: Hidden) { hidden(e.sb) || hidden(e.db) }

  predicate InWindow(e: Ev, vt: real, fly: real) { vt - fly <= e.t <= vt }

  ghost predicate Sorted(ev: seq<Ev>) {
    forall i, j :: 0 <= i < j < |ev| ==> ev[i].t <= ev[j].t
  }

  // ---- what should be drawn -----------------------------------------------------------

  // Every unhidden event from index i on whose flight covers vt, by its index.
  function Brute(ev: seq<Ev>, i: nat, vt: real, fly: real, hidden: Hidden): seq<nat>
    requires i <= |ev|
    decreases |ev| - i
  {
    if i == |ev| then []
    else
      var rest := Brute(ev, i + 1, vt, fly, hidden);
      if InWindow(ev[i], vt, fly) && !Concealed(ev[i], hidden) then [i] + rest else rest
  }

  function Take(s: seq<nat>, n: nat): seq<nat> { if |s| <= n then s else s[..n] }

  // The first MAX_VISIBLE of them.
  function Drawn(ev: seq<Ev>, vt: real, fly: real, hidden: Hidden): seq<nat> {
    Take(Brute(ev, 0, vt, fly, hidden), MAX_VISIBLE)
  }

  lemma {:induction false} SkipBefore(ev: seq<Ev>, i: nat, vt: real, fly: real, hidden: Hidden)
    requires i <= |ev| && forall j :: 0 <= j < i ==> ev[j].t < vt - fly
    ensures Brute(ev, 0, vt, fly, hidden) == Brute(ev, i, vt, fly, hidden)
  {
    if i > 0 {
      SkipBefore(ev, i - 1, vt, fly, hidden);
      assert !InWindow(ev[i - 1], vt, fly);
    }
  }

  lemma {:induction false} NoneAfter(ev: seq<Ev>, i: nat, vt: real, fly: real, hidden: Hidden)
    requires i <= |ev| && forall j :: i <= j < |ev| ==> ev[j].t > vt
    ensures Brute(ev, i, vt, fly, hidden) == []
    decreases |ev| - i
  {
    if i < |ev| { NoneAfter(ev, i + 1, vt, fly, hidden); }
  }

  // The sweep may stop at the first event that has not yet started.
  lemma StopHere(ev: seq<Ev>, i: nat, vt: real, fly: real, hidden: Hidden)
    requires Sorted(ev) && i < |ev| && ev[i].t > vt
    ensures Brute(ev, i, vt, fly, hidden) == []
  {
    hide Brute;
    forall j | i <= j < |ev|
      ensures ev[j].t > vt
    {
      if i < j { assert ev[i].t <= ev[j].t; }
    }
    NoneAfter(ev, i, vt, fly, hidden);
  }

  // One started event that has not landed: drawn unless concealed.
  lemma SweepStep(ev: seq<Ev>, i: nat, vt: real, fly: real, hidden: Hidden)
    requires i < |ev| && vt - fly <= ev[i].t <= vt
    ensures Brute(ev, i, vt, fly, hidden)
         == (if Concealed(ev[i], hidden) then [] else [i]) + Brute(ev, i + 1, vt, fly, hidden)
  {
    var rest := Brute(ev, i + 1, vt, fly, hidden);
    assert [] + rest == rest;
  }

  lemma NothingLeft(ev: seq<Ev>, vt: real, fly: real, hidden: Hidden)
    ensures Brute(ev, |ev|, vt, fly, hidden) == []
  {
  }

  // What the draw loop takes from index i on: unhidden events, up to the first that has not started.
  function Swept(ev: seq<Ev>, i: nat, vt: real, hidden: Hidden): seq<nat>
    requires i <= |ev|
    decreases |ev| - i
  {
    if i == |ev| || ev[i].t > vt then []
    else (if Concealed(ev[i], hidden) then [] else [i]) + Swept(ev, i + 1, vt, hidden)
  }

  /** On a sorted index the draw loop, started behind landed events only, takes what brute force does. */
  lemma {:induction false} SweptIsBrute(ev: seq<Ev>, i: nat, vt: real, fly: real, hidden: Hidden)
    requires Sorted(ev) && i <= |ev| && (i < |ev| ==> ev[i].t >= vt - fly)
    ensures Swept(ev, i, vt, hidden) == Brute(ev, i, vt, fly, hidden)
    decreases |ev| - i
  {
    if i == |ev| {
      NothingLeft(ev, vt, fly, hidden);
    } else if ev[i].t > vt {
      StopHere(ev, i, vt, fly, hidden);
    } else {
      SweepStep(ev, i, vt, fly, hidden);
      assert i + 1 < |ev| ==> ev[i].t <= ev[i + 1].t;
      hide Sorted, Brute, Concealed;
      SweptIsBrute(ev, i + 1, vt, fly, hidden);
    }
  }

  // ---- when the pushed times are sorted ----------------------------------------------------

  // A frame: when the viewer received it, when the broker encoded it, and its events with the
  // broker's times. An age is encoded minus the event's time.
  datatype Frame = Frame(received: real, encoded: real, events: seq<Ev>)

  // The events as they are pushed.
  function Placed(f: Frame): (s: seq<Ev>)
    ensures |s| == |f.events|
  {
    seq(|f.events|, i requires 0 <= i < |f.events| =>
      Ev(f.received - (f.encoded - f.events[i].t), f.events[i].sb, f.events[i].db))
  }

  function PlacedAll(fs: seq<Frame>): seq<Ev> {
    if fs == [] then [] else PlacedAll(fs[..|fs| - 1]) + Placed(fs[|fs| - 1])
  }

  lemma SortedConcat(a: seq<Ev>, b: seq<Ev>)
    ensures Sorted(a + b) <==> Sorted(a) && Sorted(b) && (a != [] && b != [] ==> a[|a| - 1].t <= b[0].t)
  {
    var s := a + b;
    assert forall i :: 0 <= i < |a| ==> s[i] == a[i];
    assert forall i :: 0 <= i < |b| ==> s[|a| + i] == b[i];
    if Sorted(s) {
      assert a != [] && b != [] ==> s[|a| - 1].t <= s[|a|].t;
    }
    if Sorted(a) && Sorted(b) && (a != [] && b != [] ==> a[|a| - 1].t <= b[0].t) {
      forall i, j | 0 <= i < j < |s|
        ensures s[i].t <= s[j].t
      {
        if i < |a| <= j {
          assert i < |a| - 1 ==> a[i].t <= a[|a| - 1].t;
          assert 0 < j - |a| ==> b[0].t <= b[j - |a|].t;
        }
      }
    }
  }

  ghost predicate InOrder(fs: seq<Frame>) {
    forall j :: 0 <= j < |fs| ==> fs[j].events != [] && Sorted(fs[j].events)
  }

  // Each frame's first event comes, on the viewer's clock, no earlier than the one before's last.
  ghost predicate Joined(fs: seq<Frame>)
    requires InOrder(fs)
  {
    forall j :: 0 < j < |fs| ==>
      fs[j - 1].events[|fs[j - 1].events| - 1].t + (fs[j - 1].received - fs[j - 1].encoded)
      <= fs[j].events[0].t + (fs[j].received - fs[j].encoded)
  }

  /** Received frames leave the index sorted exactly when none of them reaches back before the end of
      the one before it by more than its own delay makes up for. */
  lemma {:induction false} ReceivedSorted(fs: seq<Frame>)
    requires InOrder(fs)
    ensures Sorted(PlacedAll(fs)) <==> Joined(fs)
    ensures fs != [] ==> PlacedAll(fs) != [] && PlacedAll(fs)[|PlacedAll(fs)| - 1] == Placed(fs[|fs| - 1])[|Placed(fs[|fs| - 1])| - 1]
  {
    if fs != [] {
      var n := |fs| - 1;
      ReceivedSorted(fs[..n]);
      PlacedSorted(fs[n]);
      SortedConcat(PlacedAll(fs[..n]), Placed(fs[n]));
      hide Sorted, InOrder;
      JoinedSnoc(fs);
    }
  }

  lemma PlacedSorted(f: Frame)
    requires Sorted(f.events)
    ensures Sorted(Placed(f))
  {
  }

  lemma JoinedSnoc(fs: seq<Frame>)
    requires InOrder(fs) && fs != []
    ensures var n := |fs| - 1;
            Joined(fs) <==> Joined(fs[..n]) && (n > 0 ==> Placed(fs[n - 1])[|Placed(fs[n - 1])| - 1].t <= Placed(fs[n])[0].t)
  {
    hide Sorted;
    var n := |fs| - 1;
    assert forall j :: 0 <= j < n ==> fs[..n][j] == fs[j];
  }

  /** A late joiner's case: a queued frame that starts with an event older than the backfill's last, at
      the same delay, breaks the order. */
  lemma RepeatedFrameUnsorted(backfill: Frame, queued: Frame)
    requires backfill.events != [] && queued.events != [] && Sorted(backfill.events) && Sorted(queued.events)
    requires queued.received - queued.encoded == backfill.received - backfill.encoded
    requires queued.events[0].t < backfill.events[|backfill.events| - 1].t
    ensures !Sorted(PlacedAll([backfill, queued]))
  {
    ReceivedSorted([backfill, queued]);
    hide Sorted, InOrder, PlacedAll;
    assert [backfill, queued][1] == queued && [backfill, queued][1 - 1] == backfill;
  }

  // ---- the index -------------------------------------------------------------------------

  class Index {
    const flyMs: real
    const rewindMs: real
    var ev: seq<Ev>
    var liveStart: nat
    var visMap: seq<nat>

    // The latest time a live frame has shown; no live frame shows an earlier one.
    ghost var shown: real

    // Whatever is pushed, the live cursor has landed events behind it.
    ghost predicate Tracked()
      reads this
    {
      liveStart <= |ev| && forall j :: 0 <= j < liveStart ==> ev[j].t + flyMs < shown
    }

    ghost predicate Valid()
      reads this
    {
      Sorted(ev) && Tracked()
    }

    constructor (flyMs: real, rewindMs: real)
      ensures Valid() && ev == [] && liveStart == 0 && this.flyMs == flyMs && this.rewindMs == rewindMs
    {
      this.flyMs, this.rewindMs := flyMs, rewindMs;
      ev, liveStart, visMap, shown := [], 0, [], 0.0;
    }

    method PushEvent(t: real, sb: nat, db: nat)
      requires Tracked()
      modifies this`ev
      ensures Tracked() && ev == old(ev) + [Ev(t, sb, db)]
      ensures Sorted(ev) <==> Sorted(old(ev)) && (old(ev) != [] ==> old(ev)[|old(ev)| - 1].t <= t)
    {
      SortedConcat(ev, [Ev(t, sb, db)]);
      ev := ev + [Ev(t, sb, db)];
    }

    // The decoder's loop over one received frame.
    method Receive(f: Frame)
      requires Tracked()
      modifies this`ev
      ensures Tracked() && ev == old(ev) + Placed(f)
    {
      hide Sorted;
      var i := 0;
      while i < |f.events|
        invariant 0 <= i <= |f.events| && Tracked()
        invariant ev == old(ev) + Placed(f)[..i]
      {
        var e := f.events[i];
        PushEvent(f.received - (f.encoded - e.t), e.sb, e.db);
        assert Placed(f)[..i + 1] == Placed(f)[..i] + [Placed(f)[i]];
        i := i + 1;
      }
      assert Placed(f)[..|f.events|] == Placed(f);
    }

    method ClearEvents()
      requires Tracked()
      modifies this`ev, this`liveStart
      ensures Valid() && ev == [] && liveStart == 0
    {
      ev := [];
      liveStart := 0;
    }

    // How many events to drop: those before the first that is young enough, then what exceeds the cap.
    method DropCount(cutoff: real) returns (drop: nat)
      ensures drop == Drop(ev, cutoff)
    {
      drop := 0;
      while drop < |ev| && ev[drop].t < cutoff
        invariant 0 <= drop <= |ev|
        invariant FirstYoung(ev, drop, cutoff) == FirstYoung(ev, 0, cutoff)
      {
        drop := drop + 1;
      }
      var over := if |ev| - drop > MAX_EVENTS then |ev| - MAX_EVENTS - drop else 0;
      drop := drop + over;
    }

    // The live cursor stays on its event, or moves to the new start when that event is dropped.
    method PruneRing(now: real)
      requires Tracked()
      modifies this`ev, this`liveStart
      ensures Tracked() && (Sorted(old(ev)) ==> Sorted(ev))
      ensures var n := Drop(old(ev), now - rewindMs);
              && ev == old(ev)[n..] && |ev| <= MAX_EVENTS
              && liveStart == (if old(liveStart) < n then 0 else old(liveStart) - n)
              && (n <= old(liveStart) < |old(ev)| ==> ev[liveStart] == old(ev)[old(liveStart)])
    {
      hide Sorted, Drop;
      var drop := DropCount(now - rewindMs);
      Suffix(ev, drop);
      if drop > 0 {
        ev := ev[drop..];
        liveStart := if liveStart < drop then 0 else liveStart - drop;
      }
    }

    // Binary search; on a sorted index, the first whose time is not below value.
    method LowerBound(value: real) returns (lo: nat)
      ensures lo <= |ev| && (lo > 0 ==> ev[lo - 1].t < value) && (lo < |ev| ==> ev[lo].t >= value)
      ensures Sorted(ev) ==> forall j :: 0 <= j < lo ==> ev[j].t < value
      ensures Sorted(ev) ==> forall j :: lo <= j < |ev| ==> ev[j].t >= value
    {
      lo := 0;
      var hi := |ev|;
      while lo < hi
        invariant 0 <= lo <= hi <= |ev|
        invariant (lo > 0 ==> ev[lo - 1].t < value) && (hi < |ev| ==> ev[hi].t >= value)
      {
        var mid := (lo + hi) / 2;
        if ev[mid].t < value {
          lo := mid + 1;
        } else {
          hi := mid;
        }
      }
      assert Sorted(ev) ==> forall j :: 0 <= j < lo ==> ev[j].t <= ev[lo - 1].t;
      assert Sorted(ev) ==> forall j :: lo < j < |ev| ==> ev[lo].t <= ev[j].t;
    }

    // One frame at view time vt. It sweeps from the live cursor, or from where the search ends; on a
    // sorted index what it draws is what brute force over all events would draw, either way.
    method UpdatePackets(vt: real, live: bool, hidden: Hidden) returns (n: nat)
      requires Tracked() && (live && liveStart > 0 ==> shown <= vt)
      modifies this`liveStart, this`visMap, this`shown
      ensures Tracked() && (live ==> shown == vt) && (!live ==> liveStart == old(liveStart) && shown == old(shown))
      ensures live ==> liveStart == FirstYoung(ev, old(liveStart), vt - flyMs)
                       && visMap == Take(Swept(ev, liveStart, vt, hidden), MAX_VISIBLE)
      ensures !live ==> exists i: nat :: Boundary(ev, i, vt - flyMs) && visMap == Take(Swept(ev, i, vt, hidden), MAX_VISIBLE)
      ensures Sorted(ev) ==> visMap == Drawn(ev, vt, flyMs, hidden)
      ensures n == |visMap|
    {
      hide Brute, Swept, Sorted, Drawn, Take;
      var i: nat;
      if live {
        shown := vt;
        while liveStart < |ev| && ev[liveStart].t + flyMs < vt
          invariant liveStart <= |ev| && shown == vt
          invariant forall j :: 0 <= j < liveStart ==> ev[j].t + flyMs < vt
          invariant FirstYoung(ev, liveStart, vt - flyMs) == FirstYoung(ev, old(liveStart), vt - flyMs)
        {
          liveStart := liveStart + 1;
        }
        i := liveStart;
      } else {
        i := LowerBound(vt - flyMs);
      }
      assert Boundary(ev, i, vt - flyMs);
      visMap := Sweep(i, vt, hidden);
      n := |visMap|;
      SweptDraws(ev, i, vt, flyMs, hidden);
    }

    // The draw loop from index start.
    method Sweep(start: nat, vt: real, hidden: Hidden) returns (vis: seq<nat>)
      requires start <= |ev|
      ensures vis == Take(Swept(ev, start, vt, hidden), MAX_VISIBLE)
    {
      hide Concealed;
      vis := [];
      var i := start;
      while i < |ev| && |vis| < MAX_VISIBLE
        invariant start <= i <= |ev| && |vis| <= MAX_VISIBLE
        invariant vis + Swept(ev, i, vt, hidden) == Swept(ev, start, vt, hidden)
      {
        var e := ev[i];
        if e.t > vt {
          assert vis + [] == vis;
          return;
        }
        ghost var rest := Swept(ev, i + 1, vt, hidden);
        if Concealed(e, hidden) {
          assert [] + rest == rest;
          i := i + 1;
          continue;
        }
        assert vis + ([i] + rest) == (vis + [i]) + rest;
        vis := vis + [i];
        i := i + 1;
      }
      TakeAll(vis, Swept(ev, i, vt, hidden));
    }
  }

  lemma TakeAll(vis: seq<nat>, rest: seq<nat>)
    requires |vis| == MAX_VISIBLE || (rest == [] && |vis| <= MAX_VISIBLE)
    ensures Take(vis + rest, MAX_VISIBLE) == vis
  {
    assert rest == [] ==> vis + rest == vis;
    assert |vis| == MAX_VISIBLE ==> (vis + rest)[..MAX_VISIBLE] == vis;
  }

  // The first event from i on that is no older than cutoff.
  function FirstYoung(ev: seq<Ev>, i: nat, cutoff: real): (k: nat)
    requires i <= |ev|
    ensures i <= k <= |ev| && (k < |ev| ==> ev[k].t >= cutoff) && forall j :: i <= j < k ==> ev[j].t < cutoff
    decreases |ev| - i
  {
    if i < |ev| && ev[i].t < cutoff then FirstYoung(ev, i + 1, cutoff) else i
  }

  function Drop(ev: seq<Ev>, cutoff: real): (n: nat)
    ensures n <= |ev| && |ev| - n <= MAX_EVENTS
  {
    var k := FirstYoung(ev, 0, cutoff);
    if |ev| - k > MAX_EVENTS then |ev| - MAX_EVENTS else k
  }

  // Between an event below value and one that is not.
  predicate Boundary(ev: seq<Ev>, i: nat, value: real) {
    i <= |ev| && (i > 0 ==> ev[i - 1].t < value) && (i < |ev| ==> ev[i].t >= value)
  }

  // On a sorted index the sweep from a boundary draws what brute force draws.
  lemma SweptDraws(ev: seq<Ev>, i: nat, vt: real, fly: real, hidden: Hidden)
    requires Boundary(ev, i, vt - fly)
    ensures Sorted(ev) ==> Take(Swept(ev, i, vt, hidden), MAX_VISIBLE) == Drawn(ev, vt, fly, hidden)
  {
    hide Brute, Swept;
    if Sorted(ev) {
      SkipBefore(ev, i, vt, fly, hidden);
      SweptIsBrute(ev, i, vt, fly, hidden);
    }
  }

  /** On a sorted index pruning keeps exactly the longest suffix within the window and the cap. */
  lemma DropIsLeast(ev: seq<Ev>, cutoff: real, i: nat)
    requires Sorted(ev) && i <= |ev|
    ensures Drop(ev, cutoff) <= i <==> |ev| - i <= MAX_EVENTS && forall j :: i <= j < |ev| ==> ev[j].t >= cutoff
  {
    var k := FirstYoung(ev, 0, cutoff);
    if k <= i {
      forall j | i <= j < |ev|
        ensures ev[j].t >= cutoff
      {
        assert k < j ==> ev[k].t <= ev[j].t;
      }
    } else {
      assert ev[i].t < cutoff;
    }
    hide Sorted;
  }

  lemma Suffix(ev: seq<Ev>, n: nat)
    requires n <= |ev|
    ensures ev[0..] == ev && (forall j :: 0 <= j < |ev| - n ==> ev[n..][j] == ev[j + n])
    ensures Sorted(ev) ==> Sorted(ev[n..])
  {
  }

  lemma TakeKeeps(s: seq<nat>, k: nat)
    requires k < |s| && k < MAX_VISIBLE
    ensures s[k] in Take(s, MAX_VISIBLE)
  {
    assert Take(s, MAX_VISIBLE)[k] == s[k];
  }

  /** What Drawn says: the indices are increasing, each is an unhidden event in the window, and any such
      event left out comes after MAX_VISIBLE drawn ones. */
  lemma DrawnMeaning(ev: seq<Ev>, vt: real, fly: real, hidden: Hidden, i: nat)
    requires i < |ev|
    ensures var d := Drawn(ev, vt, fly, hidden);
            && |d| <= MAX_VISIBLE
            && (forall a, b :: 0 <= a < b < |d| ==> d[a] < d[b])
            && (i in d ==> InWindow(ev[i], vt, fly) && !Concealed(ev[i], hidden))
            && (InWindow(ev[i], vt, fly) && !Concealed(ev[i], hidden) && i !in d ==>
                  |d| == MAX_VISIBLE && forall a :: 0 <= a < |d| ==> d[a] < i)
  {
    BruteOrdered(ev, 0, vt, fly, hidden);
    BruteMembers(ev, 0, vt, fly, hidden, i);
    hide Brute;
    var s := Brute(ev, 0, vt, fly, hidden);
    if i in s && i !in Take(s, MAX_VISIBLE) {
      var k :| 0 <= k < |s| && s[k] == i;
      if k < MAX_VISIBLE { TakeKeeps(s, k); }
    }
  }

  ghost predicate Increasing(s: seq<nat>, lo: nat) {
    && (forall a :: 0 <= a < |s| ==> lo <= s[a])
    && (forall a, b :: 0 <= a < b < |s| ==> s[a] < s[b])
  }

  lemma IncreasingCons(i: nat, s: seq<nat>)
    requires Increasing(s, i + 1)
    ensures Increasing([i] + s, i) && Increasing(s, i)
  {
  }

  lemma {:induction false} BruteOrdered(ev: seq<Ev>, i: nat, vt: real, fly: real, hidden: Hidden)
    requires i <= |ev|
    ensures Increasing(Brute(ev, i, vt, fly, hidden), i)
    decreases |ev| - i
  {
    if i < |ev| {
      BruteOrdered(ev, i + 1, vt, fly, hidden);
      IncreasingCons(i, Brute(ev, i + 1, vt, fly, hidden));
      hide Increasing;
    }
  }

  lemma {:induction false} BruteMembers(ev: seq<Ev>, i: nat, vt: real, fly: real, hidden: Hidden, k: nat)
    requires i <= |ev| && k < |ev|
    ensures k in Brute(ev, i, vt, fly, hidden)
       <==> i <= k && InWindow(ev[k], vt, fly) && !Concealed(ev[k], hidden)
    decreases |ev| - i
  {
    if i < |ev| {
      BruteMembers(ev, i + 1, vt, fly, hidden, k);
      var rest := Brute(ev, i + 1, vt, fly, hidden);
      assert k in [i] + rest <==> k == i || k in rest;
    }
  }
}
