/** The broker's fan-out as a step machine: one batcher task, one client task, other clients coming
    and going. A batch is counted, sent and committed in three separate steps; the client subscribes,
    snapshots the ring and then forwards its receive queue. Every interleaving of these steps is a
    run. A receiver that lags behind the channel's capacity is not part of this model. */
module Fanout {
  import opened Ring

  // An event carries its arrival number.
  type Item = Entry<nat>

  // What the batcher is about to do with the batch in hand.
  datatype Phase = Idle | Counted | Sent

  // A batch holds the events numbered from first to end. heard says that receiver_count() was
  // positive at the count. The three times are step numbers.
  datatype Batch = Batch(first: nat, end: nat, heard: bool, countAt: nat, sendAt: nat, pushAt: nat)

  datatype Client = Client(subscribed: bool, subAt: nat, snapped: bool, snapAt: nat,
                           backfill: seq<Item>, queue: seq<seq<Item>>, forwarded: seq<seq<Item>>)

  datatype State = State(step: nat, clock: nat, pending: seq<Item>, phase: Phase, ring: seq<Item>,
                         others: nat, client: Client,
                         history: History)

  // History, read by no step: everything committed, the batches, and the batch in hand.
  datatype History = History(all: seq<Item>, log: seq<Batch>, heard: bool, countAt: nat, sendAt: nat)

  datatype Action =
    | Clock(ms: nat) | Arrive | Count | Send | Commit
    | Join | Leave | Subscribe | Snapshot | Forward

  const START := State(0, 0, [], Idle, [], 0, Client(false, 0, false, 0, [], [], []),
                       History([], [], false, 0, 0))

  predicate Enabled(s: State, a: Action) {
    match a
    case Clock(ms) => true
    case Arrive => s.phase == Idle
    case Count => s.phase == Idle && s.pending != []
    case Send => s.phase == Counted
    case Commit => s.phase == Sent
    case Join => true
    case Leave => s.others > 0
    case Subscribe => !s.client.subscribed
    case Snapshot => s.client.subscribed && !s.client.snapped
    case Forward => s.client.snapped && s.client.queue != []
  }

  function Act(s: State, a: Action): State
    requires Enabled(s, a)
  {
    var h, c := s.history, s.client;
    match a
    case Clock(ms) => s.(clock := s.clock + ms)
    case Arrive => s.(pending := s.pending + [Entry(s.clock, |h.all| + |s.pending|)])
    case Count =>
      s.(phase := Counted, history := h.(heard := s.others + (if c.subscribed then 1 else 0) > 0, countAt := s.step))
    case Send =>
      s.(phase := Sent,
         client := if h.heard && c.subscribed then c.(queue := c.queue + [s.pending]) else c,
         history := h.(sendAt := s.step))
    case Commit =>
      s.(phase := Idle, pending := [], ring := Pruned(s.ring + s.pending, Cutoff(s.clock)),
         history := h.(all := h.all + s.pending,
                      log := h.log + [Batch(|h.all|, |h.all| + |s.pending|, h.heard, h.countAt, h.sendAt, s.step)]))
    case Join => s.(others := s.others + 1)
    case Leave => s.(others := s.others - 1)
    case Subscribe => s.(client := c.(subscribed := true, subAt := s.step))
    case Snapshot => s.(client := c.(snapped := true, snapAt := s.step, backfill := s.ring))
    case Forward => s.(client := c.(queue := c.queue[1..], forwarded := c.forwarded + [c.queue[0]]))
  }

  function Next(s: State, a: Action): State
    requires Enabled(s, a)
  {
    Act(s, a).(step := s.step + 1)
  }

  // A run performs the enabled actions among those listed, in order.
  function Run(actions: seq<Action>): State {
    if actions == [] then START
    else
      var s, a := Run(actions[..|actions| - 1]), actions[|actions| - 1];
      if Enabled(s, a) then Next(s, a) else s
  }

  // ---- what reaches the client ----------------------------------------------------------

  function Flatten(fs: seq<seq<Item>>): seq<Item> {
    if fs == [] then [] else Flatten(fs[..|fs| - 1]) + fs[|fs| - 1]
  }

  // The backfill, the frames forwarded, and the frames queued to be forwarded next.
  function Delivered(c: Client): seq<Item> {
    c.backfill + Flatten(c.forwarded + c.queue)
  }

  // The batch was sent while the client was subscribed and someone had been counted.
  predicate Live(c: Client, b: Batch) {
    c.subscribed && b.heard && c.subAt < b.sendAt
  }

  function Slice(all: seq<Item>, b: Batch): seq<Item>
    requires b.first <= b.end <= |all|
  {
    all[b.first..b.end]
  }

  ghost predicate Contiguous(log: seq<Batch>, n: nat) {
    && (log == [] ==> n == 0)
    && (log != [] ==> log[0].first == 0 && log[|log| - 1].end == n)
    && (forall k :: 0 <= k < |log| ==> log[k].first < log[k].end <= n)
    && (forall k :: 0 < k < |log| ==> log[k].first == log[k - 1].end)
  }

  // The frames of the live batches, in order.
  function LiveFrames(all: seq<Item>, log: seq<Batch>, c: Client): seq<seq<Item>>
    requires forall k :: 0 <= k < |log| ==> log[k].first <= log[k].end <= |all|
  {
    if log == [] then []
    else
      var b := log[|log| - 1];
      LiveFrames(all, log[..|log| - 1], c) + if Live(c, b) then [Slice(all, b)] else []
  }

  ghost predicate Numbered(all: seq<Item>, pending: seq<Item>) {
    && (forall i :: 0 <= i < |all| ==> all[i].ev == i)
    && (forall i :: 0 <= i < |pending| ==> pending[i].ev == |all| + i)
  }

  // A step precedes another exactly when its number is smaller; the batch in hand comes last.
  ghost predicate Timed(s: State) {
    var h, c := s.history, s.client;
    && (forall k :: 0 <= k < |h.log| ==> h.log[k].countAt < h.log[k].sendAt < h.log[k].pushAt < s.step)
    && (s.phase != Idle ==> h.countAt < s.step)
    && (s.phase == Sent ==> h.countAt < h.sendAt < s.step)
    && (c.subscribed ==> c.subAt < s.step)
    && (c.snapped ==> c.subscribed && c.subAt < c.snapAt < s.step)
    && (forall k :: 0 <= k < |h.log| && c.subscribed ==>
          c.subAt != h.log[k].sendAt && c.subAt != h.log[k].countAt && (c.subAt < h.log[k].countAt ==> h.log[k].heard))
    && (s.phase != Idle && c.subscribed && c.subAt < h.countAt ==> h.heard)
    && (s.phase != Idle && c.subscribed ==> c.subAt != h.countAt)
    && (s.phase == Sent && c.subscribed ==> c.subAt != h.sendAt)
  }

  // The ring is a suffix of everything committed; a backfill is a slice of it ending with the last
  // batch pushed before the snapshot.
  ghost predicate Stored(s: State) {
    var h, c := s.history, s.client;
    && |s.ring| <= |h.all| && s.ring == h.all[|h.all| - |s.ring|..]
    && (c.snapped ==>
          exists hi: nat :: hi <= |h.all| && SnapshotAt(h, c, hi))
  }

  ghost predicate SnapshotAt(h: History, c: Client, hi: nat)
    requires hi <= |h.all|
  {
    && |c.backfill| <= hi && c.backfill == h.all[hi - |c.backfill|..hi]
    && forall k :: 0 <= k < |h.log| ==>
         if h.log[k].pushAt < c.snapAt then h.log[k].end <= hi
         else h.log[k].pushAt > c.snapAt && h.log[k].first >= hi
  }

  ghost predicate Inv(s: State) {
    var h, c := s.history, s.client;
    && Numbered(h.all, s.pending)
    && Contiguous(h.log, |h.all|)
    && Timed(s)
    && Stored(s)
    && (s.phase != Idle ==> s.pending != [])
    && c.forwarded + c.queue == LiveFrames(h.all, h.log, c) + InHand(s)
  }

  // The frame of the batch in hand, once it has been sent to the client.
  function InHand(s: State): seq<seq<Item>> {
    if s.phase == Sent && s.client.subscribed && s.history.heard && s.client.subAt < s.history.sendAt then [s.pending] else []
  }

  // ---- the invariant ----------------------------------------------------------------------

  lemma {:induction false} SameLive(all: seq<Item>, log: seq<Batch>, more: seq<Item>, c: Client, c': Client)
    requires forall k :: 0 <= k < |log| ==> log[k].first <= log[k].end <= |all|
    requires forall k :: 0 <= k < |log| ==> Live(c, log[k]) == Live(c', log[k])
    ensures LiveFrames(all + more, log, c') == LiveFrames(all, log, c)
  {
    if log != [] {
      SameLive(all, log[..|log| - 1], more, c, c');
      assert Slice(all + more, log[|log| - 1]) == Slice(all, log[|log| - 1]);
    }
  }

  lemma {:induction false} NoneLive(all: seq<Item>, log: seq<Batch>, c: Client)
    requires forall k :: 0 <= k < |log| ==> log[k].first <= log[k].end <= |all|
    requires forall k :: 0 <= k < |log| ==> !Live(c, log[k])
    ensures LiveFrames(all, log, c) == []
  {
    if log != [] { NoneLive(all, log[..|log| - 1], c); }
  }

  lemma RingSuffix(all: seq<Item>, ring: seq<Item>, pending: seq<Item>, cutoff: nat)
    requires |ring| <= |all| && ring == all[|all| - |ring|..]
    ensures var r, all' := Pruned(ring + pending, cutoff), all + pending;
            |r| <= |all'| && r == all'[|all'| - |r|..]
  {
    PrunedShorter(ring + pending, cutoff);
    assert ring + pending == (all + pending)[|all| - |ring|..];
    hide Pruned;
  }

  lemma SnapshotGrows(h: History, h': History, c: Client, hi: nat, b: Batch)
    requires hi <= |h.all| && SnapshotAt(h, c, hi) && h.all <= h'.all && h'.log == h.log + [b]
    requires b.first == |h.all| && b.pushAt > c.snapAt
    ensures SnapshotAt(h', c, hi)
  {
    assert h'.all[..|h.all|] == h.all;
    assert c.backfill == h'.all[hi - |c.backfill|..hi];
  }

  lemma CommitStored(s: State)
    requires Inv(s) && Enabled(s, Commit)
    ensures Stored(Next(s, Commit))
  {
    var t := Next(s, Commit);
    var h, h', c := s.history, t.history, s.client;
    RingSuffix(h.all, s.ring, s.pending, Cutoff(s.clock));
    hide Pruned, LiveFrames, Contiguous, Numbered, SnapshotAt;
    if c.snapped {
      var hi: nat :| hi <= |h.all| && SnapshotAt(h, c, hi);
      SnapshotGrows(h, h', c, hi, h'.log[|h.log|]);
    }
  }

  lemma ContiguousSnoc(log: seq<Batch>, n: nat, b: Batch)
    requires Contiguous(log, n) && b.first == n < b.end
    ensures Contiguous(log + [b], b.end)
  {
  }

  lemma CommitFrames(s: State)
    requires Inv(s) && Enabled(s, Commit)
    ensures var t := Next(s, Commit);
            Numbered(t.history.all, t.pending) && Contiguous(t.history.log, |t.history.all|)
            && t.client.forwarded + t.client.queue == LiveFrames(t.history.all, t.history.log, t.client) + InHand(t)
  {
    hide *;
    var h, c := s.history, s.client;
    var b := Batch(|h.all|, |h.all| + |s.pending|, h.heard, h.countAt, h.sendAt, s.step);
    BeforeCommit(s);
    CommitIs(s, b);
    EndsWithin(h.log, |h.all|);
    ContiguousSnoc(h.log, |h.all|, b);
    NumberedJoin(h.all, s.pending);
    SameLive(h.all, h.log, s.pending, c, c);
    LiveSnoc(h.all, h.log, s.pending, b, c);
    HandSent(s, Next(s, Commit), b);
    var frames := LiveFrames(h.all, h.log, c);
    assert frames + [] == frames && (frames + [s.pending]) + [] == frames + [s.pending];
  }

  // What the invariant says of a batch about to be committed.
  lemma BeforeCommit(s: State)
    requires Inv(s) && Enabled(s, Commit)
    ensures var h, c := s.history, s.client;
            && Numbered(h.all, s.pending) && Contiguous(h.log, |h.all|) && s.pending != []
            && (forall k :: 0 <= k < |h.log| ==> h.log[k].first <= h.log[k].end <= |h.all|)
            && c.forwarded + c.queue == LiveFrames(h.all, h.log, c) + InHand(s)
  {
    hide Numbered, Stored, Timed, LiveFrames, InHand;
  }

  lemma CommitIs(s: State, b: Batch)
    requires Enabled(s, Commit)
    requires var h := s.history; b == Batch(|h.all|, |h.all| + |s.pending|, h.heard, h.countAt, h.sendAt, s.step)
    ensures s.phase == Sent
    ensures var t := Next(s, Commit);
            && t.history.all == s.history.all + s.pending && t.history.log == s.history.log + [b]
            && t.client == s.client && t.pending == [] && t.phase == Idle
  {
    hide Pruned;
  }

  lemma NumberedJoin(all: seq<Item>, pending: seq<Item>)
    requires Numbered(all, pending)
    ensures Numbered(all + pending, [])
  {
  }

  // The frames of the live batches once one more is committed.
  lemma LiveSnoc(all: seq<Item>, log: seq<Batch>, pending: seq<Item>, b: Batch, c: Client)
    requires forall k :: 0 <= k < |log| ==> log[k].first <= log[k].end <= |all|
    requires b.first == |all| && b.end == |all| + |pending|
    ensures LiveFrames(all + pending, log + [b], c)
         == LiveFrames(all + pending, log, c) + if Live(c, b) then [pending] else []
  {
    assert (log + [b])[..|log + [b]| - 1] == log && Slice(all + pending, b) == pending;
    hide Live, Slice;
  }

  lemma HandSent(s: State, t: State, b: Batch)
    requires s.phase == Sent && t.phase == Idle && b.heard == s.history.heard && b.sendAt == s.history.sendAt
    ensures InHand(s) == (if Live(s.client, b) then [s.pending] else []) && InHand(t) == []
  {
  }

  lemma CommitTimed(s: State)
    requires Inv(s) && Enabled(s, Commit)
    ensures Timed(Next(s, Commit))
  {
    hide Pruned, LiveFrames, Stored, Contiguous, Numbered;
  }

  lemma CommitKeeps(s: State)
    requires Inv(s) && Enabled(s, Commit)
    ensures Inv(Next(s, Commit))
  {
    CommitStored(s);
    CommitFrames(s);
    CommitTimed(s);
    hide Pruned, LiveFrames, Stored, Contiguous, Numbered, Timed;
  }

  lemma SnapshotKeeps(s: State)
    requires Inv(s) && Enabled(s, Snapshot)
    ensures Inv(Next(s, Snapshot))
  {
    hide *;
    var t := Next(s, Snapshot);
    SnapshotFrames(s);
    SnapshotStored(s);
    InvParts(s);
    SnapshotTimed(s);
    SnapshotSame(s);
    InvMade(s, t);
  }

  lemma InvParts(s: State)
    requires Inv(s)
    ensures var h := s.history;
            Timed(s) && forall k :: 0 <= k < |h.log| ==> h.log[k].first <= h.log[k].end <= |h.all|
  {
    hide Numbered, Stored, Timed, LiveFrames, InHand;
  }

  lemma SnapshotSame(s: State)
    requires Enabled(s, Snapshot)
    ensures var t := Next(s, Snapshot); t.history == s.history && t.pending == s.pending && t.phase == s.phase
  {
  }

  // The invariant's other parts speak only of history and the batch in hand.
  lemma InvMade(s: State, t: State)
    requires Inv(s) && t.history == s.history && t.pending == s.pending && t.phase == s.phase
    requires Timed(t) && Stored(t)
    requires forall k :: 0 <= k < |t.history.log| ==> t.history.log[k].first <= t.history.log[k].end <= |t.history.all|
    requires t.client.forwarded + t.client.queue == LiveFrames(t.history.all, t.history.log, t.client) + InHand(t)
    ensures Inv(t)
  {
    hide Numbered, Contiguous, Stored, Timed, LiveFrames, InHand;
  }

  lemma SnapshotFrames(s: State)
    requires Inv(s) && Enabled(s, Snapshot)
    ensures var t := Next(s, Snapshot);
            t.client.forwarded + t.client.queue == LiveFrames(t.history.all, t.history.log, t.client) + InHand(t)
  {
    EndsWithin(s.history.log, |s.history.all|);
    SameLive(s.history.all, s.history.log, [], s.client, Next(s, Snapshot).client);
    hide LiveFrames, Stored, Contiguous, Timed, Numbered;
    assert s.history.all + [] == s.history.all;
  }

  lemma SnapshotTimed(s: State)
    requires Timed(s) && Enabled(s, Snapshot)
    ensures Timed(Next(s, Snapshot))
  {
  }

  lemma SnapshotStored(s: State)
    requires Inv(s) && Enabled(s, Snapshot)
    ensures Stored(Next(s, Snapshot))
  {
    var t := Next(s, Snapshot);
    EndsWithin(s.history.log, |s.history.all|);
    hide LiveFrames, Contiguous, Numbered, InHand;
    assert SnapshotAt(t.history, t.client, |s.history.all|);
  }

  lemma EndsWithin(log: seq<Batch>, n: nat)
    requires Contiguous(log, n)
    ensures forall k :: 0 <= k < |log| ==> log[k].end <= n
  {
  }

  lemma SnapshotStays(s: State, t: State)
    requires Stored(s) && t.history.all == s.history.all && t.history.log == s.history.log && t.ring == s.ring
    requires s.client.snapped == t.client.snapped && s.client.snapAt == t.client.snapAt
    requires s.client.backfill == t.client.backfill
    ensures Stored(t)
  {
    if s.client.snapped {
      var hi: nat :| hi <= |s.history.all| && SnapshotAt(s.history, s.client, hi);
      assert SnapshotAt(t.history, t.client, hi);
    }
  }

  lemma OtherTimed(s: State, a: Action)
    requires Inv(s) && Enabled(s, a) && !a.Commit?
    ensures Timed(Next(s, a))
  {
    hide Pruned, LiveFrames, Stored, Contiguous, Numbered;
  }

  lemma SubscribeFrames(s: State)
    requires Inv(s) && Enabled(s, Subscribe)
    ensures var t := Next(s, Subscribe);
            t.client.forwarded + t.client.queue == LiveFrames(t.history.all, t.history.log, t.client) + InHand(t)
  {
    var h := s.history;
    EndsWithin(h.log, |h.all|);
    NoneLive(h.all, h.log, s.client);
    NoneLive(h.all, h.log, Next(s, Subscribe).client);
    assert s.client.forwarded + s.client.queue == [];
    hide LiveFrames, Stored, Contiguous, Numbered;
  }

  lemma OtherFrames(s: State, a: Action)
    requires Inv(s) && Enabled(s, a) && !a.Commit? && !a.Snapshot? && !a.Subscribe?
    ensures var t := Next(s, a);
            t.client.forwarded + t.client.queue == LiveFrames(t.history.all, t.history.log, t.client) + InHand(t)
  {
    hide *;
    var t := Next(s, a);
    var h, c, c' := s.history, s.client, t.client;
    BeforeOther(s);
    OtherSame(s, a);
    SameLive(h.all, h.log, [], c, c');
    assert h.all + [] == h.all;
    OtherHand(s, a);
    var frames := LiveFrames(h.all, h.log, c);
    assert frames + [] == frames;
  }

  lemma BeforeOther(s: State)
    requires Inv(s)
    ensures var h, c := s.history, s.client;
            && (forall k :: 0 <= k < |h.log| ==> h.log[k].first <= h.log[k].end <= |h.all|)
            && Timed(s) && c.forwarded + c.queue == LiveFrames(h.all, h.log, c) + InHand(s)
  {
    hide Numbered, Stored, Timed, LiveFrames, InHand;
  }

  lemma OtherSame(s: State, a: Action)
    requires Enabled(s, a) && !a.Commit? && !a.Snapshot? && !a.Subscribe?
    ensures var t := Next(s, a);
            && t.history.all == s.history.all && t.history.log == s.history.log
            && forall b {:trigger Live(t.client, b)} :: Live(s.client, b) == Live(t.client, b)
  {
  }

  // A send hands the batch to the client; anything else leaves hand and frames as they are.
  lemma OtherHand(s: State, a: Action)
    requires Timed(s) && Enabled(s, a) && !a.Commit? && !a.Snapshot? && !a.Subscribe?
    ensures var t := Next(s, a);
            if a.Send?
            then InHand(s) == [] && t.client.forwarded + t.client.queue == (s.client.forwarded + s.client.queue) + InHand(t)
            else InHand(t) == InHand(s) && t.client.forwarded + t.client.queue == s.client.forwarded + s.client.queue
  {
    var t := Next(s, a);
    if a.Send? {
      assert s.client.subscribed ==> s.client.subAt < s.step;
      assert s.client.forwarded + s.client.queue + [] == s.client.forwarded + s.client.queue;
    }
    hide Timed;
  }

  // Every other action leaves what is committed and the ring alone.
  lemma OtherKeeps(s: State, a: Action)
    requires Inv(s) && Enabled(s, a) && !a.Commit? && !a.Snapshot?
    ensures Inv(Next(s, a))
  {
    SnapshotStays(s, Next(s, a));
    OtherTimed(s, a);
    if a.Subscribe? { SubscribeFrames(s); } else { OtherFrames(s, a); }
    hide LiveFrames, Stored, Contiguous, Timed, Pruned, InHand;
  }

  /** Every reachable state satisfies the invariant. */
  lemma {:induction false} Reachable(actions: seq<Action>)
    ensures Inv(Run(actions))
  {
    hide *;
    if actions == [] {
      StartKeeps();
    } else {
      var before, a := actions[..|actions| - 1], actions[|actions| - 1];
      assert actions == before + [a];
      Reachable(before);
      RunSnoc(before, a);
      if Enabled(Run(before), a) { ActionKeeps(Run(before), a); }
    }
  }

  lemma StartKeeps()
    ensures Inv(Run([]))
  {
    assert Run([]) == START;
    StartTimed();
    StartStored();
    StartFrames();
    hide Numbered, Contiguous, Timed, Stored, LiveFrames, InHand, Run;
  }

  lemma StartTimed()
    ensures Timed(START) && Numbered([], []) && Contiguous([], 0)
  {
  }

  lemma StartStored()
    ensures Stored(START)
  {
    assert START.ring == START.history.all[0..];
    hide SnapshotAt;
  }

  lemma StartFrames()
    ensures LiveFrames([], [], START.client) == [] == InHand(START)
  {
  }

  lemma ActionKeeps(s: State, a: Action)
    requires Inv(s) && Enabled(s, a)
    ensures Inv(Next(s, a))
  {
    hide *;
    if a.Commit? {
      CommitKeeps(s);
    } else if a.Snapshot? {
      SnapshotKeeps(s);
    } else {
      OtherKeeps(s, a);
    }
  }

  // ---- how many copies of an event the client gets ------------------------------------------

  ghost function Copies(s: State, i: nat): nat
    requires i < |s.history.all|
  {
    multiset(Delivered(s.client))[s.history.all[i]]
  }

  predicate InBatch(b: Batch, i: nat) { b.first <= i < b.end }

  lemma {:induction false} SliceCount(all: seq<Item>, a: nat, b: nat, i: nat)
    requires a <= b <= |all| && i < |all| && Numbered(all, [])
    ensures multiset(all[a..b])[all[i]] == if a <= i < b then 1 else 0
  {
    if a < b {
      SliceCount(all, a, b - 1, i);
      assert all[a..b] == all[a..b - 1] + [all[b - 1]];
      assert all[b - 1] == all[i] <==> i == b - 1;
    }
  }

  lemma {:induction false} PendingCount(pending: seq<Item>, x: Item)
    requires forall j :: 0 <= j < |pending| ==> pending[j].ev != x.ev
    ensures multiset(pending)[x] == 0
  {
  }

  lemma LiveStep(all: seq<Item>, log: seq<Batch>, c: Client)
    requires log != [] && forall k :: 0 <= k < |log| ==> log[k].first <= log[k].end <= |all|
    ensures var m := |log| - 1;
            Flatten(LiveFrames(all, log, c))
            == Flatten(LiveFrames(all, log[..m], c)) + if Live(c, log[m]) then Slice(all, log[m]) else []
  {
    var m := |log| - 1;
    var fs := LiveFrames(all, log[..m], c);
    FlattenSnoc(fs, Slice(all, log[m]));
    assert fs + [] == fs && Flatten(fs) + [] == Flatten(fs);
  }

  lemma FlattenSnoc(fs: seq<seq<Item>>, f: seq<Item>)
    ensures Flatten(fs + [f]) == Flatten(fs) + f
  {
    assert (fs + [f])[..|fs + [f]| - 1] == fs;
  }

  lemma {:induction false} Increasing(log: seq<Batch>, n: nat, k: nat)
    requires Contiguous(log, n) && k < |log|
    ensures k < |log| - 1 ==> log[k].end <= log[|log| - 1].first
    decreases |log| - k
  {
    if k + 1 < |log| - 1 {
      Increasing(log, n, k + 1);
      assert log[k + 1].first == log[k].end;
    } else if k + 1 == |log| - 1 {
      assert log[k + 1].first == log[k].end;
    }
  }

  lemma ContiguousInit(log: seq<Batch>, n: nat)
    requires Contiguous(log, n) && log != []
    ensures Contiguous(log[..|log| - 1], log[|log| - 1].first)
  {
    var m := |log| - 1;
    forall k | 0 <= k < m
      ensures log[k].end <= log[m].first
    {
      Increasing(log, n, k);
    }
    if m > 0 { assert log[m].first == log[m - 1].end; }
  }

  // An event of no listed batch is in no live frame.
  lemma {:induction false} NotLiveCount(all: seq<Item>, log: seq<Batch>, n: nat, c: Client, i: nat)
    requires Contiguous(log, n) && n <= i < |all| && Numbered(all, [])
    ensures multiset(Flatten(LiveFrames(all, log, c)))[all[i]] == 0
  {
    if log != [] {
      var m := |log| - 1;
      ContiguousInit(log, n);
      NotLiveCount(all, log[..m], log[m].first, c, i);
      LiveStep(all, log, c);
      hide Contiguous, Flatten, LiveFrames;
      SliceCount(all, log[m].first, log[m].end, i);
    }
  }

  lemma {:induction false} LiveCount(all: seq<Item>, log: seq<Batch>, n: nat, c: Client, k: nat, i: nat)
    requires Contiguous(log, n) && n <= |all| && Numbered(all, []) && k < |log| && InBatch(log[k], i)
    ensures multiset(Flatten(LiveFrames(all, log, c)))[all[i]] == if Live(c, log[k]) then 1 else 0
  {
    var m := |log| - 1;
    ContiguousInit(log, n);
    Increasing(log, n, k);
    LiveStep(all, log, c);
    SliceCount(all, log[m].first, log[m].end, i);
    if k == m {
      NotLiveCount(all, log[..m], log[m].first, c, i);
    } else {
      LiveCount(all, log[..m], log[m].first, c, k, i);
    }
    hide Contiguous, Flatten, LiveFrames;
  }

  // The ring still held event i when the client took its snapshot.
  predicate Held(c: Client, i: nat) {
    c.backfill != [] && c.backfill[0].ev <= i
  }

  lemma QueuedCount(s: State, k: nat, i: nat)
    requires Inv(s) && k < |s.history.log| && InBatch(s.history.log[k], i) && i < |s.history.all|
    ensures multiset(Flatten(s.client.forwarded + s.client.queue))[s.history.all[i]]
         == if Live(s.client, s.history.log[k]) then 1 else 0
  {
    var h, c := s.history, s.client;
    LiveCount(h.all, h.log, |h.all|, c, k, i);
    PendingCount(s.pending, h.all[i]);
    var fs := LiveFrames(h.all, h.log, c);
    FlattenSnoc(fs, s.pending);
    assert fs + [] == fs;
    hide LiveFrames, Flatten, Stored, Timed, Contiguous;
  }

  lemma BackfillCount(s: State, k: nat, i: nat)
    requires Inv(s) && s.client.snapped && k < |s.history.log| && InBatch(s.history.log[k], i) && i < |s.history.all|
    ensures multiset(s.client.backfill)[s.history.all[i]]
         == if s.history.log[k].pushAt < s.client.snapAt && Held(s.client, i) then 1 else 0
  {
    hide *;
    var h, c := s.history, s.client;
    var hi := SnapshotEnd(s);
    BatchAround(s, k, i, hi);
    SliceCount(h.all, hi - |c.backfill|, hi, i);
    SameEnd(h.all, h.all[..hi], c.backfill, hi);
    HeldFrom(c, i);
  }

  // A batch pushed before the snapshot lies before hi, any other one behind it.
  lemma BatchAround(s: State, k: nat, i: nat, hi: nat)
    requires k < |s.history.log| && InBatch(s.history.log[k], i)
    requires hi <= |s.history.all| && SnapshotAt(s.history, s.client, hi)
    ensures i < hi <==> s.history.log[k].pushAt < s.client.snapAt
  {
  }

  // ---- what the ring still held at the snapshot --------------------------------------------------

  // The commits of a run, each with its batch and the clock.
  function Commits(actions: seq<Action>): seq<Step<nat>> {
    if actions == [] then []
    else
      var before, a := actions[..|actions| - 1], actions[|actions| - 1];
      var s := Run(before);
      Commits(before) + if a.Commit? && Enabled(s, a) then [Step(s.pending, s.clock)] else []
  }

  // Those before the client's snapshot.
  function CommitsSeen(actions: seq<Action>): seq<Step<nat>> {
    if actions == [] then []
    else
      var before, a := actions[..|actions| - 1], actions[|actions| - 1];
      if a.Snapshot? && Enabled(Run(before), a) then Commits(before) else CommitsSeen(before)
  }

  // At the last of the commits event i was within the cap and no older than the cutoff.
  predicate Kept(steps: seq<Step<nat>>, i: nat) {
    var all := All(steps);
    i < |all| && |all| - i <= RING_CAP && all[i].tsMs >= Cutoff(steps[|steps| - 1].nowMs)
  }

  ghost predicate Clocked(s: State) {
    && Sorted(s.history.all + s.pending)
    && forall i :: 0 <= i < |s.history.all + s.pending| ==> (s.history.all + s.pending)[i].tsMs <= s.clock
  }

  ghost predicate CommitsMatch(s: State, steps: seq<Step<nat>>) {
    && s.ring == RingAfter(steps) && s.history.all == All(steps)
    && (forall i :: 0 <= i < |steps| ==> steps[i].nowMs <= s.clock)
    && forall i, j :: 0 <= i < j < |steps| ==> steps[i].nowMs <= steps[j].nowMs
  }

  lemma CommitsSnoc(steps: seq<Step<nat>>, st: Step<nat>)
    ensures RingAfter(steps + [st]) == Pruned(RingAfter(steps) + st.batch, Cutoff(st.nowMs))
    ensures All(steps + [st]) == All(steps) + st.batch
  {
    assert (steps + [st])[..|steps + [st]| - 1] == steps;
    hide Pruned;
  }

  lemma ClockedNext(s: State, a: Action)
    requires Clocked(s) && Enabled(s, a)
    ensures Clocked(Next(s, a))
  {
    var t := Next(s, a);
    var es := s.history.all + s.pending;
    if a.Arrive? {
      assert t.history.all + t.pending == es + [Entry(s.clock, |es|)];
    } else {
      assert t.history.all + t.pending == es;
    }
    hide Pruned;
  }

  lemma MatchNext(s: State, a: Action, steps: seq<Step<nat>>)
    requires CommitsMatch(s, steps) && Enabled(s, a)
    ensures CommitsMatch(Next(s, a), steps + if a.Commit? then [Step(s.pending, s.clock)] else [])
  {
    hide Pruned, RingAfter, All;
    if a.Commit? {
      CommitsSnoc(steps, Step(s.pending, s.clock));
    } else {
      assert steps + [] == steps;
    }
  }

  // The ring and what was committed are those of the commits, whose clock never runs backwards.
  lemma {:induction false} RunCommits(actions: seq<Action>)
    ensures Clocked(Run(actions)) && CommitsMatch(Run(actions), Commits(actions))
  {
    if actions != [] {
      var before, a := actions[..|actions| - 1], actions[|actions| - 1];
      RunCommits(before);
      hide Next, Clocked, CommitsMatch;
      if Enabled(Run(before), a) {
        ClockedNext(Run(before), a);
        MatchNext(Run(before), a, Commits(before));
      }
      assert Commits(before) + [] == Commits(before);
    }
  }

  lemma MonotoneCommits(s: State, steps: seq<Step<nat>>)
    requires Clocked(s) && CommitsMatch(s, steps)
    ensures Monotone(steps)
  {
    forall i, j | 0 <= i < j < |s.history.all|
      ensures s.history.all[i].tsMs <= s.history.all[j].tsMs
    {
      assert (s.history.all + s.pending)[i].tsMs <= (s.history.all + s.pending)[j].tsMs;
    }
    hide RingAfter, All;
  }

  // The backfill is the ring after the commits seen, which begin the run's commits.
  lemma {:induction false} SnapshotCommits(actions: seq<Action>)
    ensures var s, seen := Run(actions), CommitsSeen(actions);
            && All(seen) <= All(Commits(actions))
            && (!s.client.snapped ==> seen == [])
            && (s.client.snapped ==> s.client.backfill == RingAfter(seen))
            && Monotone(seen)
  {
    if actions == [] {
    } else {
      var before, a := actions[..|actions| - 1], actions[|actions| - 1];
      SnapshotCommits(before);
      RunCommits(before);
      MonotoneCommits(Run(before), Commits(before));
      assert All(Commits(before)) <= All(Commits(actions)) by { CommitsGrow(actions); }
      hide Run, Commits, All, RingAfter, Monotone, Clocked, CommitsMatch;
      SnapshotOf(actions);
    }
  }

  lemma CommitsGrow(actions: seq<Action>)
    requires actions != []
    ensures All(Commits(actions[..|actions| - 1])) <= All(Commits(actions))
  {
    var before, a := actions[..|actions| - 1], actions[|actions| - 1];
    var s := Run(before);
    assert Commits(before) + [] == Commits(before);
    CommitsSnoc(Commits(before), Step(s.pending, s.clock));
    hide Run, All;
  }

  // The client's snapshot before and after the last action.
  lemma SnapshotOf(actions: seq<Action>)
    requires actions != []
    ensures var before, a := actions[..|actions| - 1], actions[|actions| - 1];
            var s, t := Run(before), Run(actions);
            if a.Snapshot? && Enabled(s, a) then t.client.snapped && t.client.backfill == s.ring
            else t.client.snapped == s.client.snapped && t.client.backfill == s.client.backfill
  {
  }

  // A suffix with the ring's property holds exactly the events that satisfy it one by one.
  lemma KeptFrom(steps: seq<Step<nat>>, i: nat)
    requires Monotone(steps)
    ensures var all, r := All(steps), RingAfter(steps);
            |r| <= |all| && r == all[|all| - |r|..] && (Kept(steps, i) <==> |all| - |r| <= i < |all|)
  {
    hide *;
    KeptIs(steps, i);
    if steps != [] {
      RingIsLongestSuffix(steps);
      StepsLast(steps);
      if i < |All(steps)| {
        LongestMember(All(steps), Cutoff(steps[|steps| - 1].nowMs), |All(steps)| - |RingAfter(steps)|, i);
      }
    }
  }

  lemma KeptIs(steps: seq<Step<nat>>, i: nat)
    ensures steps == [] ==> All(steps) == [] == RingAfter(steps) && !Kept(steps, i)
    ensures steps != [] ==>
              var all := All(steps);
              (Kept(steps, i) <==>
                 i < |all| && |all| - i <= RING_CAP && all[i].tsMs >= Cutoff(steps[|steps| - 1].nowMs))
  {
  }

  /** Whether the ring still held an event at the snapshot is decided by clock and cap alone. */
  lemma HeldIff(actions: seq<Action>, k: nat, i: nat)
    requires var s := Run(actions);
             && s.client.snapped && i < |s.history.all| && k < |s.history.log| && InBatch(s.history.log[k], i)
             && s.history.log[k].pushAt < s.client.snapAt
    ensures Held(Run(actions).client, i) <==> Kept(CommitsSeen(actions), i)
  {
    hide *;
    var s, seen := Run(actions), CommitsSeen(actions);
    Reachable(actions);
    RunCommits(actions);
    SnapshotCommits(actions);
    KeptFrom(seen, i);
    MatchAll(s, Commits(actions));
    var hi := SnapshotEnd(s);
    BatchAround(s, k, i, hi);
    SameEnd(s.history.all, All(seen), s.client.backfill, hi);
    HeldFrom(s.client, i);
  }

  // How much had been committed when the client took its snapshot.
  lemma SnapshotEnd(s: State) returns (hi: nat)
    requires Inv(s) && s.client.snapped
    ensures hi <= |s.history.all| && SnapshotAt(s.history, s.client, hi) && Numbered(s.history.all, [])
    ensures |s.client.backfill| <= hi && s.client.backfill == s.history.all[hi - |s.client.backfill|..hi]
  {
    hide LiveFrames, Timed, Contiguous;
    hi :| hi <= |s.history.all| && SnapshotAt(s.history, s.client, hi);
  }

  lemma MatchAll(s: State, steps: seq<Step<nat>>)
    requires CommitsMatch(s, steps)
    ensures s.history.all == All(steps)
  {
    hide RingAfter, All;
  }

  // Two slices that end a numbered sequence's prefixes are equal only if the prefixes are.
  lemma SameEnd(all: seq<Item>, seen: seq<Item>, back: seq<Item>, hi: nat)
    requires Numbered(all, []) && seen <= all && hi <= |all|
    requires |back| <= hi && back == all[hi - |back|..hi]
    requires |back| <= |seen| && back == seen[|seen| - |back|..]
    ensures back != [] ==> hi == |seen| && back[0].ev == hi - |back|
  {
    if back != [] {
      var n := |back| - 1;
      assert back[n] == all[hi - 1] && back[n] == seen[|seen| - 1] && seen[|seen| - 1] == all[|seen| - 1];
      assert back[0] == all[hi - |back|];
    }
  }

  lemma HeldFrom(c: Client, i: nat)
    ensures Held(c, i) <==> c.backfill != [] && c.backfill[0].ev <= i
  {
  }

  /** Over every run, a committed event reaches the client once for its live frame, if the batch was
      sent while the client was subscribed, and once in the backfill, if it was pushed before the
      snapshot and kept by the last commit before it; never otherwise. */
  lemma ExactDelivery(actions: seq<Action>, k: nat, i: nat)
    requires var s := Run(actions);
             s.client.snapped && i < |s.history.all| && k < |s.history.log| && InBatch(s.history.log[k], i)
    ensures var s := Run(actions);
            var b := s.history.log[k];
            Copies(s, i) == (if Live(s.client, b) then 1 else 0)
                          + (if b.pushAt < s.client.snapAt && Kept(CommitsSeen(actions), i) then 1 else 0)
  {
    var s := Run(actions);
    Reachable(actions);
    QueuedCount(s, k, i);
    BackfillCount(s, k, i);
    if s.history.log[k].pushAt < s.client.snapAt { HeldIff(actions, k, i); }
    hide Run, Inv, Flatten, Kept, CommitsSeen, Held;
  }

  /** The late joiner, exactly: an event that the last commit before the snapshot kept is missed only if
      subscribe and snapshot both fall between its batch's count and its ring push, and is missed then
      unless the subscribe came before a send that some other receiver had caused; it arrives twice
      exactly when it was sent live and the snapshot follows the push. */
  lemma LateJoiner(actions: seq<Action>, k: nat, i: nat)
    requires var s := Run(actions);
             s.client.snapped && i < |s.history.all| && k < |s.history.log| && InBatch(s.history.log[k], i)
             && (s.history.log[k].pushAt < s.client.snapAt ==> Kept(CommitsSeen(actions), i))
    ensures var s := Run(actions);
            var b, c, n := s.history.log[k], s.client, Copies(s, i);
            && n <= 2
            && (n == 0 ==> b.countAt < c.subAt && c.snapAt < b.pushAt)
            && (b.countAt < c.subAt && c.snapAt < b.pushAt ==> (n == 0 <==> b.sendAt < c.subAt || !b.heard))
            && (n == 2 <==> b.heard && c.subAt < b.sendAt && b.pushAt < c.snapAt)
  {
    ExactDelivery(actions, k, i);
    Reachable(actions);
    var s := Run(actions);
    var b, c := s.history.log[k], s.client;
    assert b.pushAt != c.snapAt by {
      var hi: nat :| hi <= |s.history.all| && SnapshotAt(s.history, c, hi);
    }
    hide Run, Copies, LiveFrames, Contiguous, Stored, Numbered, Kept, CommitsSeen;
  }

  // One event has been sent while nobody was subscribed.
  const SENT_ALONE := START.(step := 3, pending := [Entry(0, 0)], phase := Sent,
                             history := History([], [], false, 1, 2))

  const UNSEEN: Client := Client(true, 3, true, 4, [], [], [])

  lemma SentAlone()
    ensures Run([Arrive, Count, Send]) == SENT_ALONE
  {
    hide *;
    var a: seq<Action>, b: seq<Action>, c: seq<Action> := [Arrive], [Arrive, Count], [Arrive, Count, Send];
    AloneSteps();
    assert [] + [Arrive] == a && a + [Count] == b && b + [Send] == c;
    RunSnoc([], Arrive);
    RunSnoc(a, Count);
    RunSnoc(b, Send);
  }

  lemma AloneSteps()
    ensures Run([]) == START && Enabled(START, Arrive)
    ensures var s1 := Next(START, Arrive);
            Enabled(s1, Count) && var s2 := Next(s1, Count);
            Enabled(s2, Send) && Next(s2, Send) == SENT_ALONE
  {
    var s1 := START.(step := 1, pending := [Entry(0, 0)]);
    assert Next(START, Arrive) == s1;
    var s2 := s1.(step := 2, phase := Counted, history := History([], [], false, 1, 0));
    assert Next(s1, Count) == s2;
  }

  lemma ThenSnapshot(run: seq<Action>)
    requires Run(run) == SENT_ALONE
    ensures Run(run + [Subscribe] + [Snapshot]) == SENT_ALONE.(step := 5, client := UNSEEN)
  {
    var s4 := SENT_ALONE.(step := 4, client := Client(true, 3, false, 0, [], [], []));
    assert Next(SENT_ALONE, Subscribe) == s4 && Next(s4, Snapshot) == SENT_ALONE.(step := 5, client := UNSEEN);
    RunSnoc(run, Subscribe);
    RunSnoc(run + [Subscribe], Snapshot);
    hide Run, Next;
  }

  /** So subscribing before the snapshot does not, by itself, mean that nothing is missed: here the
      client subscribes and snapshots between the send and the push, and never sees the event. */
  lemma LiveFrameMissed()
    ensures var s := Run([Arrive, Count, Send] + [Subscribe] + [Snapshot] + [Commit]);
            s.client.snapped && |s.history.all| == 1 && Copies(s, 0) == 0
  {
    SentAlone();
    var run: seq<Action> := [Arrive, Count, Send];
    ThenSnapshot(run);
    RunSnoc(run + [Subscribe] + [Snapshot], Commit);
    hide Run, Copies, Pruned;
    NothingDelivered(Next(SENT_ALONE.(step := 5, client := UNSEEN), Commit));
  }

  lemma NothingDelivered(s: State)
    requires s.client.backfill == [] && s.client.forwarded == [] && s.client.queue == [] && |s.history.all| == 1
    ensures Copies(s, 0) == 0
  {
    assert Delivered(s.client) == [];
  }

  lemma RunSnoc(actions: seq<Action>, a: Action)
    ensures var s := Run(actions);
            Run(actions + [a]) == if Enabled(s, a) then Next(s, a) else s
  {
    assert (actions + [a])[..|actions + [a]| - 1] == actions;
  }
}
