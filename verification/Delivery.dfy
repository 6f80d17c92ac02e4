/** Store-and-forward delivery: `flushEvents`, `replayQueued` and `queueBatch` as a transition
    system over every schedule of network and disk results.

    Payload batches are named by their build number, so the queue file, the server's log and
    the batches lost to a failed append are sequences and sets of numbers. */
module Delivery {
  import opened Text

  /** What becomes of one posted batch. The agent cannot tell the last two apart. */
  datatype Post = Acked | ReplyLost | NotReceived

  predicate Arrives(p: Post) { p != NotReceived }

  /** The results one flush meets: reading the queue file, each replayed post, rewriting or
      removing the file, the post of the new batch, and appending to the file. */
  datatype Plan = Plan(readOk: bool, replays: seq<Post>, rewriteOk: bool, post: Post, appendOk: bool)

  /** `durable` is false when no queue file is configured. */
  datatype Link = Link(durable: bool, built: nat, queue: seq<nat>, received: seq<nat>, acked: set<nat>, dropped: set<nat>)

  function Start(durable: bool): Link { Link(durable, 0, [], [], {}, {}) }

  // ---------------------------------------------------------------- replay

  function OutcomeAt(posts: seq<Post>, k: nat): Post { if k < |posts| then posts[k] else NotReceived }

  /** How many entries of a queue of length `n`, from `k` on, are acknowledged before the first
      failure. */
  function LeadingAcks(n: nat, posts: seq<Post>, k: nat): (m: nat)
    requires k <= n
    ensures k <= m <= n
    ensures forall i :: k <= i < m ==> OutcomeAt(posts, i) == Acked
    ensures m < n ==> OutcomeAt(posts, m) != Acked
    decreases n - k
  {
    if k < n && OutcomeAt(posts, k) == Acked then LeadingAcks(n, posts, k + 1) else k
  }

  /** How many entries reach the server: the acknowledged ones, and one more if its reply is lost. */
  function Arrivals(n: nat, posts: seq<Post>): (m: nat)
    ensures m <= n
  {
    var a := LeadingAcks(n, posts, 0);
    if a < n && Arrives(OutcomeAt(posts, a)) then a + 1 else a
  }

  function Elements(s: seq<nat>): set<nat> { set x | x in s }

  /** `replayQueued`: the link afterwards and whether the replay reports success. Entries are
      posted in order up to the first failure; the rest stays queued. Without a configured queue
      file nothing is read. */
  function AfterReplay(l: Link, plan: Plan): (Link, bool) {
    if l.queue == [] && (plan.readOk || !l.durable) then (l, true) else
    if !plan.readOk then (l, false) else
    var n := |l.queue|;
    var a := LeadingAcks(n, plan.replays, 0);
    var sent := l.(received := l.received + l.queue[..Arrivals(n, plan.replays)], acked := l.acked + Elements(l.queue[..a]));
    if !plan.rewriteOk then (sent, false) else
    (sent.(queue := l.queue[a..]), a == n)
  }

  /** `queueBatch`: a batch that cannot be appended is gone. */
  function AfterAppend(l: Link, id: nat, plan: Plan): Link {
    if l.durable && plan.appendOk then l.(queue := l.queue + [id]) else l.(dropped := l.dropped + {id})
  }

  /** What the server has seen once batch `id` was posted. */
  function WithArrival(received: seq<nat>, id: nat, arrived: bool): seq<nat> {
    if arrived then received + [id] else received
  }

  /** The new batch, once the queue has been replayed with result `ok`. */
  function Settle(l: Link, ok: bool, id: nat, plan: Plan): Link {
    if !ok then AfterAppend(l, id, plan) else
    var posted := l.(received := WithArrival(l.received, id, Arrives(plan.post)));
    if plan.post == Acked then posted.(acked := posted.acked + {id}) else AfterAppend(posted, id, plan)
  }

  /** `flushEvents`: replay first; the new batch is posted only when nothing is left to replay,
      and a batch without payload is never queued. */
  function Flush(l: Link, payload: bool, plan: Plan): Link {
    var start := if payload then l.(built := l.built + 1) else l;
    var (replayed, ok) := AfterReplay(start, plan);
    if payload then Settle(replayed, ok, l.built, plan) else replayed
  }

  // ---------------------------------------------------------------- the invariant

  predicate Increasing(s: seq<nat>) { forall i, j :: 0 <= i < j < |s| ==> s[i] < s[j] }

  /** Numbers arrive for the first time in build order. */
  predicate FirstArrivalsInOrder(s: seq<nat>) {
    forall i, j :: 0 <= j < i < |s| && s[i] !in s[..i] ==> s[j] < s[i]
  }

  /** The queue before number `id` has already arrived whenever something later has. */
  predicate NoOvertaking(queue: seq<nat>, received: seq<nat>) {
    forall q, x :: q in queue && x in received && q < x ==> q in received
  }

  /** The invariant over the first `n` batches. */
  predicate InvAt(l: Link, n: nat) {
    && (forall q :: q in l.queue ==> q < n)
    && (forall x :: x in l.received ==> x < n)
    && (forall d :: d in l.dropped ==> d < n)
    && Increasing(l.queue)
    && FirstArrivalsInOrder(l.received)
    && NoOvertaking(l.queue, l.received)
    && (forall x :: x in l.acked ==> x in l.received)
    && (forall id :: 0 <= id < n ==> id in l.acked || id in l.queue || id in l.dropped)
    && SuffixQueued(l, n)
  }

  /** Everything built after a queued batch is queued behind it or was dropped. */
  predicate SuffixQueued(l: Link, n: nat) {
    forall q, id :: q in l.queue && q < id < n ==> id in l.queue || id in l.dropped
  }

  predicate Inv(l: Link) { InvAt(l, l.built) }

  // ---------------------------------------------------------------- preservation

  lemma {:induction false} OneArrival(queue: seq<nat>, received: seq<nat>, k: nat)
    requires Increasing(queue) && k < |queue|
    requires FirstArrivalsInOrder(received) && NoOvertaking(queue, received)
    requires forall i :: 0 <= i < k ==> queue[i] in received
    ensures FirstArrivalsInOrder(received + [queue[k]]) && NoOvertaking(queue, received + [queue[k]])
  {
    var q := queue[k];
    var more := received + [q];
    forall i, j | 0 <= j < i < |more| && more[i] !in more[..i] ensures more[j] < more[i] {
      if i < |received| {
        assert more[..i] == received[..i];
      } else {
        assert more[..i] == received;
        assert q in queue && received[j] in received;
      }
    }
    forall p, x | p in queue && x in more && p < x ensures p in more {
      if x !in received {
        assert x == q;
        var i :| 0 <= i < |queue| && queue[i] == p;
        assert i < k;
      }
    }
  }

  /** A prefix of the queue may arrive. */
  lemma {:induction false} PrefixArrives(queue: seq<nat>, received: seq<nat>, n: nat)
    requires Increasing(queue) && n <= |queue|
    requires FirstArrivalsInOrder(received) && NoOvertaking(queue, received)
    ensures FirstArrivalsInOrder(received + queue[..n]) && NoOvertaking(queue, received + queue[..n])
  {
    if n == 0 {
      assert received + queue[..0] == received;
    } else {
      PrefixArrives(queue, received, n - 1);
      var more := received + queue[..n - 1];
      forall i | 0 <= i < n - 1 ensures queue[i] in more { assert more[|received| + i] == queue[i]; }
      OneArrival(queue, more, n - 1);
      assert received + queue[..n] == more + [queue[n - 1]];
    }
  }

  lemma {:induction false} SuffixOfQueue(queue: seq<nat>, m: nat)
    requires Increasing(queue) && m <= |queue|
    ensures Increasing(queue[m..])
    ensures forall q :: q in queue <==> q in queue[..m] || q in queue[m..]
    ensures forall p, q :: p in queue[m..] && q in queue && p < q ==> q in queue[m..]
  {
    assert queue == queue[..m] + queue[m..];
    forall p, q | p in queue[m..] && q in queue && p < q ensures q in queue[m..] {
      LaterIsInSuffix(queue, m, p, q);
    }
  }

  lemma {:induction false} LaterIsInSuffix(queue: seq<nat>, m: nat, p: nat, q: nat)
    requires Increasing(queue) && m <= |queue| && p in queue[m..] && q in queue && p < q
    ensures q in queue[m..]
  {
    var i :| 0 <= i < |queue[m..]| && queue[m..][i] == p;
    var j :| 0 <= j < |queue| && queue[j] == q;
    assert queue[i + m] == p;
    assert queue[m..][j - m] == q;
  }

  lemma {:induction false} ReplayKeepsInv(l: Link, plan: Plan, n: nat)
    requires InvAt(l, n)
    ensures var (r, ok) := AfterReplay(l, plan);
            r.built == l.built && r.durable == l.durable && r.dropped == l.dropped && (ok ==> r.queue == []) && InvAt(r, n)
  {
    if l.queue != [] && plan.readOk {
      var a, b := LeadingAcks(|l.queue|, plan.replays, 0), Arrivals(|l.queue|, plan.replays);
      PrefixArrives(l.queue, l.received, b);
      SuffixOfQueue(l.queue, a);
      SuffixOfQueue(l.queue, b);
      var sent := l.(received := l.received + l.queue[..b], acked := l.acked + Elements(l.queue[..a]));
      assert l.queue[..b] == l.queue[..a] + l.queue[a..b];
      assert InvAt(sent, n);
      assert InvAt(sent.(queue := l.queue[a..]), n);
    }
  }

  lemma {:induction false} ArrivalKeepsOrder(received: seq<nat>, id: nat)
    requires FirstArrivalsInOrder(received) && forall x :: x in received ==> x < id
    ensures FirstArrivalsInOrder(received + [id])
  {
    var more := received + [id];
    forall i, j | 0 <= j < i < |more| && more[i] !in more[..i] ensures more[j] < more[i] {
      if i < |received| { assert more[..i] == received[..i]; } else { assert received[j] in received; }
    }
  }

  lemma {:induction false} ArrivalKeepsInv(l: Link, id: nat, arrived: bool)
    requires InvAt(l, id)
    ensures var more := WithArrival(l.received, id, arrived);
            && FirstArrivalsInOrder(more)
            && (forall x :: x in more ==> x <= id)
            && (forall x :: x in l.received ==> x in more)
            && (arrived ==> id in more)
  {
    ArrivalKeepsOrder(l.received, id);
    assert arrived ==> WithArrival(l.received, id, arrived)[|l.received|] == id;
  }

  lemma {:induction false} QueuedKeepsInv(l: Link, id: nat, arrived: bool)
    requires l.built == id + 1 && InvAt(l, id) && (arrived ==> l.queue == [])
    ensures Inv(l.(received := WithArrival(l.received, id, arrived), queue := l.queue + [id]))
  {
    ArrivalKeepsInv(l, id, arrived);
    var queue, more := l.queue + [id], WithArrival(l.received, id, arrived);
    assert forall q :: q in queue <==> q in l.queue || q == id;
    assert Increasing(queue) by {
      forall i, j | 0 <= i < j < |queue| ensures queue[i] < queue[j] { assert l.queue[i] in l.queue; }
    }
    assert forall x :: x in more ==> x in l.received || x == id;
    assert NoOvertaking(queue, more);
  }

  /** Nothing queued is overtaken by a batch that arrives when the queue is empty. */
  lemma {:induction false} ArrivalOvertakesNone(l: Link, id: nat, arrived: bool)
    requires NoOvertaking(l.queue, l.received) && (arrived ==> l.queue == [])
    ensures NoOvertaking(l.queue, WithArrival(l.received, id, arrived))
  {
    if arrived {
      assert forall q :: q !in l.queue;
    }
  }

  lemma {:induction false} DroppedKeepsInv(l: Link, id: nat, arrived: bool)
    requires l.built == id + 1 && InvAt(l, id) && (arrived ==> l.queue == [])
    ensures Inv(l.(received := WithArrival(l.received, id, arrived), dropped := l.dropped + {id}))
  {
    ArrivalKeepsInv(l, id, arrived);
    ArrivalOvertakesNone(l, id, arrived);
    var r := l.(received := WithArrival(l.received, id, arrived), dropped := l.dropped + {id});
    assert SuffixQueued(r, id + 1) by {
      forall q, k | q in r.queue && q < k < id + 1 ensures k in r.queue || k in r.dropped {
        assert k < id ==> k in l.queue || k in l.dropped;
      }
    }
  }

  lemma {:induction false} AckedKeepsInv(l: Link, id: nat)
    requires l.built == id + 1 && InvAt(l, id) && l.queue == []
    ensures Inv(l.(received := l.received + [id], acked := l.acked + {id}))
  {
    ArrivalKeepsInv(l, id, true);
    ArrivalOvertakesNone(l, id, true);
    var r := l.(received := l.received + [id], acked := l.acked + {id});
    assert r.received == WithArrival(l.received, id, true);
    assert SuffixQueued(r, id + 1) by { assert forall q :: q !in r.queue; }
  }

  lemma {:induction false} SettleKeepsInv(l: Link, ok: bool, id: nat, plan: Plan)
    requires l.built == id + 1 && InvAt(l, id) && (ok ==> l.queue == [])
    ensures Inv(Settle(l, ok, id, plan)) && Settle(l, ok, id, plan).built == l.built
  {
    var arrived := ok && Arrives(plan.post);
    if ok && plan.post == Acked {
      AckedKeepsInv(l, id);
    } else if l.durable && plan.appendOk {
      QueuedKeepsInv(l, id, arrived);
    } else {
      DroppedKeepsInv(l, id, arrived);
    }
  }

  /** Every flush, whatever the network and the disk do, keeps the invariant. */
  lemma {:induction false} FlushKeepsInv(l: Link, payload: bool, plan: Plan)
    requires Inv(l)
    ensures Inv(Flush(l, payload, plan))
    ensures Flush(l, payload, plan).built == l.built + (if payload then 1 else 0)
  {
    var id := l.built;
    var start := if payload then l.(built := l.built + 1) else l;
    ReplayKeepsInv(start, plan, id);
    var (replayed, ok) := AfterReplay(start, plan);
    if payload {
      SettleKeepsInv(replayed, ok, id, plan);
      assert Flush(l, payload, plan) == Settle(replayed, ok, id, plan);
    } else {
      assert Flush(l, payload, plan) == replayed;
    }
  }

  // ---------------------------------------------------------------- all runs

  datatype Input = Input(payload: bool, plan: Plan)

  function Run(l: Link, inputs: seq<Input>): Link
    decreases |inputs|
  {
    if inputs == [] then l else Run(Flush(l, inputs[0].payload, inputs[0].plan), inputs[1..])
  }

  lemma {:induction false} RunKeepsInv(l: Link, inputs: seq<Input>)
    requires Inv(l)
    ensures Inv(Run(l, inputs))
    decreases |inputs|
  {
    if inputs != [] {
      FlushKeepsInv(l, inputs[0].payload, inputs[0].plan);
      RunKeepsInv(Flush(l, inputs[0].payload, inputs[0].plan), inputs[1..]);
    }
  }

  // ---------------------------------------------------------------- when a batch is lost

  /** The replay leaves nothing queued and reports success: there was nothing, or everything was
      acknowledged and the file could be read and cleared. */
  predicate ReplayFinishes(l: Link, plan: Plan) {
    if l.queue == [] then plan.readOk || !l.durable else
    plan.readOk && plan.rewriteOk && forall i :: 0 <= i < |l.queue| ==> OutcomeAt(plan.replays, i) == Acked
  }

  /** The flush must queue its batch and cannot: no queue file, or a failed append, after a replay
      that stopped or a post that was not acknowledged. */
  predicate Loses(l: Link, payload: bool, plan: Plan) {
    payload && !(l.durable && plan.appendOk) && (!ReplayFinishes(l, plan) || plan.post != Acked)
  }

  lemma {:induction false} ReplaySucceedsExactlyWhen(l: Link, plan: Plan)
    ensures AfterReplay(l, plan).1 <==> ReplayFinishes(l, plan)
    ensures AfterReplay(l, plan).0.dropped == l.dropped && AfterReplay(l, plan).0.durable == l.durable
  {
    if l.queue != [] && plan.readOk {
      var m := LeadingAcks(|l.queue|, plan.replays, 0);
    }
  }

  /** A flush loses its batch exactly under that condition, and loses nothing else. */
  lemma {:induction false} LossCondition(l: Link, payload: bool, plan: Plan)
    requires Inv(l)
    ensures var r := Flush(l, payload, plan);
            r.durable == l.durable && r.dropped == if Loses(l, payload, plan) then l.dropped + {l.built} else l.dropped
    ensures l.built !in l.dropped
  {
    var start := if payload then l.(built := l.built + 1) else l;
    ReplaySucceedsExactlyWhen(start, plan);
  }

  /** No flush of the run meets the loss condition. */
  predicate LosesNone(l: Link, inputs: seq<Input>)
    decreases |inputs|
  {
    inputs == [] || (!Loses(l, inputs[0].payload, inputs[0].plan) && LosesNone(Flush(l, inputs[0].payload, inputs[0].plan), inputs[1..]))
  }

  /** A run loses nothing if and only if none of its flushes meets the loss condition. */
  lemma {:induction false} RunLossCondition(l: Link, inputs: seq<Input>)
    requires Inv(l)
    ensures l.dropped <= Run(l, inputs).dropped
    ensures Run(l, inputs).dropped == l.dropped <==> LosesNone(l, inputs)
    decreases |inputs|
  {
    if inputs != [] {
      var payload, plan := inputs[0].payload, inputs[0].plan;
      LossCondition(l, payload, plan);
      FlushKeepsInv(l, payload, plan);
      RunLossCondition(Flush(l, payload, plan), inputs[1..]);
    }
  }

  /** With a queue file that accepts every append, nothing is lost, whatever the network does. */
  lemma {:induction false} AppendsPreventLoss(l: Link, inputs: seq<Input>)
    requires Inv(l) && l.durable && forall i :: 0 <= i < |inputs| ==> inputs[i].plan.appendOk
    ensures LosesNone(l, inputs)
    decreases |inputs|
  {
    if inputs != [] {
      var payload, plan := inputs[0].payload, inputs[0].plan;
      LossCondition(l, payload, plan);
      FlushKeepsInv(l, payload, plan);
      AppendsPreventLoss(Flush(l, payload, plan), inputs[1..]);
    }
  }

  // ---------------------------------------------------------------- what a replay leaves

  /** Position `a` is the first one whose post is not acknowledged, or the end. */
  predicate FirstFailure(n: nat, posts: seq<Post>, a: nat) {
    a <= n && (forall i :: 0 <= i < a ==> OutcomeAt(posts, i) == Acked) && (a < n ==> OutcomeAt(posts, a) != Acked)
  }

  /** A replay that can read the file posts up to the first failure. What was acknowledged leaves
      the file, unless the file cannot be rewritten; the failed entry and everything behind it
      stay; of these only an entry whose reply was lost has reached the server. */
  lemma {:induction false} ReplayIsExact(l: Link, plan: Plan) returns (a: nat)
    requires plan.readOk && l.queue != []
    ensures FirstFailure(|l.queue|, plan.replays, a)
    ensures var (r, ok) := AfterReplay(l, plan);
            && r.queue == (if plan.rewriteOk then l.queue[a..] else l.queue)
            && r.received == l.received + l.queue[..a] + (if a < |l.queue| && OutcomeAt(plan.replays, a) == ReplyLost then [l.queue[a]] else [])
            && (forall x :: x in r.acked <==> x in l.acked || x in l.queue[..a])
            && (ok <==> a == |l.queue| && plan.rewriteOk)
            && r.built == l.built && r.durable == l.durable && r.dropped == l.dropped
  {
    a := LeadingAcks(|l.queue|, plan.replays, 0);
    if a < |l.queue| { assert l.queue[..a + 1] == l.queue[..a] + [l.queue[a]]; }
    ConcatAssociative(l.received, l.queue[..a], if a < |l.queue| then [l.queue[a]] else []);
  }

  /** An entry stays queued if and only if its post or one before it was not acknowledged. */
  lemma {:induction false} StaysQueuedExactlyWhen(l: Link, plan: Plan, i: nat)
    requires plan.readOk && plan.rewriteOk && Increasing(l.queue) && i < |l.queue|
    ensures l.queue[i] in AfterReplay(l, plan).0.queue <==> exists j :: 0 <= j <= i && OutcomeAt(plan.replays, j) != Acked
  {
    var a := ReplayIsExact(l, plan);
    var rest := l.queue[a..];
    if a <= i { assert rest[i - a] == l.queue[i] && OutcomeAt(plan.replays, a) != Acked; }
    if k :| 0 <= k < |rest| && rest[k] == l.queue[i] { assert l.queue[a + k] == l.queue[i]; }
  }

  /** The new batch reaches the server if and only if the replay finished and its post arrived; it
      is queued, last, if and only if it was not acknowledged and the file takes it. */
  lemma {:induction false} NewBatchIsSettled(l: Link, plan: Plan)
    requires Inv(l)
    ensures var r, id := Flush(l, true, plan), l.built;
            && (id in r.received <==> ReplayFinishes(l, plan) && Arrives(plan.post))
            && (id in r.acked <==> ReplayFinishes(l, plan) && plan.post == Acked)
            && (id in r.queue <==> !(ReplayFinishes(l, plan) && plan.post == Acked) && l.durable && plan.appendOk)
            && (id in r.queue ==> r.queue[|r.queue| - 1] == id)
  {
    var start := l.(built := l.built + 1);
    ReplaySucceedsExactlyWhen(start, plan);
    ReplayKeepsInv(start, plan, l.built);
    var (replayed, ok) := AfterReplay(start, plan);
    assert l.built !in replayed.acked && l.built !in replayed.queue && l.built !in replayed.received;
  }

  /** Nothing acknowledged is queued. */
  predicate NothingTwice(l: Link) { forall q :: q in l.queue ==> q !in l.acked }

  lemma {:induction false} ReplayKeepsNothingTwice(l: Link, plan: Plan)
    requires plan.rewriteOk && Increasing(l.queue) && NothingTwice(l)
    ensures NothingTwice(AfterReplay(l, plan).0)
  {
    if plan.readOk && l.queue != [] {
      var a := ReplayIsExact(l, plan);
      forall q | q in l.queue[a..] ensures q !in l.queue[..a] {
        var i :| 0 <= i < |l.queue[a..]| && l.queue[a..][i] == q;
        assert l.queue[a + i] == q;
        assert forall j :: 0 <= j < a ==> l.queue[j] < q;
      }
    }
  }

  lemma {:induction false} FlushKeepsNothingTwice(l: Link, payload: bool, plan: Plan)
    requires Inv(l) && NothingTwice(l) && plan.rewriteOk
    ensures NothingTwice(Flush(l, payload, plan))
  {
    var start := if payload then l.(built := l.built + 1) else l;
    ReplayKeepsNothingTwice(start, plan);
    ReplayKeepsInv(start, plan, l.built);
    var (replayed, ok) := AfterReplay(start, plan);
    assert l.built !in replayed.acked && l.built !in replayed.queue;
  }

  /** When every rewrite of the queue file succeeds, no acknowledged batch is ever still queued, so
      none is sent again. */
  lemma {:induction false} AcknowledgedLeavesQueue(l: Link, inputs: seq<Input>)
    requires Inv(l) && NothingTwice(l) && forall i :: 0 <= i < |inputs| ==> inputs[i].plan.rewriteOk
    ensures NothingTwice(Run(l, inputs))
    decreases |inputs|
  {
    if inputs != [] {
      FlushKeepsNothingTwice(l, inputs[0].payload, inputs[0].plan);
      FlushKeepsInv(l, inputs[0].payload, inputs[0].plan);
      AcknowledgedLeavesQueue(Flush(l, inputs[0].payload, inputs[0].plan), inputs[1..]);
    }
  }

  // ---------------------------------------------------------------- what it means

  /** The numbers in order of first arrival, repeats removed. */
  function FirstArrivals(s: seq<nat>): seq<nat> {
    if s == [] then [] else
    var init, last := s[..|s| - 1], s[|s| - 1];
    FirstArrivals(init) + (if last in init then [] else [last])
  }

  lemma {:induction false} FirstArrivalsElements(s: seq<nat>)
    ensures forall x :: x in FirstArrivals(s) <==> x in s
  {
    if s != [] {
      FirstArrivalsElements(s[..|s| - 1]);
      assert s == s[..|s| - 1] + [s[|s| - 1]];
    }
  }

  lemma {:induction false} FirstArrivalsIncrease(s: seq<nat>)
    requires FirstArrivalsInOrder(s)
    ensures Increasing(FirstArrivals(s))
  {
    if s != [] {
      var n := |s| - 1;
      var init := s[..n];
      assert FirstArrivalsInOrder(init) by {
        forall i, j | 0 <= j < i < |init| && init[i] !in init[..i] ensures init[j] < init[i] {
          assert init[..i] == s[..i];
        }
      }
      FirstArrivalsIncrease(init);
      FirstArrivalsElements(init);
      if s[n] !in init {
        var f := FirstArrivals(init);
        forall k | 0 <= k < |f| ensures f[k] < s[n] {
          assert f[k] in f && f[k] in init;
          var j :| 0 <= j < |init| && init[j] == f[k];
          assert s[j] < s[n];
        }
      }
    }
  }

  /** The numbers from `a` up to but not including `b`. */
  function Range(a: nat, b: nat): (r: seq<nat>)
    requires a <= b
    ensures |r| == b - a && forall i :: 0 <= i < |r| ==> r[i] == a + i
  {
    seq(b - a, i requires 0 <= i => a + i)
  }

  ghost predicate Lists(s: seq<nat>, a: nat, b: nat) {
    Increasing(s) && forall x :: x in s <==> a <= x < b
  }

  lemma {:induction false} ElementOfRange(s: seq<nat>, a: nat, b: nat, i: nat)
    requires Lists(s, a, b) && i < |s|
    ensures s[i] == a + i
  {
    assert s[i] in s;
    if i > 0 {
      ElementOfRange(s, a, b, i - 1);
      assert s[i - 1] < s[i];
    }
    assert a <= a + i <= s[i] < b;
    var x := a + i;
    assert x in s;
    var j :| 0 <= j < |s| && s[j] == x;
    if i > 0 { assert s[i - 1] < s[j]; }
    assert i <= j;
  }

  lemma {:induction false} IncreasingIsRange(s: seq<nat>, a: nat, b: nat)
    requires a <= b && Lists(s, a, b)
    ensures s == Range(a, b)
  {
    forall i | 0 <= i < |s| ensures s[i] == a + i && a + i < b {
      ElementOfRange(s, a, b, i);
      assert s[i] in s;
    }
    if s != [] { assert s[|s| - 1] == a + (|s| - 1); }
    if a < b {
      assert b - 1 in s;
      var j :| 0 <= j < |s| && s[j] == b - 1;
    }
    assert |s| == b - a;
  }

  /** What the server has, with repeats removed, in terms of build numbers. */
  predicate DeliveredPrefix(l: Link, m: nat) { m <= l.built && FirstArrivals(l.received) == Range(0, m) }

  /** In every run: batches arrive for the first time in build order, and every batch built has
      been acknowledged, is queued, or could not be written to the queue file. */
  lemma {:induction false} NoneOvertakenNoneForgotten(durable: bool, inputs: seq<Input>)
    ensures var l := Run(Start(durable), inputs);
            && Increasing(FirstArrivals(l.received))
            && (forall id :: 0 <= id < l.built ==> id in l.acked || id in l.queue || id in l.dropped)
            && (forall id :: id in l.acked ==> id in FirstArrivals(l.received))
  {
    var l := Run(Start(durable), inputs);
    RunKeepsInv(Start(durable), inputs);
    FirstArrivalsIncrease(l.received);
    FirstArrivalsElements(l.received);
  }

  lemma {:induction false} PrefixAndSuffix(l: Link) returns (a: nat, m: nat)
    requires Inv(l) && l.dropped == {}
    ensures a <= m <= l.built && l.queue == Range(a, l.built) && DeliveredPrefix(l, m)
  {
    a := if l.queue == [] then l.built else l.queue[0];
    assert l.queue != [] ==> l.queue[0] in l.queue;
    forall x ensures x in l.queue <==> a <= x < l.built {
      if x in l.queue {
        var i :| 0 <= i < |l.queue| && l.queue[i] == x;
      }
    }
    IncreasingIsRange(l.queue, a, l.built);
    FirstArrivalsIncrease(l.received);
    FirstArrivalsElements(l.received);
    m := Reached(l, a);
    IncreasingIsRange(FirstArrivals(l.received), 0, m);
  }

  /** The first number that has not arrived. */
  lemma {:induction false} Reached(l: Link, a: nat) returns (m: nat)
    requires Inv(l) && l.dropped == {} && a <= l.built && forall x :: x in l.queue <==> a <= x < l.built
    ensures a <= m <= l.built && forall x :: x in l.received <==> 0 <= x < m
  {
    m := a;
    while m < l.built && m in l.received
      invariant a <= m <= l.built && (forall x :: 0 <= x < m ==> x in l.received)
    {
      m := m + 1;
    }
    assert forall x :: x in l.received && m < x ==> m in l.queue;
  }

  /** In every run whose flushes meet no loss condition, such as any run with a queue file that
      accepts every append: the queue file is the suffix of the build order that starts at the
      oldest unacknowledged batch or earlier, and the server has received a prefix of the build
      order that covers everything no longer queued. */
  lemma {:induction false} QueueIsSuffixDeliveryIsPrefix(durable: bool, inputs: seq<Input>) returns (a: nat, m: nat)
    requires LosesNone(Start(durable), inputs)
    ensures var l := Run(Start(durable), inputs);
            && a <= m <= l.built && l.queue == Range(a, l.built) && DeliveredPrefix(l, m)
            && (forall id :: 0 <= id < l.built && id !in l.acked ==> id in l.queue)
  {
    RunKeepsInv(Start(durable), inputs);
    RunLossCondition(Start(durable), inputs);
    a, m := PrefixAndSuffix(Run(Start(durable), inputs));
  }
}
