/** The agent as the object it is: fields updated by the flush loop, each method proved to take
    the corresponding step of the transition system. */
module AgentRunner {
  import opened Collector
  import opened Agent
  import D = Delivery

  /** What one flush of a schedule meets: the time it reads and the network and disk results. */
  datatype Turn = Turn(now: string, plan: D.Plan)

  class Runner {
    const cfg: Config
    var events: seq<Watched>     // the channel
    var pending: seq<Watched>
    var maxBatchSize: nat
    var lastResourceRV: string
    var phase: Phase
    var queueFile: seq<nat>      // build numbers of the batches on disk, one per line
    var built: seq<Batch>        // every payload batch so far, by build number
    ghost var received: seq<nat> // what the server has seen
    ghost var acked: set<nat>
    ghost var dropped: set<nat>
    ghost var enqueued: seq<Watched>
    ghost var flushed: seq<Group>
    ghost var peak: nat
    ghost var drainMark: nat

    ghost function Link(): D.Link
      reads this
    {
      D.Link(cfg.durable, |built|, queueFile, received, acked, dropped)
    }

    ghost function View(): State
      reads this
    {
      State(cfg, events, pending, maxBatchSize, lastResourceRV, phase, Link(), built, enqueued, flushed, peak, drainMark)
    }

    constructor (cfg: Config, maxBatchSize: nat)
      ensures View() == Init(cfg, maxBatchSize)
    {
      this.cfg := cfg;
      this.maxBatchSize := maxBatchSize;
      events, pending, lastResourceRV, phase := [], [], "", Running;
      queueFile, built := [], [];
      received, acked, dropped := [], {}, {};
      enqueued, flushed, peak, drainMark := [], [], maxBatchSize, 0;
    }

    /** `postBatch`: whether the post is acknowledged. */
    method Post(id: nat, outcome: D.Post) returns (ok: bool)
      modifies this`received, this`acked
      ensures ok == (outcome == D.Acked)
      ensures received == D.WithArrival(old(received), id, D.Arrives(outcome))
      ensures acked == if ok then old(acked) + {id} else old(acked)
    {
      ok := outcome == D.Acked;
      if D.Arrives(outcome) { received := received + [id]; }
      if ok { acked := acked + {id}; }
    }

    /** The replay loop over the lines of the queue file. */
    method ReplayLines(posts: seq<D.Post>) returns (remaining: seq<nat>)
      modifies this`received, this`acked
      ensures var n := |queueFile|;
              && remaining == queueFile[D.LeadingAcks(n, posts, 0)..]
              && received == old(received) + queueFile[..D.Arrivals(n, posts)]
              && acked == old(acked) + D.Elements(queueFile[..D.LeadingAcks(n, posts, 0)])
    {
      ghost var n, a, b := |queueFile|, D.LeadingAcks(|queueFile|, posts, 0), D.Arrivals(|queueFile|, posts);
      remaining := [];
      var failed := false;
      var i := 0;
      while i < |queueFile|
        invariant 0 <= i <= n
        invariant !failed ==> i <= a && remaining == [] && received == old(received) + queueFile[..i] && acked == old(acked) + D.Elements(queueFile[..i])
        invariant failed ==> a < i && remaining == queueFile[a..i] && received == old(received) + queueFile[..b] && acked == old(acked) + D.Elements(queueFile[..a])
      {
        var line := queueFile[i];
        assert queueFile[..i + 1] == queueFile[..i] + [line];
        if failed {
          remaining := remaining + [line];
        } else {
          var ok := Post(line, D.OutcomeAt(posts, i));
          if !ok {
            remaining := remaining + [line];
            failed := true;
          }
        }
        i := i + 1;
      }
      assert queueFile[a..n] == queueFile[a..] && queueFile[..n] == queueFile;
      assert !failed ==> a == n && b == n;
    }

    /** `replayQueued`: a read failure, a failed rewrite or an unfinished replay is an error. */
    method ReplayQueued(plan: D.Plan) returns (ok: bool)
      modifies this`queueFile, this`received, this`acked
      ensures (Link(), ok) == D.AfterReplay(old(Link()), plan)
    {
      if queueFile == [] && (plan.readOk || !cfg.durable) { return true; }
      if !plan.readOk { return false; }
      var remaining := ReplayLines(plan.replays);
      if !plan.rewriteOk { return false; }
      queueFile := remaining;
      ok := remaining == [];
    }

    /** `queueBatch`. */
    method QueueBatch(id: nat, plan: D.Plan)
      modifies this`queueFile, this`dropped
      ensures Link() == D.AfterAppend(old(Link()), id, plan)
    {
      if cfg.durable && plan.appendOk {
        queueFile := queueFile + [id];
      } else {
        dropped := dropped + {id};
      }
    }

    /** The new batch, once the queue has been replayed with result `replayed`. */
    method SettleBatch(id: nat, replayed: bool, plan: D.Plan)
      modifies this`queueFile, this`received, this`acked, this`dropped
      ensures Link() == D.Settle(old(Link()), replayed, id, plan)
    {
      if replayed {
        var ok := Post(id, plan.post);
        if ok { return; }
      }
      QueueBatch(id, plan);
    }

    /** Replay, then the batch if it has a payload. */
    method Deliver(id: nat, payload: bool, plan: D.Plan)
      modifies this`queueFile, this`received, this`acked, this`dropped
      ensures var (l, ok) := D.AfterReplay(old(Link()), plan);
              Link() == if payload then D.Settle(l, ok, id, plan) else l
    {
      var ok := ReplayQueued(plan);
      if payload { SettleBatch(id, ok, plan); }
    }

    /** `flushEvents`: build, replay, and only then send what is new. */
    method FlushEvents(group: seq<Watched>, now: string, plan: D.Plan)
      modifies this`queueFile, this`built, this`received, this`acked, this`dropped
      ensures View() == Agent.FlushEvents(old(View()), group, now, plan)
    {
      var batch := BuildBatch(cfg, lastResourceRV, group, now);
      var id, payload := |built|, HasPayload(batch);
      ghost var before := Link();
      if payload { built := built + [batch]; }
      assert Link() == if payload then before.(built := before.built + 1) else before;
      Deliver(id, payload, plan);
      assert Link() == D.Flush(before, payload, plan);
    }

    method FlushPending(now: string, plan: D.Plan)
      modifies this
      ensures View() == Agent.FlushPending(old(View()), now, plan)
    {
      FlushEvents(pending, now, plan);
      flushed := flushed + [Group(pending, peak, now)];
      pending, peak := [], maxBatchSize;
    }

    /** `enqueue`, when the channel has room; a full channel makes the watcher wait. */
    method Enqueue(ev: Watched)
      modifies this
      ensures View() == Step(old(View()), Event.Enqueue(ev))
    {
      if |events| < cfg.capacity {
        events, enqueued := events + [ev], enqueued + [ev];
        if ev.resourceVersion != "" { lastResourceRV := ev.resourceVersion; }
      }
    }

    method ApplyRuntimeConfig(max: int)
      modifies this
      ensures View() == Step(old(View()), Configure(max))
    {
      if phase == Running && max > 0 {
        maxBatchSize := max;
        peak := if pending == [] || max > peak then max else peak;
      }
    }

    /** One event off the channel, in the main loop or in the drain. */
    method TakeEvent(t: Turn)
      modifies this
      ensures View() == Step(old(View()), Take(t.now, t.plan))
    {
      if phase == Stopped || events == [] { return; }
      var ev := events[0];
      events, pending := events[1..], pending + [ev];
      if |pending| >= maxBatchSize {
        FlushPending(t.now, t.plan);
      }
    }

    method OnBatchTick(t: Turn)
      modifies this
      ensures View() == Step(old(View()), BatchTick(t.now, t.plan))
    {
      if phase == Running && |pending| > 0 {
        FlushPending(t.now, t.plan);
      }
    }

    method OnHeartbeatTick(t: Turn)
      modifies this
      ensures View() == Step(old(View()), HeartbeatTick(t.now, t.plan))
    {
      if phase == Running {
        if |pending| > 0 {
          FlushPending(t.now, t.plan);
        } else {
          FlushEvents([], t.now, t.plan);
        }
      }
    }

    method BeginDrain()
      requires phase == Running
      modifies this
      ensures View() == Step(old(View()), Cancel)
    {
      drainMark := |enqueued|;
      phase := Draining;
    }

    /** The drain loop; `before` are the steps taken so far. */
    method Drain(schedule: nat -> Turn, ghost start: State, ghost before: seq<Event>) returns (k: nat, ghost es: seq<Event>)
      requires phase == Draining && View() == Run(start, before) && AllTimed(before) && forall j :: schedule(j).now != ""
      modifies this
      ensures View() == Run(start, es) && AllTimed(es) && phase == Draining && events == []
    {
      k, es := 0, before;
      while events != []
        invariant View() == Run(start, es) && AllTimed(es) && phase == Draining
        decreases |events|
      {
        var t := schedule(k);
        TakeEvent(t);
        RunOne(start, es, Take(t.now, t.plan));
        k, es := k + 1, es + [Take(t.now, t.plan)];
      }
    }

    method FinishDrain(t: Turn)
      requires phase == Draining && events == []
      modifies this
      ensures View() == Step(old(View()), Finish(t.now, t.plan)) && phase == Stopped && events == [] && pending == []
    {
      if |pending| > 0 {
        FlushPending(t.now, t.plan);
      }
      phase := Stopped;
    }

    /** The shutdown branch: drain the channel, flush what is left, stop. The steps it takes are
        returned, so everything proved about runs applies to it. */
    method Shutdown(schedule: nat -> Turn) returns (ghost es: seq<Event>)
      requires phase == Running && forall k :: schedule(k).now != ""
      modifies this
      ensures View() == Run(old(View()), es) && AllTimed(es)
      ensures phase == Stopped && events == [] && pending == []
    {
      ghost var start := View();
      BeginDrain();
      RunOne(start, [], Cancel);
      assert [] + [Cancel] == [Cancel];
      var k, drained := Drain(schedule, start, [Cancel]);
      var t := schedule(k);
      FinishDrain(t);
      RunOne(start, drained, Finish(t.now, t.plan));
      es := drained + [Finish(t.now, t.plan)];
    }
  }

  lemma {:induction false} RunOne(a: State, es: seq<Event>, e: Event)
    ensures Run(a, es + [e]) == Step(Run(a, es), e)
    decreases |es|
  {
    if es == [] {
      assert [] + [e] == [e] && [e][1..] == [];
      assert Run(a, [e]) == Run(Step(a, e), []);
    } else {
      assert (es + [e])[1..] == es[1..] + [e];
      RunOne(Step(a, es[0]), es[1..], e);
    }
  }
}
