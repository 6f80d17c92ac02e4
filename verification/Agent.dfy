/** The agent's flush loop as a transition system: watch events go through a bounded channel
    into `pending`, and `pending` goes out in batches. */
module Agent {
  import opened Text
  import opened Collector
  import Delivery

  // ---------------------------------------------------------------- building a batch

  /** One observed watch event: an object change, or a Kubernetes event with its text. */
  datatype Watched = Watched(isK8sEvent: bool, watchType: string, resourceVersion: string, item: Item, text: string)

  datatype Config = Config(clusterID: string, agentID: string, durable: bool, capacity: nat)

  /** What one watch event adds to the batch under construction. */
  function AddWatched(b: Batch, ev: Watched): Batch {
    var at := if ev.resourceVersion != "" then b.(resourceVersion := ev.resourceVersion) else b;
    if ev.isK8sEvent then
      if ev.watchType == "DELETED" || Blank(ev.text) then at else at.(k8sEvents := at.k8sEvents + [ev.text])
    else if ev.item.name == "" then at
    else at.(events := at.events + [AgentEvent(ev.watchType, ev.resourceVersion, ev.item.(observedAt := b.observedAt))])
  }

  function AddAll(b: Batch, events: seq<Watched>): Batch {
    if events == [] then b else AddWatched(AddAll(b, events[..|events| - 1]), events[|events| - 1])
  }

  /** `buildBatch`, stamped with the time of building. */
  function Build(cfg: Config, lastRV: string, events: seq<Watched>, now: string): Batch {
    AddAll(Batch(cfg.clusterID, cfg.agentID, lastRV, now, [], []), events)
  }

  /** Object events with a name and Kubernetes events with a text are what a batch carries. */
  predicate IsObjectChange(ev: Watched) { !ev.isK8sEvent && ev.item.name != "" }

  predicate IsReport(ev: Watched) { ev.isK8sEvent && ev.watchType != "DELETED" && !Blank(ev.text) }

  /** The positions of the events with property `p`, in order. */
  function Positions(p: Watched -> bool, events: seq<Watched>): (r: seq<nat>)
    ensures forall i :: i in r <==> 0 <= i < |events| && p(events[i])
    ensures forall i, j :: 0 <= i < j < |r| ==> r[i] < r[j]
  {
    if events == [] then [] else
    var n := |events| - 1;
    var before := Positions(p, events[..n]);
    assert forall k :: 0 <= k < |before| ==> before[k] in before;
    before + (if p(events[n]) then [n] else [])
  }

  /** `out` lists the images of the events with property `p`, in order. */
  ghost predicate Lists<T>(out: seq<T>, f: Watched -> T, p: Watched -> bool, events: seq<Watched>) {
    var at := Positions(p, events);
    |out| == |at| && forall k :: 0 <= k < |at| ==> at[k] in at && out[k] == f(events[at[k]])
  }

  lemma {:induction false} ListsOneMore<T>(out: seq<T>, f: Watched -> T, p: Watched -> bool, events: seq<Watched>)
    requires events != [] && Lists(out, f, p, events[..|events| - 1])
    ensures var ev := events[|events| - 1]; Lists(out + (if p(ev) then [f(ev)] else []), f, p, events)
  {
    var init, n := events[..|events| - 1], |events| - 1;
    var before, at := Positions(p, init), Positions(p, events);
    assert at == before + (if p(events[n]) then [n] else []);
    forall k | 0 <= k < |before| ensures at[k] == before[k] && init[before[k]] == events[at[k]] { assert before[k] in before; }
  }

  function Reported(ev: Watched, now: string): AgentEvent {
    AgentEvent(ev.watchType, ev.resourceVersion, ev.item.(observedAt := now))
  }

  /** The last resource version that is not empty, if there is one. */
  ghost predicate LatestVersion(rv: string, lastRV: string, events: seq<Watched>) {
    || (rv == lastRV && forall i :: 0 <= i < |events| ==> events[i].resourceVersion == "")
    || (exists i :: LatestAt(rv, events, i))
  }

  ghost predicate LatestAt(rv: string, events: seq<Watched>, i: int) {
    0 <= i < |events| && rv == events[i].resourceVersion != "" && forall j :: i < j < |events| ==> events[j].resourceVersion == ""
  }

  /** The batch holds the named object changes of the group and its reports, each kind in order,
      stamped with the time, and the last resource version that was not empty. */
  ghost predicate Carries(b: Batch, cfg: Config, lastRV: string, events: seq<Watched>, now: string) {
    && b.clusterID == cfg.clusterID && b.agentID == cfg.agentID && b.observedAt == now
    && Lists(b.events, (ev: Watched) => Reported(ev, now), IsObjectChange, events)
    && Lists(b.k8sEvents, (ev: Watched) => ev.text, IsReport, events)
    && LatestVersion(b.resourceVersion, lastRV, events)
  }

  lemma {:induction false} BuildCarries(cfg: Config, lastRV: string, events: seq<Watched>, now: string)
    ensures Carries(Build(cfg, lastRV, events, now), cfg, lastRV, events, now)
  {
    if events != [] {
      var init := events[..|events| - 1];
      BuildCarries(cfg, lastRV, init, now);
      var before := Build(cfg, lastRV, init, now);
      ListsOneMore(before.events, (ev: Watched) => Reported(ev, now), IsObjectChange, events);
      ListsOneMore(before.k8sEvents, (ev: Watched) => ev.text, IsReport, events);
      VersionOneMore(before.resourceVersion, lastRV, events);
    }
  }

  lemma {:induction false} VersionOneMore(rv: string, lastRV: string, events: seq<Watched>)
    requires events != [] && LatestVersion(rv, lastRV, events[..|events| - 1])
    ensures var own := events[|events| - 1].resourceVersion; LatestVersion(if own != "" then own else rv, lastRV, events)
  {
    var n := |events| - 1;
    var init := events[..n];
    assert forall i :: 0 <= i < n ==> init[i] == events[i];
    if events[n].resourceVersion != "" {
      assert LatestAt(events[n].resourceVersion, events, n);
    } else if i :| LatestAt(rv, init, i) {
      assert LatestAt(rv, events, i);
    }
  }

  /** `buildBatch`. */
  method BuildBatch(cfg: Config, lastRV: string, events: seq<Watched>, now: string) returns (b: Batch)
    ensures Carries(b, cfg, lastRV, events, now)
    ensures b == Build(cfg, lastRV, events, now)
  {
    BuildCarries(cfg, lastRV, events, now);
    b := Batch(cfg.clusterID, cfg.agentID, lastRV, now, [], []);
    for i := 0 to |events|
      invariant b == Build(cfg, lastRV, events[..i], now)
    {
      assert events[..i + 1][..i] == events[..i];
      b := AddWatched(b, events[i]);
    }
    assert events[..|events|] == events;
  }

  // ---------------------------------------------------------------- states and steps

  datatype Phase = Running | Draining | Stopped

  /** A group of events handed over together, with the largest batch size in force since it was
      started and the time of the flush. */
  datatype Group = Group(events: seq<Watched>, peak: nat, now: string)

  datatype State = State(
    cfg: Config, channel: seq<Watched>, pending: seq<Watched>, max: nat, lastRV: string, phase: Phase,
    link: Delivery.Link, batches: seq<Batch>,
    // history
    enqueued: seq<Watched>, flushed: seq<Group>, peak: nat, drainMark: nat)

  function Init(cfg: Config, max: nat): State {
    State(cfg, [], [], max, "", Running, Delivery.Start(cfg.durable), [], [], [], max, 0)
  }

  /** `flushEvents` on a group of events. */
  function FlushEvents(a: State, events: seq<Watched>, now: string, plan: Delivery.Plan): State {
    var b := Build(a.cfg, a.lastRV, events, now);
    a.(link := Delivery.Flush(a.link, HasPayload(b), plan), batches := if HasPayload(b) then a.batches + [b] else a.batches)
  }

  /** Hands `pending` over and starts a new one. */
  function FlushPending(a: State, now: string, plan: Delivery.Plan): State {
    FlushEvents(a, a.pending, now, plan).(pending := [], flushed := a.flushed + [Group(a.pending, a.peak, now)], peak := a.max)
  }

  /** Takes one event off the channel; a full `pending` is flushed. */
  function Receive(a: State, now: string, plan: Delivery.Plan): State {
    if a.channel == [] then a else
    var took := a.(channel := a.channel[1..], pending := a.pending + [a.channel[0]]);
    if |took.pending| >= a.max then FlushPending(took, now, plan) else took
  }

  datatype Event =
    | Enqueue(ev: Watched)                             // a watcher puts an event on the channel
    | Configure(max: int)                              // a runtime configuration arrives
    | Take(now: string, plan: Delivery.Plan)           // the loop takes an event off the channel
    | BatchTick(now: string, plan: Delivery.Plan)
    | HeartbeatTick(now: string, plan: Delivery.Plan)
    | Cancel                                           // the context ends
    | Finish(now: string, plan: Delivery.Plan)         // the drain finds the channel empty

  function Step(a: State, e: Event): State {
    match e
    case Enqueue(ev) =>
      if |a.channel| >= a.cfg.capacity then a else
      a.(channel := a.channel + [ev], enqueued := a.enqueued + [ev], lastRV := if ev.resourceVersion != "" then ev.resourceVersion else a.lastRV)
    case Configure(max) =>
      if a.phase != Running || max <= 0 then a else
      a.(max := max, peak := if a.pending == [] || max > a.peak then max else a.peak)
    case Take(now, plan) => if a.phase == Stopped then a else Receive(a, now, plan)
    case BatchTick(now, plan) => if a.phase != Running || a.pending == [] then a else FlushPending(a, now, plan)
    case HeartbeatTick(now, plan) =>
      if a.phase != Running then a else if a.pending == [] then FlushEvents(a, [], now, plan) else FlushPending(a, now, plan)
    case Cancel => if a.phase != Running then a else a.(phase := Draining, drainMark := |a.enqueued|)
    case Finish(now, plan) =>
      if a.phase != Draining || a.channel != [] then a else
      (if a.pending == [] then a else FlushPending(a, now, plan)).(phase := Stopped)
  }

  function Run(a: State, es: seq<Event>): State
    decreases |es|
  {
    if es == [] then a else Run(Step(a, es[0]), es[1..])
  }

  // ---------------------------------------------------------------- invariants

  function Handed(groups: seq<Group>): seq<Watched> {
    if groups == [] then [] else Handed(groups[..|groups| - 1]) + groups[|groups| - 1].events
  }

  /** Flushed, pending and buffered events are the enqueued ones, in order. */
  predicate Conserved(a: State) { Handed(a.flushed) + a.pending + a.channel == a.enqueued }

  predicate Sized(a: State) {
    && 1 <= a.max <= a.peak && |a.pending| < a.peak
    && forall i :: 0 <= i < |a.flushed| ==> |a.flushed[i].events| <= a.flushed[i].peak
  }

  predicate Linked(a: State) {
    Delivery.Inv(a.link) && a.link.built == |a.batches| && forall i :: 0 <= i < |a.batches| ==> a.batches[i].observedAt != "" && HasPayload(a.batches[i])
  }

  predicate Drained(a: State) {
    && (a.phase != Running ==> a.drainMark <= |a.enqueued|)
    && (a.phase == Stopped ==> a.pending == [] && a.drainMark <= |Handed(a.flushed)|)
  }

  /** The part of the invariant about events, and the part about batches. */
  predicate Ordered(a: State) { Conserved(a) && Sized(a) && Drained(a) }

  predicate Inv(a: State) { Ordered(a) && Linked(a) }

  /** Clock readings are never empty. */
  predicate Timed(e: Event) { (e.Take? || e.BatchTick? || e.HeartbeatTick? || e.Finish?) ==> e.now != "" }

  // ---------------------------------------------------------------- batches

  /** What a step hands to `flushEvents`, if anything. */
  datatype Handover = Nothing | Handover(events: seq<Watched>, now: string, plan: Delivery.Plan)

  function HandedBy(a: State, e: Event): Handover {
    match e
    case Take(now, plan) =>
      if a.phase != Stopped && a.channel != [] && |a.pending| + 1 >= a.max then Handover(a.pending + [a.channel[0]], now, plan) else Nothing
    case BatchTick(now, plan) => if a.phase == Running && a.pending != [] then Handover(a.pending, now, plan) else Nothing
    case HeartbeatTick(now, plan) => if a.phase == Running then Handover(a.pending, now, plan) else Nothing
    case Finish(now, plan) => if a.phase == Draining && a.channel == [] && a.pending != [] then Handover(a.pending, now, plan) else Nothing
    case _ => Nothing
  }

  /** The batch a handover is built into. */
  function BuiltFrom(a: State, h: Handover): Batch
    requires h.Handover?
  {
    Build(a.cfg, a.lastRV, h.events, h.now)
  }

  /** A step touches the link and the batches only through its handover. */
  lemma {:induction false} StepThroughHandover(a: State, e: Event)
    ensures var r, h := Step(a, e), HandedBy(a, e);
            && r.cfg == a.cfg
            && r.link == (if h.Nothing? then a.link else Delivery.Flush(a.link, HasPayload(BuiltFrom(a, h)), h.plan))
            && r.batches == (if h.Nothing? || !HasPayload(BuiltFrom(a, h)) then a.batches else a.batches + [BuiltFrom(a, h)])
            && r.flushed == (if h.Nothing? || (e.HeartbeatTick? && a.pending == []) then a.flushed else a.flushed + [Group(h.events, a.peak, h.now)])
  {}

  lemma {:induction false} FlushKeepsLinked(a: State, events: seq<Watched>, now: string, plan: Delivery.Plan)
    requires Linked(a) && now != ""
    ensures Linked(FlushEvents(a, events, now, plan))
  {
    var b := Build(a.cfg, a.lastRV, events, now);
    BuildCarries(a.cfg, a.lastRV, events, now);
    Delivery.FlushKeepsInv(a.link, HasPayload(b), plan);
  }

  lemma {:induction false} StepKeepsLinked(a: State, e: Event)
    requires Linked(a) && Timed(e)
    ensures Linked(Step(a, e))
  {
    StepThroughHandover(a, e);
    var h := HandedBy(a, e);
    if h.Handover? { FlushKeepsLinked(a, h.events, h.now, h.plan); }
  }

  // ---------------------------------------------------------------- events

  /** A state that may be flushed: `pending` may have reached the largest size in force. */
  predicate Flushable(a: State) {
    && Conserved(a) && 1 <= a.max <= a.peak && |a.pending| <= a.peak
    && (forall i :: 0 <= i < |a.flushed| ==> |a.flushed[i].events| <= a.flushed[i].peak)
    && (a.phase != Running ==> a.drainMark <= |a.enqueued|) && a.phase != Stopped
  }

  lemma {:induction false} FlushPendingKeepsOrder(a: State, now: string, plan: Delivery.Plan)
    requires Flushable(a)
    ensures Ordered(FlushPending(a, now, plan))
  {
    var r := FlushPending(a, now, plan);
    HandedOneMore(a.flushed, a.pending, a.peak, now);
    assert Handed(r.flushed) + r.pending + r.channel == Handed(a.flushed) + a.pending + a.channel;
  }

  lemma {:induction false} OneMoves<T>(h: seq<T>, p: seq<T>, c: seq<T>)
    requires c != []
    ensures h + (p + [c[0]]) + c[1..] == h + p + c
  {
    assert c == [c[0]] + c[1..];
  }

  lemma {:induction false} OrderedIsFlushable(a: State)
    requires Ordered(a) && a.phase != Stopped
    ensures Flushable(a)
  {}

  /** The state with one event moved from the channel to `pending`. */
  function Took(a: State): State
    requires a.channel != []
  {
    a.(channel := a.channel[1..], pending := a.pending + [a.channel[0]])
  }

  lemma {:induction false} TakingKeepsOrder(a: State)
    requires Ordered(a) && a.phase != Stopped && a.channel != []
    ensures Flushable(Took(a)) && (|Took(a).pending| < a.max ==> Ordered(Took(a)))
  {
    OneMoves(Handed(a.flushed), a.pending, a.channel);
  }

  lemma {:induction false} ReceiveKeepsOrder(a: State, now: string, plan: Delivery.Plan)
    requires Ordered(a) && a.phase != Stopped
    ensures Ordered(Receive(a, now, plan))
  {
    if a.channel != [] {
      TakingKeepsOrder(a);
      if |Took(a).pending| >= a.max { FlushPendingKeepsOrder(Took(a), now, plan); }
    }
  }

  lemma {:induction false} EnqueueKeepsOrder(a: State, ev: Watched)
    requires Ordered(a)
    ensures Ordered(Step(a, Enqueue(ev)))
  {
    ConcatAssociative(Handed(a.flushed) + a.pending, a.channel, [ev]);
  }

  lemma {:induction false} FinishKeepsOrder(a: State, now: string, plan: Delivery.Plan)
    requires Ordered(a)
    ensures Ordered(Step(a, Finish(now, plan)))
  {
    if a.phase == Draining && a.channel == [] {
      var r := if a.pending == [] then a else FlushPending(a, now, plan);
      FlushPendingKeepsOrder(a, now, plan);
      assert r.pending == [] && r.channel == [] && r.enqueued == a.enqueued;
      assert Handed(r.flushed) + [] + [] == Handed(r.flushed);
    }
  }

  lemma {:induction false} TickKeepsOrder(a: State, now: string, plan: Delivery.Plan)
    requires Ordered(a)
    ensures Ordered(Step(a, BatchTick(now, plan))) && Ordered(Step(a, HeartbeatTick(now, plan)))
  {
    if a.phase == Running {
      OrderedIsFlushable(a);
      FlushPendingKeepsOrder(a, now, plan);
    }
  }

  lemma {:induction false} StepKeepsOrder(a: State, e: Event)
    requires Ordered(a)
    ensures Ordered(Step(a, e))
  {
    match e
    case Enqueue(ev) => EnqueueKeepsOrder(a, ev);
    case Configure(max) =>
    case Take(now, plan) =>
      if a.phase != Stopped { ReceiveKeepsOrder(a, now, plan); }
    case BatchTick(now, plan) => TickKeepsOrder(a, now, plan);
    case HeartbeatTick(now, plan) => TickKeepsOrder(a, now, plan);
    case Cancel =>
    case Finish(now, plan) => FinishKeepsOrder(a, now, plan);
  }

  /** Every step of the loop keeps the invariant. */
  lemma {:induction false} StepKeepsInv(a: State, e: Event)
    requires Inv(a) && Timed(e)
    ensures Inv(Step(a, e))
  {
    StepKeepsOrder(a, e);
    StepKeepsLinked(a, e);
  }

  predicate AllTimed(es: seq<Event>) { forall i :: 0 <= i < |es| ==> Timed(es[i]) }

  lemma {:induction false} RunKeepsInv(a: State, es: seq<Event>)
    requires Inv(a) && AllTimed(es)
    ensures Inv(Run(a, es))
    decreases |es|
  {
    if es != [] {
      StepKeepsInv(a, es[0]);
      RunKeepsInv(Step(a, es[0]), es[1..]);
    }
  }

  lemma {:induction false} InitInv(cfg: Config, max: nat)
    requires max >= 1
    ensures Inv(Init(cfg, max))
  {}

  // ---------------------------------------------------------------- when a run loses a batch

  predicate StepLoses(a: State, e: Event) {
    var h := HandedBy(a, e);
    h.Handover? && Delivery.Loses(a.link, HasPayload(BuiltFrom(a, h)), h.plan)
  }

  /** No step of the run meets the loss condition. */
  predicate LosesNone(a: State, es: seq<Event>)
    decreases |es|
  {
    es == [] || (!StepLoses(a, es[0]) && LosesNone(Step(a, es[0]), es[1..]))
  }

  lemma {:induction false} StepLossCondition(a: State, e: Event)
    requires Linked(a)
    ensures var r := Step(a, e).link;
            r.durable == a.link.durable && a.link.dropped <= r.dropped && (r.dropped == a.link.dropped <==> !StepLoses(a, e))
  {
    StepThroughHandover(a, e);
    var h := HandedBy(a, e);
    if h.Handover? { Delivery.LossCondition(a.link, HasPayload(BuiltFrom(a, h)), h.plan); }
  }

  /** A run loses nothing if and only if none of its steps meets the loss condition. */
  lemma {:induction false} RunLossCondition(a: State, es: seq<Event>)
    requires Linked(a) && AllTimed(es)
    ensures a.link.dropped <= Run(a, es).link.dropped
    ensures Run(a, es).link.dropped == a.link.dropped <==> LosesNone(a, es)
    decreases |es|
  {
    if es != [] {
      StepLossCondition(a, es[0]);
      StepKeepsLinked(a, es[0]);
      RunLossCondition(Step(a, es[0]), es[1..]);
    }
  }

  predicate AppendWorks(e: Event) { (e.Take? || e.BatchTick? || e.HeartbeatTick? || e.Finish?) ==> e.plan.appendOk }

  /** With a queue file that accepts every append, a run loses nothing. */
  lemma {:induction false} AppendsPreventLoss(a: State, es: seq<Event>)
    requires Linked(a) && AllTimed(es) && a.link.durable && forall i :: 0 <= i < |es| ==> AppendWorks(es[i])
    ensures LosesNone(a, es)
    decreases |es|
  {
    if es != [] {
      StepLossCondition(a, es[0]);
      StepKeepsLinked(a, es[0]);
      AppendsPreventLoss(Step(a, es[0]), es[1..]);
    }
  }

  // ---------------------------------------------------------------- what the steps accomplish

  /** A watcher's event gets on a channel with room; a positive batch size takes effect; a tick while
      running hands over all that is pending, and every heartbeat replays the queue; an event taken
      off the channel is handed over or pending. */
  lemma {:induction false} StepsAccomplish(a: State, e: Event)
    ensures e.Enqueue? && |a.channel| < a.cfg.capacity ==> var r := Step(a, e);
              r.channel == a.channel + [e.ev] && r.enqueued == a.enqueued + [e.ev] && (e.ev.resourceVersion != "" ==> r.lastRV == e.ev.resourceVersion)
    ensures e.Configure? && a.phase == Running && e.max > 0 ==> Step(a, e).max == e.max
    ensures (e.BatchTick? || e.HeartbeatTick?) && a.phase == Running ==> var r := Step(a, e);
              r.pending == [] && Handed(r.flushed) == Handed(a.flushed) + a.pending
    ensures e.HeartbeatTick? && a.phase == Running ==>
              Step(a, e).link == Delivery.Flush(a.link, HasPayload(Build(a.cfg, a.lastRV, a.pending, e.now)), e.plan)
    ensures e.Take? && a.phase != Stopped && a.channel != [] ==> var r := Step(a, e);
              r.channel == a.channel[1..] && Handed(r.flushed) + r.pending == Handed(a.flushed) + a.pending + [a.channel[0]]
  {
    if a.channel != [] {
      ConcatAssociative(Handed(a.flushed), a.pending, [a.channel[0]]);
      HandedOneMore(a.flushed, a.pending + [a.channel[0]], a.peak, if e.Take? then e.now else "");
    }
    HandedOneMore(a.flushed, a.pending, a.peak, if e.BatchTick? || e.HeartbeatTick? then e.now else "");
    assert Handed(a.flushed) + [] == Handed(a.flushed);
  }

  lemma {:induction false} HandedOneMore(groups: seq<Group>, events: seq<Watched>, peak: nat, now: string)
    ensures Handed(groups + [Group(events, peak, now)]) == Handed(groups) + events
  {
    assert (groups + [Group(events, peak, now)])[..|groups|] == groups;
  }

  // ---------------------------------------------------------------- the flush loop's promises

  /** In every run: the flushed groups, then `pending`, then the channel are the enqueued events in
      order; no group is larger than the largest batch size in force since it was started; and a
      finished drain has handed over everything that was buffered when it began. */
  lemma {:induction false} NothingLostInOrder(cfg: Config, max: nat, es: seq<Event>)
    requires max >= 1 && AllTimed(es)
    ensures var a := Run(Init(cfg, max), es);
            && Handed(a.flushed) + a.pending + a.channel == a.enqueued
            && (forall i :: 0 <= i < |a.flushed| ==> |a.flushed[i].events| <= a.flushed[i].peak)
            && (a.phase == Stopped ==> a.drainMark <= |a.enqueued| && a.enqueued[..a.drainMark] <= Handed(a.flushed))
  {
    InitInv(cfg, max);
    RunKeepsInv(Init(cfg, max), es);
    var a := Run(Init(cfg, max), es);
    if a.phase == Stopped {
      assert a.enqueued[..a.drainMark] == Handed(a.flushed)[..a.drainMark];
    }
  }
}
