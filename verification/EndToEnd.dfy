/** From the watch stream to the inventory: replay and key deduplication together deliver every
    batch as if exactly once and in order. */
module EndToEnd {
  import opened Collector
  import opened CollectorProofs
  import opened Delivery
  import Agent

  /** The server's log names batches that were built. */
  predicate Names(batches: seq<Batch>, log: seq<nat>) { forall i :: 0 <= i < |log| ==> log[i] < |batches| }

  /** The server's store after the arrivals in `log`, where `clock(i)` is its time at arrival `i`. */
  function Serve(s: Store, batches: seq<Batch>, log: seq<nat>, clock: nat -> string): Store
    requires Names(batches, log)
    decreases |log|
  {
    if log == [] then s else
    var n := |log| - 1;
    Deliver(Serve(s, batches, log[..n], clock), batches[log[n]], clock(n))
  }

  predicate AllStamped(batches: seq<Batch>) { forall i :: 0 <= i < |batches| ==> Stamped(batches[i]) }

  lemma {:induction false} ArrivalsAreRemembered(s: Store, batches: seq<Batch>, log: seq<nat>, clock: nat -> string, id: nat)
    requires Names(batches, log) && AllStamped(batches) && id in log
    ensures Has(Serve(s, batches, log, clock), batches[id])
    decreases |log|
  {
    var n := |log| - 1;
    var before := Serve(s, batches, log[..n], clock);
    DeliveryIsRemembered(before, batches[log[n]], clock(n));
    if log[n] != id {
      assert id in log[..n];
      ArrivalsAreRemembered(s, batches, log[..n], clock, id);
    }
  }

  lemma {:induction false} DeliveryIgnoresClock(s: Store, b: Batch, now: string, later: string)
    requires Stamped(b)
    ensures Deliver(s, b, now) == Deliver(s, b, later)
  {
    ClockIsIrrelevant(b, now, later);
  }

  lemma {:induction false} ServeOneMore(s: Store, batches: seq<Batch>, log: seq<nat>, id: nat, clock: nat -> string)
    requires Names(batches, log) && id < |batches|
    ensures Names(batches, log + [id])
    ensures Serve(s, batches, log + [id], clock) == Deliver(Serve(s, batches, log, clock), batches[id], clock(|log|))
  {
    var more := log + [id];
    assert more[..|more| - 1] == log && more[|more| - 1] == id;
  }

  /** Repeats are invisible: the store only depends on the order of first arrivals. */
  lemma {:induction false} RepeatsAreInvisible(s: Store, batches: seq<Batch>, log: seq<nat>, clock: nat -> string, clock': nat -> string)
    requires Names(batches, log) && AllStamped(batches)
    ensures Names(batches, FirstArrivals(log))
    ensures Serve(s, batches, log, clock) == Serve(s, batches, FirstArrivals(log), clock')
    decreases |log|
  {
    if log != [] {
      var n := |log| - 1;
      var init, last := log[..n], log[n];
      assert log == init + [last];
      assert last < |batches| && Names(batches, init);
      ServeOneMore(s, batches, init, last, clock);
      RepeatsAreInvisible(s, batches, init, clock, clock');
      var first, before := FirstArrivals(init), Serve(s, batches, init, clock);
      if last in init {
        ArrivalsAreRemembered(s, batches, init, clock, last);
        RedeliveryIsNoOp(before, batches[last], clock(n));
        assert FirstArrivals(log) == first;
      } else {
        assert FirstArrivals(log) == first + [last];
        ServeOneMore(s, batches, first, last, clock');
        DeliveryIgnoresClock(before, batches[last], clock(n), clock'(|first|));
      }
    }
  }

  /** Delivering each batch exactly once, in the order they were built. */
  function DeliverInOrder(s: Store, batches: seq<Batch>): Store
    decreases |batches|
  {
    if batches == [] then s else
    var n := |batches| - 1;
    Deliver(DeliverInOrder(s, batches[..n]), batches[n], "")
  }

  lemma {:induction false} PrefixIsInOrder(s: Store, batches: seq<Batch>, m: nat, clock: nat -> string)
    requires m <= |batches| && AllStamped(batches)
    ensures Names(batches, Range(0, m))
    ensures Serve(s, batches, Range(0, m), clock) == DeliverInOrder(s, batches[..m])
    decreases m
  {
    if m > 0 {
      PrefixIsInOrder(s, batches, m - 1, clock);
      assert Range(0, m)[..m - 1] == Range(0, m - 1);
      assert batches[..m][..m - 1] == batches[..m - 1];
      DeliveryIgnoresClock(DeliverInOrder(s, batches[..m - 1]), batches[m - 1], clock(m - 1), "");
    }
  }

  /** End to end, in every run of the agent whose steps meet no loss condition, such as any run with
      a queue file that accepts every append: the server's store is the one that exactly-once, in-order delivery of the first `m` batches
      gives; every batch that is no longer queued is among them, and with an empty queue all
      are. */
  lemma {:induction false} ExactlyOnceInOrder(cfg: Agent.Config, max: nat, es: seq<Agent.Event>, s: Store, clock: nat -> string) returns (m: nat)
    requires max >= 1 && Agent.AllTimed(es) && Agent.LosesNone(Agent.Init(cfg, max), es)
    ensures var a := Agent.Run(Agent.Init(cfg, max), es);
            && Names(a.batches, a.link.received)
            && m <= |a.batches| <= m + |a.link.queue|
            && Serve(s, a.batches, a.link.received, clock) == DeliverInOrder(s, a.batches[..m])
            && (a.link.queue == [] ==> Serve(s, a.batches, a.link.received, clock) == DeliverInOrder(s, a.batches))
  {
    var a := Agent.Run(Agent.Init(cfg, max), es);
    Agent.InitInv(cfg, max);
    Agent.RunKeepsInv(Agent.Init(cfg, max), es);
    Agent.RunLossCondition(Agent.Init(cfg, max), es);
    assert Agent.Linked(a);
    var first;
    first, m := PrefixAndSuffix(a.link);
    forall i | 0 <= i < |a.link.received| ensures a.link.received[i] < |a.batches| { assert a.link.received[i] in a.link.received; }
    assert AllStamped(a.batches);
    RepeatsAreInvisible(s, a.batches, a.link.received, clock, clock);
    PrefixIsInOrder(s, a.batches, m, clock);
    if a.link.queue == [] { assert a.batches[..m] == a.batches; }
  }

  /** Even when batches are lost, what arrives is applied in build order: the store is that of
      delivering an increasing selection of the batches once each. */
  lemma {:induction false} NeverOutOfOrder(cfg: Agent.Config, max: nat, es: seq<Agent.Event>, s: Store, clock: nat -> string)
    requires max >= 1 && Agent.AllTimed(es)
    ensures var a := Agent.Run(Agent.Init(cfg, max), es);
            && Names(a.batches, a.link.received) && Names(a.batches, FirstArrivals(a.link.received))
            && Increasing(FirstArrivals(a.link.received))
            && Serve(s, a.batches, a.link.received, clock) == Serve(s, a.batches, FirstArrivals(a.link.received), clock)
  {
    var a := Agent.Run(Agent.Init(cfg, max), es);
    Agent.InitInv(cfg, max);
    Agent.RunKeepsInv(Agent.Init(cfg, max), es);
    assert Agent.Linked(a);
    forall i | 0 <= i < |a.link.received| ensures a.link.received[i] < |a.batches| { assert a.link.received[i] in a.link.received; }
    assert AllStamped(a.batches);
    FirstArrivalsIncrease(a.link.received);
    RepeatsAreInvisible(s, a.batches, a.link.received, clock, clock);
  }
}
