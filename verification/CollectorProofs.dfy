/** What applying batches guarantees: at most once under any store failure, exactly once when
    store calls succeed, and counters that add up. */
module CollectorProofs {
  import opened Text
  import opened Collector

  // ---------------------------------------------------------------- at most once, whatever fails

  ghost predicate DistinctKeys(log: seq<Mutation>) {
    forall i, j :: 0 <= i < j < |log| ==> log[i].eventKey != log[j].eventKey
  }

  function Replay(base: map<RowKey, Row>, log: seq<Mutation>): map<RowKey, Row> {
    if log == [] then base else Perform(Replay(base, log[..|log| - 1]), log[|log| - 1].effect)
  }

  /** The inventory is the base changed by the log, and no event key occurs in it twice. */
  ghost predicate Sound(base: map<RowKey, Row>, s: Store, log: seq<Mutation>) {
    && DistinctKeys(log)
    && (forall i :: 0 <= i < |log| ==> log[i].eventKey in s.keys)
    && s.inventory == Replay(base, log)
  }

  /** An event either leaves inventory and log alone, or changes both under a key that was new. */
  lemma {:induction false} ApplyDeltaShape(p: Progress, d: Delta, calls: Calls)
    ensures var r := ApplyDelta(p, d, calls);
            || (r.log == p.log && r.store.inventory == p.store.inventory && p.store.keys <= r.store.keys)
            || (d.Delta? && d.eventKey !in p.store.keys && r.log == p.log + [Mutation(d.eventKey, d.effect)] &&
                r.store == Store(p.store.keys + {d.eventKey}, Perform(p.store.inventory, d.effect)))
  {}

  lemma {:induction false} MutationIsSound(base: map<RowKey, Row>, s: Store, log: seq<Mutation>, key: string, effect: Effect)
    requires Sound(base, s, log) && key !in s.keys
    ensures Sound(base, Store(s.keys + {key}, Perform(s.inventory, effect)), log + [Mutation(key, effect)])
  {
    var more := log + [Mutation(key, effect)];
    assert more[..|more| - 1] == log;
  }

  lemma {:induction false} ApplyDeltaIsSound(base: map<RowKey, Row>, p: Progress, d: Delta, calls: Calls)
    requires Sound(base, p.store, p.log)
    ensures Sound(base, ApplyDelta(p, d, calls).store, ApplyDelta(p, d, calls).log)
  {
    ApplyDeltaShape(p, d, calls);
    if ApplyDelta(p, d, calls).log != p.log { MutationIsSound(base, p.store, p.log, d.eventKey, d.effect); }
  }

  lemma {:induction false} ApplyDeltasIsSound(base: map<RowKey, Row>, p: Progress, ds: seq<Delta>, calls: seq<Calls>, i: nat)
    requires i <= |ds| && Sound(base, p.store, p.log)
    ensures var r := ApplyDeltas(p, ds, calls, i); Sound(base, r.store, r.log) && p.log <= r.log
    decreases |ds| - i
  {
    if !p.failed && i < |ds| {
      ApplyDeltaShape(p, ds[i], CallsAt(calls, i));
      ApplyDeltaIsSound(base, p, ds[i], CallsAt(calls, i));
      ApplyDeltasIsSound(base, ApplyDelta(p, ds[i], CallsAt(calls, i)), ds, calls, i + 1);
    }
  }

  /** One batch arriving at the server, with the results its store calls meet. */
  datatype Arrival = Arrival(batch: Batch, now: string, calls: seq<Calls>)

  datatype History = History(store: Store, log: seq<Mutation>)

  /** The store after any arrivals, failed ones included. */
  function Serve(h: History, arrivals: seq<Arrival>): History
    decreases |arrivals|
  {
    if arrivals == [] then h else
    var p := ApplyBatch(h.store, h.log, arrivals[0].batch, arrivals[0].now, arrivals[0].calls);
    Serve(History(p.store, p.log), arrivals[1..])
  }

  /** However batches repeat and whichever store calls fail, each event key changes the inventory
      at most once, and nothing else changes it. */
  lemma {:induction false} AtMostOnce(base: map<RowKey, Row>, h: History, arrivals: seq<Arrival>)
    requires Sound(base, h.store, h.log)
    ensures var r := Serve(h, arrivals); Sound(base, r.store, r.log) && h.log <= r.log
    decreases |arrivals|
  {
    if arrivals != [] {
      var a := arrivals[0];
      if Accepted(a.batch) {
        ApplyDeltasIsSound(base, Begin(h.store, h.log), Deltas(a.batch, a.now), a.calls, 0);
      }
      var p := ApplyBatch(h.store, h.log, a.batch, a.now, a.calls);
      AtMostOnce(base, History(p.store, p.log), arrivals[1..]);
    }
  }

  // ---------------------------------------------------------------- batches that go through

  /** What an event does to the store when all its calls succeed. */
  function Absorb(s: Store, d: Delta): Store {
    if d.Skip? || d.eventKey in s.keys then s else Store(s.keys + {d.eventKey}, Perform(s.inventory, d.effect))
  }

  function AbsorbAll(s: Store, ds: seq<Delta>): Store
    decreases |ds|
  {
    if ds == [] then s else Absorb(AbsorbAll(s, ds[..|ds| - 1]), ds[|ds| - 1])
  }

  /** Delivering a batch whose store calls all succeed. */
  function Deliver(s: Store, b: Batch, now: string): Store {
    if Accepted(b) then AbsorbAll(s, Deltas(b, now)) else s
  }

  lemma {:induction false} SuccessAbsorbs(s: Store, p: Progress, ds: seq<Delta>, calls: seq<Calls>, i: nat)
    requires i <= |ds| && p.store == AbsorbAll(s, ds[..i]) && !ApplyDeltas(p, ds, calls, i).failed
    ensures ApplyDeltas(p, ds, calls, i).store == AbsorbAll(s, ds)
    decreases |ds| - i
  {
    if i == |ds| {
      assert ds[..i] == ds;
    } else {
      var next := ApplyDelta(p, ds[i], CallsAt(calls, i));
      assert ds[..i + 1][..i] == ds[..i];
      SuccessAbsorbs(s, next, ds, calls, i + 1);
    }
  }

  lemma {:induction false} NoFailureGoesThrough(p: Progress, ds: seq<Delta>, i: nat)
    requires i <= |ds| && !p.failed
    ensures !ApplyDeltas(p, ds, [], i).failed
    decreases |ds| - i
  {
    if i < |ds| { NoFailureGoesThrough(ApplyDelta(p, ds[i], ALL_DONE), ds, i + 1); }
  }

  /** A batch that reports success has done exactly what an undisturbed delivery does, and an
      accepted batch whose calls all succeed reports success. */
  lemma {:induction false} SuccessIsDelivery(s: Store, log: seq<Mutation>, b: Batch, now: string, calls: seq<Calls>)
    ensures !ApplyBatch(s, log, b, now, calls).failed ==> ApplyBatch(s, log, b, now, calls).store == Deliver(s, b, now)
    ensures Accepted(b) ==> !ApplyBatch(s, log, b, now, []).failed
  {
    if Accepted(b) {
      NoFailureGoesThrough(Begin(s, log), Deltas(b, now), 0);
      if !ApplyBatch(s, log, b, now, calls).failed { SuccessAbsorbs(s, Begin(s, log), Deltas(b, now), calls, 0); }
    }
  }

  // ---------------------------------------------------------------- delivering again changes nothing

  /** The agent stamps every batch it builds. */
  predicate Stamped(b: Batch) { b.observedAt != "" }

  lemma {:induction false} ClockIsIrrelevant(b: Batch, now: string, later: string)
    requires Stamped(b)
    ensures Deltas(b, now) == Deltas(b, later)
  {
    forall i | 0 <= i < |b.events| ensures Interpret(b, now, b.events[i]) == Interpret(b, later, b.events[i]) {}
  }

  /** All events have their keys on record. */
  predicate Recorded(s: Store, ds: seq<Delta>) {
    forall k :: 0 <= k < |ds| ==> ds[k].Skip? || ds[k].eventKey in s.keys
  }

  lemma {:induction false} AbsorbRecords(s: Store, ds: seq<Delta>)
    ensures s.keys <= AbsorbAll(s, ds).keys && Recorded(AbsorbAll(s, ds), ds)
    decreases |ds|
  {
    if ds != [] {
      var n := |ds| - 1;
      AbsorbRecords(s, ds[..n]);
      assert forall k :: 0 <= k < n ==> ds[..n][k] == ds[k];
    }
  }

  lemma {:induction false} RecordedIsNoOp(s: Store, ds: seq<Delta>)
    requires Recorded(s, ds)
    ensures AbsorbAll(s, ds) == s
    decreases |ds|
  {
    if ds != [] { RecordedIsNoOp(s, ds[..|ds| - 1]); }
  }

  /** What a store must hold for another delivery of the batch to change nothing. */
  predicate Has(s: Store, b: Batch) { Accepted(b) ==> Recorded(s, Deltas(b, "")) }

  lemma {:induction false} RedeliveryIsNoOp(s: Store, b: Batch, now: string)
    requires Stamped(b) && Has(s, b)
    ensures Deliver(s, b, now) == s
  {
    if Accepted(b) {
      ClockIsIrrelevant(b, now, "");
      RecordedIsNoOp(s, Deltas(b, ""));
    }
  }

  lemma {:induction false} DeliveryIsRemembered(s: Store, b: Batch, now: string)
    requires Stamped(b)
    ensures Has(Deliver(s, b, now), b) && s.keys <= Deliver(s, b, now).keys
  {
    if Accepted(b) {
      ClockIsIrrelevant(b, now, "");
      AbsorbRecords(s, Deltas(b, ""));
    }
  }

  // ---------------------------------------------------------------- with and without keys

  /** The plain fold, which looks at no keys. */
  function PerformAll(inventory: map<RowKey, Row>, ds: seq<Delta>): map<RowKey, Row>
    decreases |ds|
  {
    if ds == [] then inventory else
    var before, d := PerformAll(inventory, ds[..|ds| - 1]), ds[|ds| - 1];
    if d.Skip? then before else Perform(before, d.effect)
  }

  ghost predicate FreshKeys(s: Store, ds: seq<Delta>) {
    && (forall i :: 0 <= i < |ds| && ds[i].Delta? ==> ds[i].eventKey !in s.keys)
    && (forall i, j :: 0 <= i < j < |ds| && ds[i].Delta? && ds[j].Delta? ==> ds[i].eventKey != ds[j].eventKey)
  }

  /** When the keys are new and differ, deduplication is invisible: every delta is applied. */
  lemma {:induction false} DistinctDeltasAllApply(s: Store, ds: seq<Delta>)
    requires FreshKeys(s, ds)
    ensures AbsorbAll(s, ds).inventory == PerformAll(s.inventory, ds)
    ensures forall k :: k in AbsorbAll(s, ds).keys <==> k in s.keys || exists i :: 0 <= i < |ds| && ds[i].Delta? && ds[i].eventKey == k
    decreases |ds|
  {
    if ds != [] {
      var n := |ds| - 1;
      var init := ds[..n];
      assert forall i :: 0 <= i < n ==> init[i] == ds[i];
      DistinctDeltasAllApply(s, init);
      assert ds[n].Delta? ==> ds[n].eventKey !in AbsorbAll(s, init).keys;
      forall k ensures k in AbsorbAll(s, ds).keys <==> k in s.keys || exists i :: 0 <= i < |ds| && ds[i].Delta? && ds[i].eventKey == k {
        if i :| 0 <= i < |ds| && ds[i].Delta? && ds[i].eventKey == k {
          if i < n { assert init[i].Delta? && init[i].eventKey == k; }
        }
        if k in AbsorbAll(s, init).keys && k !in s.keys {
          var i :| 0 <= i < n && init[i].Delta? && init[i].eventKey == k;
          assert ds[i].eventKey == k;
        }
      }
    }
  }

  // ---------------------------------------------------------------- why only at most once

  /** A row change that fails after its key was recorded is lost: delivering the batch again
      finds the key and skips the event. */
  lemma {:induction false} FailedChangeIsLost(s: Store, log: seq<Mutation>, b: Batch, now: string)
    requires Accepted(b) && Stamped(b) && |b.events| == 1
    requires var d := Interpret(b, now, b.events[0]); d.Delta? && d.eventKey !in s.keys
    ensures var failed := ApplyBatch(s, log, b, now, [Calls(Done, Done, FailedBefore, Done, Done)]);
            && failed.failed
            && Deliver(failed.store, b, now).inventory == s.inventory
            && Deliver(s, b, now).inventory == Perform(s.inventory, Interpret(b, now, b.events[0]).effect)
  {
    var ds := Deltas(b, now);
    var d := ds[0];
    var calls := [Calls(Done, Done, FailedBefore, Done, Done)];
    var p := ApplyDelta(Begin(s, log), d, calls[0]);
    assert CallsAt(calls, 0) == calls[0];
    assert ApplyDeltas(p, ds, calls, 1) == p;
    assert ds[..0] == [];
    assert AbsorbAll(p.store, ds) == Absorb(AbsorbAll(p.store, ds[..0]), d) == p.store;
    assert AbsorbAll(s, ds) == Absorb(AbsorbAll(s, ds[..0]), d);
  }

  // ---------------------------------------------------------------- exactly when a retry makes up

  /** The event's key gets recorded and its row change never happens: the key was written by a call
      that then failed, or a call before the row change failed, or the row change itself did. */
  predicate LosesOne(p: Progress, d: Delta, calls: Calls) {
    && d.Delta? && d.eventKey !in p.store.keys
    && (calls.insert == FailedAfter ||
        (calls.insert == Done && ((d.isPodDelete && calls.markPod != Done) || calls.change == FailedBefore)))
  }

  /** Some event that the loop reaches is lost that way. */
  predicate LosesChange(p: Progress, ds: seq<Delta>, calls: seq<Calls>, i: nat)
    requires i <= |ds|
    decreases |ds| - i
  {
    !p.failed && i < |ds| &&
    (LosesOne(p, ds[i], CallsAt(calls, i)) || LosesChange(ApplyDelta(p, ds[i], CallsAt(calls, i)), ds, calls, i + 1))
  }

  /** The changes an undisturbed loop still makes from event `i` on, given the keys on record. */
  function NewMutations(keys: set<string>, ds: seq<Delta>, i: nat): seq<Mutation>
    requires i <= |ds|
    decreases |ds| - i
  {
    if i == |ds| then [] else
    if ds[i].Skip? || ds[i].eventKey in keys then NewMutations(keys, ds, i + 1) else
    [Mutation(ds[i].eventKey, ds[i].effect)] + NewMutations(keys + {ds[i].eventKey}, ds, i + 1)
  }

  lemma {:induction false} UndisturbedLog(p: Progress, ds: seq<Delta>, i: nat)
    requires i <= |ds| && !p.failed
    ensures ApplyDeltas(p, ds, [], i).log == p.log + NewMutations(p.store.keys, ds, i)
    decreases |ds| - i
  {
    if i < |ds| {
      var next := ApplyDelta(p, ds[i], ALL_DONE);
      UndisturbedLog(next, ds, i + 1);
      if !ds[i].Skip? && ds[i].eventKey !in p.store.keys {
        ConcatAssociative(p.log, [Mutation(ds[i].eventKey, ds[i].effect)], NewMutations(next.store.keys, ds, i + 1));
      }
    }
  }

  lemma {:induction false} KeysOnlyGrow(p: Progress, ds: seq<Delta>, calls: seq<Calls>, i: nat)
    requires i <= |ds|
    ensures p.store.keys <= ApplyDeltas(p, ds, calls, i).store.keys
    decreases |ds| - i
  {
    if !p.failed && i < |ds| { KeysOnlyGrow(ApplyDelta(p, ds[i], CallsAt(calls, i)), ds, calls, i + 1); }
  }

  /** What a retry ends with, after the loop stopped with `f`. */
  function AfterRetry(f: Progress, ds: seq<Delta>, i: nat): seq<Mutation>
    requires i <= |ds|
  {
    f.log + NewMutations(f.store.keys, ds, i)
  }

  /** The event at which the loop stops. */
  lemma {:induction false} StopsHere(p: Progress, ds: seq<Delta>, calls: Calls, i: nat)
    requires i < |ds| && !p.failed && ApplyDelta(p, ds[i], calls).failed
    ensures AfterRetry(ApplyDelta(p, ds[i], calls), ds, i) == AfterRetry(p, ds, i) <==> !LosesOne(p, ds[i], calls)
  {
    var d, f := ds[i], ApplyDelta(p, ds[i], calls);
    if d.eventKey in p.store.keys {
      assert p.store.keys + {d.eventKey} == p.store.keys;
    } else {
      ConcatAssociative(p.log, [Mutation(d.eventKey, d.effect)], NewMutations(p.store.keys + {d.eventKey}, ds, i + 1));
    }
  }

  /** The event from which the loop goes on. */
  lemma {:induction false} GoesOn(p: Progress, ds: seq<Delta>, calls: Calls, i: nat, f: Progress)
    requires i < |ds| && !p.failed && !ApplyDelta(p, ds[i], calls).failed && ApplyDelta(p, ds[i], calls).store.keys <= f.store.keys
    ensures !LosesOne(p, ds[i], calls)
    ensures AfterRetry(p, ds, i) == AfterRetry(ApplyDelta(p, ds[i], calls), ds, i + 1) && AfterRetry(f, ds, i) == AfterRetry(f, ds, i + 1)
  {
    var d := ds[i];
    if d.Delta? && d.eventKey !in p.store.keys {
      ConcatAssociative(p.log, [Mutation(d.eventKey, d.effect)], NewMutations(p.store.keys + {d.eventKey}, ds, i + 1));
    }
  }

  lemma {:induction false} RetryFrom(p: Progress, ds: seq<Delta>, calls: seq<Calls>, i: nat)
    requires i <= |ds| && !p.failed
    ensures AfterRetry(ApplyDeltas(p, ds, calls, i), ds, i) == AfterRetry(p, ds, i) <==> !LosesChange(p, ds, calls, i)
    decreases |ds| - i
  {
    if i < |ds| {
      var next := ApplyDelta(p, ds[i], CallsAt(calls, i));
      if next.failed {
        StopsHere(p, ds, CallsAt(calls, i), i);
      } else {
        KeysOnlyGrow(next, ds, calls, i + 1);
        GoesOn(p, ds, CallsAt(calls, i), i, ApplyDeltas(p, ds, calls, i));
        RetryFrom(next, ds, calls, i + 1);
      }
    }
  }

  /** For every batch and every pattern of store failures: sending the batch again makes exactly the
      changes of an undisturbed delivery if and only if no event was lost between its key and its
      row. The inventory is then the same too. */
  lemma {:induction false} RetryMakesUpExactlyWhen(base: map<RowKey, Row>, s: Store, log: seq<Mutation>, b: Batch, now: string, later: string, calls: seq<Calls>)
    requires Accepted(b) && Stamped(b)
    ensures var first := ApplyBatch(s, log, b, now, calls);
            var retried, direct := ApplyBatch(first.store, first.log, b, later, []), ApplyBatch(s, log, b, now, []);
            && (retried.log == direct.log <==> !LosesChange(Begin(s, log), Deltas(b, now), calls, 0))
            && (retried.log == direct.log && Sound(base, s, log) ==> retried.store.inventory == direct.store.inventory)
  {
    ClockIsIrrelevant(b, now, later);
    var ds := Deltas(b, now);
    var first := ApplyBatch(s, log, b, now, calls);
    RetryFrom(Begin(s, log), ds, calls, 0);
    UndisturbedLog(Begin(s, log), ds, 0);
    UndisturbedLog(Begin(first.store, first.log), ds, 0);
    if Sound(base, s, log) {
      ApplyDeltasIsSound(base, Begin(s, log), ds, [], 0);
      ApplyDeltasIsSound(base, Begin(s, log), ds, calls, 0);
      ApplyDeltasIsSound(base, Begin(first.store, first.log), ds, [], 0);
    }
  }

  /** The pod table is told of deletions of pods, and of nothing else. */
  lemma {:induction false} PodDeletions(b: Batch, now: string, ev: AgentEvent)
    requires Interpret(b, now, ev).Delta?
    ensures Interpret(b, now, ev).isPodDelete <==> Upper(TrimSpace(ev.eventType)) == "DELETED" && Upper(TrimSpace(ev.item.kind)) == "POD"
  {
    var kind := TrimSpace(ev.item.kind);
    if |kind| == 3 { assert Upper(kind) == [UpperChar(kind[0]), UpperChar(kind[1]), UpperChar(kind[2])]; }
  }

  // ---------------------------------------------------------------- counters

  ghost function Total(m: map<string, nat>): nat {
    if m == map[] then 0 else
    var k :| k in m;
    m[k] + Total(m - {k})
  }

  lemma {:induction false} TotalWithout(m: map<string, nat>, k: string)
    requires k in m
    ensures Total(m) == m[k] + Total(m - {k})
  {
    var j :| j in m && Total(m) == m[j] + Total(m - {j});
    if j != k {
      TotalWithout(m - {j}, k);
      TotalWithout(m - {k}, j);
      assert m - {j} - {k} == m - {k} - {j};
    }
  }

  lemma {:induction false} TotalOfBump(m: map<string, nat>, k: string)
    ensures Total(Bump(m, k)) == Total(m) + 1
  {
    var r := Bump(m, k);
    TotalWithout(r, k);
    if k in m {
      TotalWithout(m, k);
      assert r - {k} == m - {k};
    } else {
      assert r - {k} == m;
    }
  }

  /** The counters after `n` events. */
  ghost predicate Tallied(c: Counts, n: nat) {
    && c.skipped + c.duplicates + c.applied == n
    && c.upserted + c.deleted == c.applied
    && Total(c.seenByKind) == c.applied && Total(c.dupByKind) == c.duplicates
  }

  lemma {:induction false} ApplyDeltaTallies(p: Progress, d: Delta, calls: Calls, n: nat)
    requires Tallied(p.counts, n) && !ApplyDelta(p, d, calls).failed
    ensures Tallied(ApplyDelta(p, d, calls).counts, n + 1)
  {
    if d.Delta? {
      TotalOfBump(p.counts.seenByKind, d.kind);
      TotalOfBump(p.counts.dupByKind, d.kind);
    }
  }

  lemma {:induction false} ApplyDeltasTallies(p: Progress, ds: seq<Delta>, calls: seq<Calls>, i: nat)
    requires i <= |ds| && Tallied(p.counts, i) && !ApplyDeltas(p, ds, calls, i).failed
    ensures Tallied(ApplyDeltas(p, ds, calls, i).counts, |ds|)
    decreases |ds| - i
  {
    if i < |ds| {
      var next := ApplyDelta(p, ds[i], CallsAt(calls, i));
      ApplyDeltaTallies(p, ds[i], CallsAt(calls, i), i);
      ApplyDeltasTallies(next, ds, calls, i + 1);
    }
  }

  /** On success every event is counted once: skipped, duplicate or applied; every applied one is
      an upsert or a delete; and the per-kind counters sum to the totals. */
  lemma {:induction false} CountersAddUp(s: Store, log: seq<Mutation>, b: Batch, now: string, calls: seq<Calls>)
    requires !ApplyBatch(s, log, b, now, calls).failed
    ensures Tallied(ApplyBatch(s, log, b, now, calls).counts, |b.events|)
  {
    ApplyDeltasTallies(Begin(s, log), Deltas(b, now), calls, 0);
  }

  // ---------------------------------------------------------------- offset rows

  datatype Offset = Offset(kind: string, seen: nat, duplicates: nat)

  function SumSeen(rows: seq<Offset>): nat { if rows == [] then 0 else SumSeen(rows[..|rows| - 1]) + rows[|rows| - 1].seen }

  function SumDuplicates(rows: seq<Offset>): nat { if rows == [] then 0 else SumDuplicates(rows[..|rows| - 1]) + rows[|rows| - 1].duplicates }

  function Count(m: map<string, nat>, k: string): nat { if k in m then m[k] else 0 }

  ghost predicate OneRowPerKind(rows: seq<Offset>, kinds: set<string>, seen: map<string, nat>, dups: map<string, nat>) {
    && (forall i, j :: 0 <= i < j < |rows| ==> rows[i].kind != rows[j].kind)
    && (forall k :: k in kinds <==> exists i :: 0 <= i < |rows| && rows[i].kind == k)
    && (forall i :: 0 <= i < |rows| ==> rows[i].seen == Count(seen, rows[i].kind) && rows[i].duplicates == Count(dups, rows[i].kind))
  }

  lemma {:induction false} WithoutOneMore(m: map<string, nat>, kinds: set<string>, k: string)
    requires k !in kinds
    ensures m - kinds - {k} == m - (kinds + {k}) && Count(m - kinds, k) == Count(m, k)
  {}

  lemma {:induction false} TotalWithoutMaybe(m: map<string, nat>, k: string)
    ensures Total(m) == Count(m, k) + Total(m - {k})
  {
    if k in m { TotalWithout(m, k); } else { assert m - {k} == m; }
  }

  /** The offset rows that one batch writes, in the order of writing. */
  class OffsetTable {
    var rows: seq<Offset>

    constructor ()
      ensures rows == []
    {
      rows := [];
    }

    /** One `UpsertK8sCollectorOffset` call. */
    method Upsert(row: Offset, ghost kinds: set<string>, ghost seen: map<string, nat>, ghost dups: map<string, nat>)
      requires OneRowPerKind(rows, kinds, seen, dups) && row.kind !in kinds
      requires row.seen == Count(seen, row.kind) && row.duplicates == Count(dups, row.kind)
      modifies this
      ensures OneRowPerKind(rows, kinds + {row.kind}, seen, dups)
      ensures SumSeen(rows) == SumSeen(old(rows)) + row.seen && SumDuplicates(rows) == SumDuplicates(old(rows)) + row.duplicates
    {
      ghost var before := rows;
      rows := rows + [row];
      assert rows[..|rows| - 1] == before;
      forall k | k in kinds ensures exists i :: 0 <= i < |rows| && rows[i].kind == k {
        var i :| 0 <= i < |before| && before[i].kind == k;
        assert rows[i].kind == k;
      }
      assert rows[|before|].kind == row.kind;
    }

    /** The first loop: the kinds with new events, whose duplicate counters it takes along. */
    method WriteSeen(seen: map<string, nat>, dups: map<string, nat>) returns (dupLeft: map<string, nat>)
      requires rows == []
      modifies this
      ensures OneRowPerKind(rows, seen.Keys, seen, dups) && dupLeft == dups - seen.Keys
      ensures SumSeen(rows) == Total(seen) && SumDuplicates(rows) + Total(dupLeft) == Total(dups)
    {
      var left := seen;
      dupLeft := dups;
      ghost var kinds: set<string> := {};
      while left != map[]
        invariant left == seen - kinds && dupLeft == dups - kinds && kinds <= seen.Keys
        invariant OneRowPerKind(rows, kinds, seen, dups)
        invariant SumSeen(rows) + Total(left) == Total(seen) && SumDuplicates(rows) + Total(dupLeft) == Total(dups)
        decreases left.Keys
      {
        var k :| k in left;
        TotalWithoutMaybe(left, k);
        TotalWithoutMaybe(dupLeft, k);
        WithoutOneMore(seen, kinds, k);
        WithoutOneMore(dups, kinds, k);
        Upsert(Offset(k, Count(left, k), Count(dupLeft, k)), kinds, seen, dups);
        left, dupLeft, kinds := left - {k}, dupLeft - {k}, kinds + {k};
      }
      assert kinds == seen.Keys by { assert forall k :: k in seen && k !in kinds ==> k in left; }
    }

    /** The second loop: the kinds that only had duplicates. */
    method WriteDuplicates(dupOnly: map<string, nat>, ghost seen: map<string, nat>, ghost dups: map<string, nat>)
      requires dupOnly == dups - seen.Keys && OneRowPerKind(rows, seen.Keys, seen, dups)
      modifies this
      ensures OneRowPerKind(rows, seen.Keys + dupOnly.Keys, seen, dups)
      ensures SumSeen(rows) == SumSeen(old(rows)) && SumDuplicates(rows) == SumDuplicates(old(rows)) + Total(dupOnly)
    {
      var left := dupOnly;
      ghost var kinds := seen.Keys;
      while left != map[]
        invariant left == dupOnly - kinds && seen.Keys <= kinds <= seen.Keys + dupOnly.Keys
        invariant OneRowPerKind(rows, kinds, seen, dups)
        invariant SumSeen(rows) == SumSeen(old(rows)) && SumDuplicates(rows) + Total(left) == SumDuplicates(old(rows)) + Total(dupOnly)
        decreases left.Keys
      {
        var k :| k in left;
        TotalWithoutMaybe(left, k);
        WithoutOneMore(dupOnly, kinds, k);
        assert Count(left, k) == Count(dups, k) && Count(seen, k) == 0;
        Upsert(Offset(k, 0, Count(left, k)), kinds, seen, dups);
        left, kinds := left - {k}, kinds + {k};
      }
      assert kinds == seen.Keys + dupOnly.Keys by { assert forall k :: k in dupOnly && k !in kinds ==> k in left; }
    }

    /** The per-kind offset rows: one per kind, in any order, and their columns sum to the totals. */
    method WriteOffsets(seen: map<string, nat>, dups: map<string, nat>)
      requires rows == []
      modifies this
      ensures OneRowPerKind(rows, seen.Keys + dups.Keys, seen, dups)
      ensures SumSeen(rows) == Total(seen) && SumDuplicates(rows) == Total(dups)
    {
      var dupLeft := WriteSeen(seen, dups);
      WriteDuplicates(dupLeft, seen, dups);
      assert seen.Keys + dupLeft.Keys == seen.Keys + dups.Keys;
    }
  }
}
