/** What each counter of `applyAgentBatch` counts. */
module CounterProofs {
  import opened Collector
  import opened CollectorProofs

  // ---------------------------------------------------------------- events by their keys

  /** The event's key is neither on record nor the key of an earlier event of the batch. */
  ghost predicate NewKey(keys: set<string>, ds: seq<Delta>, i: int) {
    0 <= i < |ds| && ds[i].Delta? && ds[i].eventKey !in keys && forall j :: 0 <= j < i && ds[j].Delta? ==> ds[j].eventKey != ds[i].eventKey
  }

  ghost predicate KnownKey(keys: set<string>, ds: seq<Delta>, i: int) { 0 <= i < |ds| && ds[i].Delta? && !NewKey(keys, ds, i) }

  ghost function SkippedIn(ds: seq<Delta>, n: int): set<int> { set i | 0 <= i < n && i < |ds| && ds[i].Skip? }

  ghost function NewIn(keys: set<string>, ds: seq<Delta>, n: int): set<int> { set i | 0 <= i < n && NewKey(keys, ds, i) }

  ghost function KnownIn(keys: set<string>, ds: seq<Delta>, n: int): set<int> { set i | 0 <= i < n && KnownKey(keys, ds, i) }

  ghost function NewOf(keys: set<string>, ds: seq<Delta>, kind: string, n: int): set<int> {
    set i | 0 <= i < n && NewKey(keys, ds, i) && ds[i].kind == kind
  }

  ghost function KnownOf(keys: set<string>, ds: seq<Delta>, kind: string, n: int): set<int> {
    set i | 0 <= i < n && KnownKey(keys, ds, i) && ds[i].kind == kind
  }

  function Puts(log: seq<Mutation>): nat {
    if log == [] then 0 else Puts(log[..|log| - 1]) + (if log[|log| - 1].effect.Put? then 1 else 0)
  }

  function Removes(log: seq<Mutation>): nat {
    if log == [] then 0 else Removes(log[..|log| - 1]) + (if log[|log| - 1].effect.Remove? then 1 else 0)
  }

  lemma {:induction false} LogOneMore(log: seq<Mutation>, m: Mutation)
    ensures Puts(log + [m]) == Puts(log) + (if m.effect.Put? then 1 else 0)
    ensures Removes(log + [m]) == Removes(log) + (if m.effect.Remove? then 1 else 0)
  {
    assert (log + [m])[..|log + [m]| - 1] == log;
  }

  // ---------------------------------------------------------------- the counters

  ghost predicate KeysSeen(now: set<string>, keys: set<string>, ds: seq<Delta>, n: int) {
    forall k :: k in now <==> k in keys || exists i :: 0 <= i < n && i < |ds| && ds[i].Delta? && ds[i].eventKey == k
  }

  /** After `n` events, each counter is the number of events of its sort. */
  ghost predicate CountsEvents(c: Counts, keys: set<string>, ds: seq<Delta>, n: int) {
    && c.skipped == |SkippedIn(ds, n)| && c.applied == |NewIn(keys, ds, n)| && c.duplicates == |KnownIn(keys, ds, n)|
    && (forall k :: Count(c.seenByKind, k) == |NewOf(keys, ds, k, n)|)
    && (forall k :: Count(c.dupByKind, k) == |KnownOf(keys, ds, k, n)|)
  }

  /** The upserts and deletes are the changes of that sort the batch added to the log. */
  predicate CountsChanges(p: Progress, log: seq<Mutation>) {
    Puts(p.log) == Puts(log) + p.counts.upserted && Removes(p.log) == Removes(log) + p.counts.deleted
  }

  lemma {:induction false} NewByRecord(now: set<string>, keys: set<string>, ds: seq<Delta>, n: nat)
    requires n < |ds| && KeysSeen(now, keys, ds, n)
    ensures NewKey(keys, ds, n) <==> ds[n].Delta? && ds[n].eventKey !in now
    ensures KnownKey(keys, ds, n) <==> ds[n].Delta? && ds[n].eventKey in now
  {}

  /** A set of positions below `n`, and the same for `n + 1`. */
  lemma {:induction false} OneMore(s: set<int>, t: set<int>, n: int, yes: bool)
    requires n !in s && t == if yes then s + {n} else s
    ensures |t| == |s| + (if yes then 1 else 0)
  {}

  lemma {:induction false} SetsOneMore(keys: set<string>, ds: seq<Delta>, n: nat)
    requires n < |ds|
    ensures SkippedIn(ds, n + 1) == if ds[n].Skip? then SkippedIn(ds, n) + {n} else SkippedIn(ds, n)
    ensures NewIn(keys, ds, n + 1) == if NewKey(keys, ds, n) then NewIn(keys, ds, n) + {n} else NewIn(keys, ds, n)
    ensures KnownIn(keys, ds, n + 1) == if KnownKey(keys, ds, n) then KnownIn(keys, ds, n) + {n} else KnownIn(keys, ds, n)
  {}

  lemma {:induction false} SizesOneMore(keys: set<string>, ds: seq<Delta>, n: nat)
    requires n < |ds|
    ensures |SkippedIn(ds, n + 1)| == |SkippedIn(ds, n)| + (if ds[n].Skip? then 1 else 0)
    ensures |NewIn(keys, ds, n + 1)| == |NewIn(keys, ds, n)| + (if NewKey(keys, ds, n) then 1 else 0)
    ensures |KnownIn(keys, ds, n + 1)| == |KnownIn(keys, ds, n)| + (if KnownKey(keys, ds, n) then 1 else 0)
  {
    SetsOneMore(keys, ds, n);
    OneMore(SkippedIn(ds, n), SkippedIn(ds, n + 1), n, ds[n].Skip?);
    OneMore(NewIn(keys, ds, n), NewIn(keys, ds, n + 1), n, NewKey(keys, ds, n));
    OneMore(KnownIn(keys, ds, n), KnownIn(keys, ds, n + 1), n, KnownKey(keys, ds, n));
  }

  lemma {:induction false} KindSetsOneMore(keys: set<string>, ds: seq<Delta>, k: string, n: nat)
    requires n < |ds|
    ensures |NewOf(keys, ds, k, n + 1)| == |NewOf(keys, ds, k, n)| + (if NewKey(keys, ds, n) && ds[n].kind == k then 1 else 0)
    ensures |KnownOf(keys, ds, k, n + 1)| == |KnownOf(keys, ds, k, n)| + (if KnownKey(keys, ds, n) && ds[n].kind == k then 1 else 0)
  {
    var first, known := NewKey(keys, ds, n) && ds[n].kind == k, KnownKey(keys, ds, n) && ds[n].kind == k;
    assert NewOf(keys, ds, k, n + 1) == if first then NewOf(keys, ds, k, n) + {n} else NewOf(keys, ds, k, n);
    assert KnownOf(keys, ds, k, n + 1) == if known then KnownOf(keys, ds, k, n) + {n} else KnownOf(keys, ds, k, n);
    OneMore(NewOf(keys, ds, k, n), NewOf(keys, ds, k, n + 1), n, first);
    OneMore(KnownOf(keys, ds, k, n), KnownOf(keys, ds, k, n + 1), n, known);
  }

  lemma {:induction false} CountedOnce(p: Progress, keys: set<string>, ds: seq<Delta>, calls: Calls, n: nat)
    requires n < |ds| && KeysSeen(p.store.keys, keys, ds, n) && CountsEvents(p.counts, keys, ds, n) && !ApplyDelta(p, ds[n], calls).failed
    ensures var next := ApplyDelta(p, ds[n], calls); KeysSeen(next.store.keys, keys, ds, n + 1) && CountsEvents(next.counts, keys, ds, n + 1)
  {
    NewByRecord(p.store.keys, keys, ds, n);
    SizesOneMore(keys, ds, n);
    forall k ensures var c := ApplyDelta(p, ds[n], calls).counts;
                     Count(c.seenByKind, k) == |NewOf(keys, ds, k, n + 1)| && Count(c.dupByKind, k) == |KnownOf(keys, ds, k, n + 1)|
    {
      KindSetsOneMore(keys, ds, k, n);
    }
  }

  /** What one event does to the log and to the two counters. */
  lemma {:induction false} ChangeShape(p: Progress, d: Delta, calls: Calls)
    requires !ApplyDelta(p, d, calls).failed
    ensures var r := ApplyDelta(p, d, calls);
            if d.Skip? || d.eventKey in p.store.keys then r.log == p.log && r.counts.upserted == p.counts.upserted && r.counts.deleted == p.counts.deleted
            else && r.log == p.log + [Mutation(d.eventKey, d.effect)]
                 && r.counts.upserted == p.counts.upserted + (if d.effect.Put? then 1 else 0)
                 && r.counts.deleted == p.counts.deleted + (if d.effect.Remove? then 1 else 0)
  {}

  lemma {:induction false} ChangeCountedOnce(p: Progress, d: Delta, calls: Calls, log: seq<Mutation>)
    requires CountsChanges(p, log) && !ApplyDelta(p, d, calls).failed
    ensures CountsChanges(ApplyDelta(p, d, calls), log)
  {
    ChangeShape(p, d, calls);
    if d.Delta? { LogOneMore(p.log, Mutation(d.eventKey, d.effect)); }
  }

  lemma {:induction false} LoopCounts(p: Progress, keys: set<string>, log: seq<Mutation>, ds: seq<Delta>, calls: seq<Calls>, n: nat)
    requires n <= |ds| && !ApplyDeltas(p, ds, calls, n).failed
    requires KeysSeen(p.store.keys, keys, ds, n) && CountsEvents(p.counts, keys, ds, n) && CountsChanges(p, log)
    ensures var r := ApplyDeltas(p, ds, calls, n); CountsEvents(r.counts, keys, ds, |ds|) && CountsChanges(r, log)
    decreases |ds| - n
  {
    if n < |ds| {
      var next := ApplyDelta(p, ds[n], CallsAt(calls, n));
      CountedOnce(p, keys, ds, CallsAt(calls, n), n);
      ChangeCountedOnce(p, ds[n], CallsAt(calls, n), log);
      LoopCounts(next, keys, log, ds, calls, n + 1);
    }
  }

  /** On success: `skipped` is the number of events that are no delta, `applied` and `duplicates`
      those with a new and with a known key, the same kind by kind; `upserted` is the number of rows
      the batch put, `deleted` the number it removed. */
  lemma {:induction false} CountersCount(s: Store, log: seq<Mutation>, b: Batch, now: string, calls: seq<Calls>)
    requires !ApplyBatch(s, log, b, now, calls).failed
    ensures var r, ds := ApplyBatch(s, log, b, now, calls), Deltas(b, now);
            CountsEvents(r.counts, s.keys, ds, |ds|) && CountsChanges(r, log)
  {
    var ds := Deltas(b, now);
    assert SkippedIn(ds, 0) == {} && NewIn(s.keys, ds, 0) == {} && KnownIn(s.keys, ds, 0) == {};
    assert forall k :: NewOf(s.keys, ds, k, 0) == {} && KnownOf(s.keys, ds, k, 0) == {};
    LoopCounts(Begin(s, log), s.keys, log, ds, calls, 0);
  }
}
