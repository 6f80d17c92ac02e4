/** The server side: `applyAgentBatch` folds watch deltas into the inventory, once per event key. */
module Collector {
  import opened Text

  // ---------------------------------------------------------------- batches

  datatype Item = Item(kind: string, namespace: string, name: string, uid: string, observedAt: string, spec: string)

  datatype AgentEvent = AgentEvent(eventType: string, resourceVersion: string, item: Item)

  /** A batch as posted. The heartbeat telemetry it also carries does not touch the inventory. */
  datatype Batch = Batch(clusterID: string, agentID: string, resourceVersion: string, observedAt: string,
                         events: seq<AgentEvent>, k8sEvents: seq<string>)

  predicate HasPayload(b: Batch) { b.events != [] || b.k8sEvents != [] }

  predicate Blank(s: string) { TrimSpace(s) == "" }

  /** `first`: the first value that is not blank. */
  function First(values: seq<string>): string {
    if values == [] then "" else if !Blank(values[0]) then values[0] else First(values[1..])
  }

  // ---------------------------------------------------------------- the store

  datatype RowKey = RowKey(cluster: string, kind: string, namespace: string, name: string)
  datatype Row = Row(uid: string, observedAt: string, spec: string)

  /** The event keys seen and the inventory table. */
  datatype Store = Store(keys: set<string>, inventory: map<RowKey, Row>)

  datatype Effect = Put(key: RowKey, row: Row) | Remove(key: RowKey)

  function Perform(inventory: map<RowKey, Row>, e: Effect): map<RowKey, Row> {
    match e
    case Put(k, row) => inventory[k := row]
    case Remove(k) => inventory - {k}
  }

  // ---------------------------------------------------------------- one event

  /** An event the collector accepts: its key and what it asks of the inventory. */
  datatype Delta = Skip | Delta(kind: string, eventKey: string, effect: Effect, isPodDelete: bool)

  /** The verb, with an empty one read as MODIFIED. */
  function Verb(ev: AgentEvent): string {
    var t := Upper(TrimSpace(ev.eventType));
    if t == "" then "MODIFIED" else t
  }

  /** `batch.ObservedAt`, set to the time of arrival when the agent left it out. */
  function ObservedAt(b: Batch, now: string): string { if b.observedAt == "" then now else b.observedAt }

  function EventKey(b: Batch, observedAt: string, item: Item, verb: string, rv: string): string {
    var version := First([rv, item.uid, item.observedAt, observedAt]);
    Join([TrimSpace(b.clusterID), b.agentID, version, verb, item.kind, item.namespace, item.name], "|")
  }

  predicate EqualFoldPod(kind: string) {
    |kind| == 3 && UpperChar(kind[0]) == 'P' && UpperChar(kind[1]) == 'O' && UpperChar(kind[2]) == 'D'
  }

  function Interpret(b: Batch, now: string, ev: AgentEvent): Delta {
    var item := ev.item.(kind := TrimSpace(ev.item.kind), name := TrimSpace(ev.item.name));
    var verb := Verb(ev);
    if item.kind == "" || item.name == "" then Skip else
    if verb != "ADDED" && verb != "MODIFIED" && verb != "DELETED" then Skip else
    var seen := ObservedAt(b, now);
    var rv := First([ev.resourceVersion, b.resourceVersion]);
    var row := RowKey(TrimSpace(b.clusterID), item.kind, item.namespace, item.name);
    var effect := if verb == "DELETED" then Remove(row) else Put(row, Row(item.uid, First([item.observedAt, seen]), item.spec));
    Delta(item.kind, EventKey(b, seen, item, verb, rv), effect, verb == "DELETED" && EqualFoldPod(item.kind))
  }

  // ---------------------------------------------------------------- store calls and counters

  /** A store call succeeds, or fails with or without having taken effect. */
  datatype Call = Done | FailedBefore | FailedAfter

  predicate Effective(c: Call) { c != FailedBefore }

  /** The results the calls for one event meet: recording the key, marking a pod as deleted,
      changing the row, and the bookkeeping after an upsert. */
  datatype Calls = Calls(insert: Call, markPod: Call, change: Call, lifecycle: Call, revision: Call)

  const ALL_DONE := Calls(Done, Done, Done, Done, Done)

  datatype Mutation = Mutation(eventKey: string, effect: Effect)

  datatype Counts = Counts(skipped: nat, duplicates: nat, applied: nat, upserted: nat, deleted: nat,
                           seenByKind: map<string, nat>, dupByKind: map<string, nat>)

  const NO_COUNTS := Counts(0, 0, 0, 0, 0, map[], map[])

  function Bump(m: map<string, nat>, k: string): map<string, nat> { m[k := if k in m then m[k] + 1 else 1] }

  /** How far a batch has come. `log` lists the inventory changes made, each with its event key. */
  datatype Progress = Progress(store: Store, log: seq<Mutation>, counts: Counts, failed: bool)

  function Begin(s: Store, log: seq<Mutation>): Progress { Progress(s, log, NO_COUNTS, false) }

  /** The event's own row change, once its key is recorded. */
  function ChangeRow(p: Progress, d: Delta, calls: Calls): Progress
    requires d.Delta?
  {
    if d.isPodDelete && calls.markPod != Done then p.(failed := true) else
    var changed := if Effective(calls.change)
      then p.(store := p.store.(inventory := Perform(p.store.inventory, d.effect)), log := p.log + [Mutation(d.eventKey, d.effect)])
      else p;
    if calls.change != Done then changed.(failed := true) else
    if d.effect.Remove? then changed.(counts := changed.counts.(deleted := changed.counts.deleted + 1)) else
    if calls.lifecycle != Done then changed.(failed := true) else
    changed.(counts := changed.counts.(upserted := changed.counts.upserted + 1), failed := calls.revision != Done)
  }

  /** One turn of the event loop in `applyAgentBatch`. */
  function ApplyDelta(p: Progress, d: Delta, calls: Calls): Progress {
    if d.Skip? then p.(counts := p.counts.(skipped := p.counts.skipped + 1)) else
    var isNew := d.eventKey !in p.store.keys;
    var recorded := if Effective(calls.insert) then p.(store := p.store.(keys := p.store.keys + {d.eventKey})) else p;
    if calls.insert != Done then recorded.(failed := true) else
    if !isNew then p.(counts := p.counts.(duplicates := p.counts.duplicates + 1, dupByKind := Bump(p.counts.dupByKind, d.kind))) else
    ChangeRow(recorded.(counts := recorded.counts.(applied := recorded.counts.applied + 1, seenByKind := Bump(recorded.counts.seenByKind, d.kind))), d, calls)
  }

  function CallsAt(calls: seq<Calls>, i: nat): Calls { if i < |calls| then calls[i] else ALL_DONE }

  /** What a batch asks for, event by event. */
  function Deltas(b: Batch, now: string): (ds: seq<Delta>)
    ensures |ds| == |b.events|
  {
    seq(|b.events|, i requires 0 <= i < |b.events| => Interpret(b, now, b.events[i]))
  }

  /** The loop from event `i` on; a failed call ends it. */
  function ApplyDeltas(p: Progress, ds: seq<Delta>, calls: seq<Calls>, i: nat): Progress
    requires i <= |ds|
    decreases |ds| - i
  {
    if p.failed || i == |ds| then p else ApplyDeltas(ApplyDelta(p, ds[i], CallsAt(calls, i)), ds, calls, i + 1)
  }

  lemma {:induction false} LoopStep(p: Progress, ds: seq<Delta>, calls: seq<Calls>, i: nat, next: Progress)
    requires i < |ds| && !p.failed && next == ApplyDelta(p, ds[i], CallsAt(calls, i))
    ensures ApplyDeltas(p, ds, calls, i) == if next.failed then next else ApplyDeltas(next, ds, calls, i + 1)
  {}

  predicate Accepted(b: Batch) { !Blank(b.clusterID) && !Blank(b.agentID) }

  /** `applyAgentBatch` up to the end of its event loop. */
  function ApplyBatch(s: Store, log: seq<Mutation>, b: Batch, now: string, calls: seq<Calls>): Progress {
    if Accepted(b) then ApplyDeltas(Begin(s, log), Deltas(b, now), calls, 0) else Begin(s, log).(failed := true)
  }

  class CollectorStore {
    var keys: set<string>
    var inventory: map<RowKey, Row>
    ghost var log: seq<Mutation>

    constructor ()
      ensures View() == Store({}, map[]) && log == []
    {
      keys, inventory, log := {}, map[], [];
    }

    function View(): Store
      reads this
    {
      Store(keys, inventory)
    }

    /** `InsertK8sWatchEvent`: whether the key was new, and the call's result. */
    method InsertWatchEvent(key: string, call: Call) returns (inserted: bool)
      modifies this`keys
      ensures inserted == (call == Done && key !in old(keys))
      ensures keys == if Effective(call) then old(keys) + {key} else old(keys)
    {
      inserted := call == Done && key !in keys;
      if Effective(call) { keys := keys + {key}; }
    }

    method ChangeInventory(key: string, effect: Effect, call: Call)
      modifies this`inventory, this`log
      ensures inventory == if Effective(call) then Perform(old(inventory), effect) else old(inventory)
      ensures log == if Effective(call) then old(log) + [Mutation(key, effect)] else old(log)
    {
      if Effective(call) {
        inventory := Perform(inventory, effect);
        log := log + [Mutation(key, effect)];
      }
    }

    /** `applyAgentBatch`: the counters and whether the batch went through. */
    method ApplyAgentBatch(b: Batch, now: string, calls: seq<Calls>) returns (counts: Counts, ok: bool)
      modifies this
      ensures var p := ApplyBatch(old(View()), old(log), b, now, calls);
              View() == p.store && log == p.log && counts == p.counts && ok == !p.failed
    {
      counts := NO_COUNTS;
      if !Accepted(b) { return counts, false; }
      ghost var ds := Deltas(b, now);
      var i := 0;
      while i < |b.events|
        invariant 0 <= i <= |b.events|
        invariant ApplyDeltas(Begin(old(View()), old(log)), ds, calls, 0) == ApplyDeltas(Progress(View(), log, counts, false), ds, calls, i)
      {
        var d := Interpret(b, now, b.events[i]);
        assert d == ds[i];
        ghost var p := Progress(View(), log, counts, false);
        counts, ok := ApplyOne(d, counts, CallsAt(calls, i));
        assert ApplyDelta(p, ds[i], CallsAt(calls, i)) == Progress(View(), log, counts, !ok);
        LoopStep(p, ds, calls, i, Progress(View(), log, counts, !ok));
        i := i + 1;
        if !ok { return; }
      }
      ok := true;
    }

    method ApplyOne(d: Delta, before: Counts, calls: Calls) returns (counts: Counts, ok: bool)
      modifies this
      ensures Progress(View(), log, counts, !ok) == ApplyDelta(Progress(old(View()), old(log), before, false), d, calls)
    {
      counts := before;
      if d.Skip? {
        counts := counts.(skipped := counts.skipped + 1);
        return counts, true;
      }
      var inserted := InsertWatchEvent(d.eventKey, calls.insert);
      if calls.insert != Done { return counts, false; }
      if !inserted {
        counts := counts.(duplicates := counts.duplicates + 1, dupByKind := Bump(counts.dupByKind, d.kind));
        return counts, true;
      }
      counts := counts.(applied := counts.applied + 1, seenByKind := Bump(counts.seenByKind, d.kind));
      if d.isPodDelete && calls.markPod != Done { return counts, false; }
      ChangeInventory(d.eventKey, d.effect, calls.change);
      if calls.change != Done { return counts, false; }
      if d.effect.Remove? {
        counts := counts.(deleted := counts.deleted + 1);
        return counts, true;
      }
      if calls.lifecycle != Done { return counts, false; }
      counts := counts.(upserted := counts.upserted + 1);
      ok := calls.revision == Done;
    }
  }
}
