/** From the watch stream to the inventory: what the server ends up with, said in terms of the
    events the agent observed and not of batches, keys or deliveries. */
module WatchStream {
  import opened Text
  import opened Collector
  import opened CollectorProofs
  import EventKeys
  import EndToEnd
  import A = Agent

  // ---------------------------------------------------------------- what a watch event says

  /** An observed event and the time of the flush that carried it. */
  datatype Note = Note(ev: A.Watched, now: string)

  function VerbOf(ev: A.Watched): string {
    var t := Upper(TrimSpace(ev.watchType));
    if t == "" then "MODIFIED" else t
  }

  /** Whether an event tells of an object: one with a kind and a name, and a verb that counts. */
  predicate TellsOfObject(ev: A.Watched) {
    !ev.isK8sEvent && !Blank(ev.item.kind) && !Blank(ev.item.name) && VerbOf(ev) in {"ADDED", "MODIFIED", "DELETED"}
  }

  function RowOf(cfg: A.Config, ev: A.Watched): RowKey {
    RowKey(TrimSpace(cfg.clusterID), TrimSpace(ev.item.kind), ev.item.namespace, TrimSpace(ev.item.name))
  }

  /** What identifies a versioned change to the server. */
  function PartsOf(cfg: A.Config, ev: A.Watched): seq<string> {
    [TrimSpace(cfg.clusterID), cfg.agentID, ev.resourceVersion, VerbOf(ev), TrimSpace(ev.item.kind), ev.item.namespace, TrimSpace(ev.item.name)]
  }

  /** The change an event asks for: a deletion removes the row, anything else writes it. */
  function Meant(cfg: A.Config, n: Note): Mutation {
    var item := n.ev.item;
    Mutation(Join(PartsOf(cfg, n.ev), "|"),
      if VerbOf(n.ev) == "DELETED" then Remove(RowOf(cfg, n.ev))
      else Put(RowOf(cfg, n.ev), Row(item.uid, if Blank(n.now) then "" else n.now, item.spec)))
  }

  function MeantAll(cfg: A.Config, notes: seq<Note>): seq<Mutation> {
    if notes == [] then [] else
    var n := notes[|notes| - 1];
    MeantAll(cfg, notes[..|notes| - 1]) + (if TellsOfObject(n.ev) then [Meant(cfg, n)] else [])
  }

  lemma {:induction false} MeantConcat(cfg: A.Config, a: seq<Note>, b: seq<Note>)
    ensures MeantAll(cfg, a + b) == MeantAll(cfg, a) + MeantAll(cfg, b)
  {
    if b == [] {
      assert a + b == a;
    } else {
      var init, last := b[..|b| - 1], b[|b| - 1];
      assert (a + b)[..|a + b| - 1] == a + init;
      MeantConcat(cfg, a, init);
      ConcatAssociative(MeantAll(cfg, a), MeantAll(cfg, init), if TellsOfObject(last.ev) then [Meant(cfg, last)] else []);
    }
  }

  // ---------------------------------------------------------------- what a batch asks for

  function AskedBy(d: Delta): seq<Mutation> { if d.Skip? then [] else [Mutation(d.eventKey, d.effect)] }

  function Asked(ds: seq<Delta>): seq<Mutation> {
    if ds == [] then [] else Asked(ds[..|ds| - 1]) + AskedBy(ds[|ds| - 1])
  }

  lemma {:induction false} AskedConcat(a: seq<Delta>, b: seq<Delta>)
    ensures Asked(a + b) == Asked(a) + Asked(b)
  {
    if b == [] {
      assert a + b == a;
    } else {
      var init, last := b[..|b| - 1], b[|b| - 1];
      assert (a + b)[..|a + b| - 1] == a + init;
      AskedConcat(a, init);
      ConcatAssociative(Asked(a), Asked(init), AskedBy(last));
    }
  }

  /** Object events come with a resource version, as the API server sends them. */
  predicate Versioned(events: seq<A.Watched>) {
    forall i :: 0 <= i < |events| && !events[i].isK8sEvent ==> !Blank(events[i].resourceVersion)
  }

  /** One event of a batch, as the collector reads it. */
  lemma {:induction false} InterpretReported(cfg: A.Config, b: Batch, ev: A.Watched)
    requires b.clusterID == cfg.clusterID && b.agentID == cfg.agentID && b.observedAt != ""
    requires A.IsObjectChange(ev) && !Blank(ev.resourceVersion)
    ensures AskedBy(Interpret(b, "", A.Reported(ev, b.observedAt))) == if TellsOfObject(ev) then [Meant(cfg, Note(ev, b.observedAt))] else []
  {
    var e := A.Reported(ev, b.observedAt);
    var now := b.observedAt;
    assert First([ev.resourceVersion, b.resourceVersion]) == ev.resourceVersion;
    assert First([ev.resourceVersion, ev.item.uid, now, now]) == ev.resourceVersion;
    StampOf(now);
    assert Verb(e) == VerbOf(ev);
  }

  lemma {:induction false} StampOf(now: string)
    ensures First([now, now]) == if Blank(now) then "" else now
  {
    assert [now, now][1..] == [now] && [now][1..] == [];
    assert First([now]) == if Blank(now) then "" else now;
  }

  function Noted(events: seq<A.Watched>, now: string): seq<Note> {
    seq(|events|, i requires 0 <= i < |events| => Note(events[i], now))
  }

  /** A batch under construction whose object events carry their versions. */
  predicate Building(b: Batch, cfg: A.Config, now: string) {
    && b.clusterID == cfg.clusterID && b.agentID == cfg.agentID && b.observedAt == now && now != ""
    && forall k :: 0 <= k < |b.events| ==> !Blank(b.events[k].resourceVersion)
  }

  lemma {:induction false} AskedOneMore(ds: seq<Delta>, d: Delta)
    ensures Asked(ds + [d]) == Asked(ds) + AskedBy(d)
  {
    assert (ds + [d])[..|ds + [d]| - 1] == ds;
  }

  lemma {:induction false} DeltasOneMore(b: Batch, r: Batch, e: AgentEvent, cfg: A.Config, now: string)
    requires Building(b, cfg, now) && Building(r, cfg, now) && r.events == b.events + [e]
    ensures Deltas(r, "") == Deltas(b, "") + [Interpret(r, "", e)]
  {
    VersionDoesNotMatter(b, r);
    var ds := Deltas(r, "");
    assert ds == ds[..|b.events|] + [ds[|b.events|]];
  }

  lemma {:induction false} DeltasUnchanged(b: Batch, r: Batch, cfg: A.Config, now: string)
    requires Building(b, cfg, now) && Building(r, cfg, now) && r.events == b.events
    ensures Deltas(r, "") == Deltas(b, "")
  {
    VersionDoesNotMatter(b, r);
    assert Deltas(r, "")[..|b.events|] == Deltas(r, "");
  }

  lemma {:induction false} OneMoreAsks(cfg: A.Config, b: Batch, ev: A.Watched, now: string)
    requires Building(b, cfg, now) && (!ev.isK8sEvent ==> !Blank(ev.resourceVersion))
    ensures var r := A.AddWatched(b, ev);
            && Building(r, cfg, now)
            && Asked(Deltas(r, "")) == Asked(Deltas(b, "")) + (if TellsOfObject(ev) then [Meant(cfg, Note(ev, now))] else [])
  {
    var r := A.AddWatched(b, ev);
    assert Building(r, cfg, now);
    if A.IsObjectChange(ev) {
      DeltasOneMore(b, r, A.Reported(ev, now), cfg, now);
      InterpretReported(cfg, r, ev);
      AskedOneMore(Deltas(b, ""), Interpret(r, "", A.Reported(ev, now)));
    } else {
      DeltasUnchanged(b, r, cfg, now);
      NamelessIsBlank(ev);
    }
  }

  /** A batch asks for what the events it was built from mean. */
  lemma {:induction false} BatchAsks(cfg: A.Config, lastRV: string, events: seq<A.Watched>, now: string)
    requires Versioned(events) && now != ""
    ensures Building(A.Build(cfg, lastRV, events, now), cfg, now)
    ensures Asked(Deltas(A.Build(cfg, lastRV, events, now), "")) == MeantAll(cfg, Noted(events, now))
  {
    if events == [] {
      assert Deltas(A.Build(cfg, lastRV, events, now), "") == [];
    } else {
      var n := |events| - 1;
      var init, ev := events[..n], events[n];
      assert forall i :: 0 <= i < n ==> init[i] == events[i];
      BatchAsks(cfg, lastRV, init, now);
      OneMoreAsks(cfg, A.Build(cfg, lastRV, init, now), ev, now);
      MeantOneMore(cfg, events, now);
    }
  }

  lemma {:induction false} MeantOneMore(cfg: A.Config, events: seq<A.Watched>, now: string)
    requires events != []
    ensures var init, ev := events[..|events| - 1], events[|events| - 1];
            MeantAll(cfg, Noted(events, now)) == MeantAll(cfg, Noted(init, now)) + (if TellsOfObject(ev) then [Meant(cfg, Note(ev, now))] else [])
  {
    var n := |events| - 1;
    assert Noted(events, now)[..n] == Noted(events[..n], now) && Noted(events, now)[n] == Note(events[n], now);
  }

  lemma {:induction false} NamelessIsBlank(ev: A.Watched)
    requires !A.IsObjectChange(ev)
    ensures !TellsOfObject(ev)
  {}

  /** A batch that grew keeps the readings of its first events. */
  lemma {:induction false} VersionDoesNotMatter(before: Batch, b: Batch)
    requires before.clusterID == b.clusterID && before.agentID == b.agentID && before.observedAt == b.observedAt
    requires |before.events| <= |b.events| && before.events == b.events[..|before.events|]
    requires forall k :: 0 <= k < |before.events| ==> !Blank(before.events[k].resourceVersion)
    ensures Deltas(b, "")[..|before.events|] == Deltas(before, "")
  {
    forall k | 0 <= k < |before.events| ensures Interpret(b, "", b.events[k]) == Interpret(before, "", before.events[k]) {
      assert b.events[k] == before.events[k];
      SameReading(before, b, before.events[k]);
    }
  }

  lemma {:induction false} SameReading(before: Batch, b: Batch, e: AgentEvent)
    requires before.clusterID == b.clusterID && before.agentID == b.agentID && before.observedAt == b.observedAt
    requires !Blank(e.resourceVersion)
    ensures Interpret(b, "", e) == Interpret(before, "", e)
  {}

  // ---------------------------------------------------------------- every run

  /** The events handed over, each with the time of its flush. */
  function Notes(groups: seq<A.Group>): seq<Note> {
    if groups == [] then [] else
    var g := groups[|groups| - 1];
    Notes(groups[..|groups| - 1]) + Noted(g.events, g.now)
  }

  lemma {:induction false} NotesAreHanded(groups: seq<A.Group>)
    ensures |Notes(groups)| == |A.Handed(groups)| && forall i :: 0 <= i < |Notes(groups)| ==> Notes(groups)[i].ev == A.Handed(groups)[i]
  {
    if groups != [] { NotesAreHanded(groups[..|groups| - 1]); }
  }

  function AllDeltas(batches: seq<Batch>): seq<Delta> {
    if batches == [] then [] else AllDeltas(batches[..|batches| - 1]) + Deltas(batches[|batches| - 1], "")
  }

  /** All batches come from this agent and together ask for what the events handed over mean. */
  ghost predicate Told(a: A.State) {
    && (forall i :: 0 <= i < |a.batches| ==> a.batches[i].clusterID == a.cfg.clusterID && a.batches[i].agentID == a.cfg.agentID)
    && (Versioned(A.Handed(a.flushed)) ==> Asked(AllDeltas(a.batches)) == MeantAll(a.cfg, Notes(a.flushed)))
  }

  lemma {:induction false} AllDeltasOneMore(batches: seq<Batch>, b: Batch)
    ensures Asked(AllDeltas(batches + [b])) == Asked(AllDeltas(batches)) + Asked(Deltas(b, ""))
  {
    assert (batches + [b])[..|batches + [b]| - 1] == batches;
    AskedConcat(AllDeltas(batches), Deltas(b, ""));
  }

  lemma {:induction false} GroupOneMore(cfg: A.Config, groups: seq<A.Group>, g: A.Group)
    ensures A.Handed(groups + [g]) == A.Handed(groups) + g.events
    ensures MeantAll(cfg, Notes(groups + [g])) == MeantAll(cfg, Notes(groups)) + MeantAll(cfg, Noted(g.events, g.now))
  {
    assert (groups + [g])[..|groups + [g]| - 1] == groups;
    MeantConcat(cfg, Notes(groups), Noted(g.events, g.now));
  }

  lemma {:induction false} VersionedParts(x: seq<A.Watched>, y: seq<A.Watched>)
    requires Versioned(x + y)
    ensures Versioned(x) && Versioned(y)
  {
    assert forall i :: 0 <= i < |x| ==> (x + y)[i] == x[i];
    assert forall i :: 0 <= i < |y| ==> (x + y)[|x| + i] == y[i];
  }

  /** Handing a group over adds what its events mean to what the batches ask for. */
  lemma {:induction false} HandoverTells(cfg: A.Config, lastRV: string, batches: seq<Batch>, groups: seq<A.Group>, g: A.Group)
    requires Versioned(A.Handed(groups + [g])) && g.now != ""
    requires Versioned(A.Handed(groups)) ==> Asked(AllDeltas(batches)) == MeantAll(cfg, Notes(groups))
    ensures var b := A.Build(cfg, lastRV, g.events, g.now);
            Asked(AllDeltas(if HasPayload(b) then batches + [b] else batches)) == MeantAll(cfg, Notes(groups + [g]))
  {
    var b := A.Build(cfg, lastRV, g.events, g.now);
    GroupOneMore(cfg, groups, g);
    VersionedParts(A.Handed(groups), g.events);
    BatchAsks(cfg, lastRV, g.events, g.now);
    AllDeltasOneMore(batches, b);
    if !HasPayload(b) { assert Deltas(b, "") == []; }
  }

  lemma {:induction false} StepTells(a: A.State, e: A.Event)
    requires Told(a) && A.Timed(e)
    ensures Told(A.Step(a, e)) && A.Step(a, e).cfg == a.cfg
  {
    A.StepThroughHandover(a, e);
    var r, h := A.Step(a, e), A.HandedBy(a, e);
    if h.Handover? {
      A.BuildCarries(a.cfg, a.lastRV, h.events, h.now);
      if e.HeartbeatTick? && a.pending == [] {
        assert !HasPayload(A.BuiltFrom(a, h));
      } else if Versioned(A.Handed(r.flushed)) {
        HandoverTells(a.cfg, a.lastRV, a.batches, a.flushed, A.Group(h.events, a.peak, h.now));
      }
    }
  }

  lemma {:induction false} RunTells(a: A.State, es: seq<A.Event>)
    requires Told(a) && A.AllTimed(es)
    ensures Told(A.Run(a, es)) && A.Run(a, es).cfg == a.cfg
    decreases |es|
  {
    if es != [] {
      StepTells(a, es[0]);
      RunTells(A.Step(a, es[0]), es[1..]);
    }
  }

  // ---------------------------------------------------------------- distinct events, distinct keys

  /** The changes differ in version, verb, kind, namespace or name, and no part but the name
      contains a bar. */
  ghost predicate Distinguishable(cfg: A.Config, notes: seq<Note>) {
    && (forall i :: 0 <= i < |notes| && TellsOfObject(notes[i].ev) ==> EventKeys.Separable(PartsOf(cfg, notes[i].ev)))
    && (forall i, j :: 0 <= i < j < |notes| && TellsOfObject(notes[i].ev) && TellsOfObject(notes[j].ev) ==>
          PartsOf(cfg, notes[i].ev) != PartsOf(cfg, notes[j].ev))
  }

  ghost predicate NewTo(s: Store, cfg: A.Config, notes: seq<Note>) {
    forall i :: 0 <= i < |notes| && TellsOfObject(notes[i].ev) ==> Join(PartsOf(cfg, notes[i].ev), "|") !in s.keys
  }

  lemma {:induction false} Origin(cfg: A.Config, notes: seq<Note>, k: nat) returns (i: nat)
    requires k < |MeantAll(cfg, notes)|
    ensures i < |notes| && TellsOfObject(notes[i].ev) && MeantAll(cfg, notes)[k] == Meant(cfg, notes[i])
  {
    var n := |notes| - 1;
    if k < |MeantAll(cfg, notes[..n])| { i := Origin(cfg, notes[..n], k); } else { i := n; }
  }

  lemma {:induction false} MeantKeysDiffer(s: Store, cfg: A.Config, notes: seq<Note>)
    requires Distinguishable(cfg, notes) && NewTo(s, cfg, notes)
    ensures DistinctKeys(MeantAll(cfg, notes)) && forall k :: 0 <= k < |MeantAll(cfg, notes)| ==> MeantAll(cfg, notes)[k].eventKey !in s.keys
  {
    if notes != [] {
      var n := |notes| - 1;
      var init, before := notes[..n], MeantAll(cfg, notes[..n]);
      assert forall i :: 0 <= i < n ==> init[i] == notes[i];
      MeantKeysDiffer(s, cfg, init);
      if TellsOfObject(notes[n].ev) {
        forall k | 0 <= k < |before| ensures before[k].eventKey != Meant(cfg, notes[n]).eventKey {
          var i := Origin(cfg, init, k);
          if before[k].eventKey == Meant(cfg, notes[n]).eventKey {
            EventKeys.JoinSeparates(PartsOf(cfg, notes[i].ev), PartsOf(cfg, notes[n].ev));
          }
        }
      }
    }
  }

  lemma {:induction false} AskedHas(ds: seq<Delta>, i: nat)
    requires i < |ds| && ds[i].Delta?
    ensures exists k :: 0 <= k < |Asked(ds)| && Asked(ds)[k].eventKey == ds[i].eventKey
  {
    var n := |ds| - 1;
    if i < n {
      AskedHas(ds[..n], i);
      var k :| 0 <= k < |Asked(ds[..n])| && Asked(ds[..n])[k].eventKey == ds[i].eventKey;
      assert Asked(ds)[k] == Asked(ds[..n])[k];
    } else {
      assert Asked(ds)[|Asked(ds)| - 1].eventKey == ds[i].eventKey;
    }
  }

  lemma {:induction false} FreshWhenAskedDiffer(s: Store, ds: seq<Delta>)
    requires DistinctKeys(Asked(ds)) && forall k :: 0 <= k < |Asked(ds)| ==> Asked(ds)[k].eventKey !in s.keys
    ensures FreshKeys(s, ds)
  {
    if ds != [] {
      var n := |ds| - 1;
      var init, before := ds[..n], Asked(ds[..n]);
      assert forall k :: 0 <= k < |before| ==> Asked(ds)[k] == before[k];
      FreshWhenAskedDiffer(s, init);
      assert forall i :: 0 <= i < n ==> init[i] == ds[i];
      if ds[n].Delta? {
        assert Asked(ds)[|before|].eventKey == ds[n].eventKey;
        forall i | 0 <= i < n && ds[i].Delta? ensures ds[i].eventKey != ds[n].eventKey {
          AskedHas(init, i);
          var k :| 0 <= k < |before| && before[k].eventKey == init[i].eventKey;
          assert Asked(ds)[k].eventKey != Asked(ds)[|before|].eventKey;
        }
      }
    }
  }

  lemma {:induction false} ReplayOneMore(inv: map<RowKey, Row>, log: seq<Mutation>, m: Mutation)
    ensures Replay(inv, log + [m]) == Perform(Replay(inv, log), m.effect)
  {
    assert (log + [m])[..|log + [m]| - 1] == log;
  }

  lemma {:induction false} PerformIsReplay(inv: map<RowKey, Row>, ds: seq<Delta>)
    ensures PerformAll(inv, ds) == Replay(inv, Asked(ds))
  {
    if ds != [] {
      var init, d := ds[..|ds| - 1], ds[|ds| - 1];
      PerformIsReplay(inv, init);
      if d.Delta? { ReplayOneMore(inv, Asked(init), Mutation(d.eventKey, d.effect)); } else { assert Asked(init) + [] == Asked(init); }
    }
  }

  // ---------------------------------------------------------------- the theorem

  lemma {:induction false} AbsorbConcat(s: Store, x: seq<Delta>, y: seq<Delta>)
    ensures AbsorbAll(s, x + y) == AbsorbAll(AbsorbAll(s, x), y)
  {
    if y == [] {
      assert x + y == x;
    } else {
      assert (x + y)[..|x + y| - 1] == x + y[..|y| - 1];
      AbsorbConcat(s, x, y[..|y| - 1]);
    }
  }

  lemma {:induction false} InOrderIsAbsorb(s: Store, batches: seq<Batch>)
    requires forall i :: 0 <= i < |batches| ==> Accepted(batches[i])
    ensures EndToEnd.DeliverInOrder(s, batches) == AbsorbAll(s, AllDeltas(batches))
  {
    if batches != [] {
      var n := |batches| - 1;
      InOrderIsAbsorb(s, batches[..n]);
      AbsorbConcat(s, AllDeltas(batches[..n]), Deltas(batches[n], ""));
    }
  }

  /** End to end: in a run that meets no loss condition and has handed everything over, with nothing
      queued, the server's inventory is the old one changed by what the observed events mean, each
      once and in the order they were enqueued, whatever the network repeated. */
  lemma {:induction false} InventoryFollowsWatchStream(cfg: A.Config, max: nat, es: seq<A.Event>, s: Store, clock: nat -> string) returns (notes: seq<Note>)
    requires max >= 1 && A.AllTimed(es) && A.LosesNone(A.Init(cfg, max), es)
    requires var a := A.Run(A.Init(cfg, max), es);
             a.channel == [] && a.pending == [] && a.link.queue == [] && Versioned(a.enqueued)
    requires !Blank(cfg.clusterID) && !Blank(cfg.agentID)
    ensures var a := A.Run(A.Init(cfg, max), es);
            && |notes| == |a.enqueued| && (forall i :: 0 <= i < |notes| ==> notes[i].ev == a.enqueued[i])
            && EndToEnd.Names(a.batches, a.link.received)
            && (Distinguishable(cfg, notes) && NewTo(s, cfg, notes) ==>
                  EndToEnd.Serve(s, a.batches, a.link.received, clock).inventory == Followed(cfg, s.inventory, notes))
  {
    var a := A.Run(A.Init(cfg, max), es);
    A.NothingLostInOrder(cfg, max, es);
    assert A.Handed(a.flushed) == a.enqueued;
    notes := Notes(a.flushed);
    NotesAreHanded(a.flushed);
    assert Told(A.Init(cfg, max));
    RunTells(A.Init(cfg, max), es);
    var m := EndToEnd.ExactlyOnceInOrder(cfg, max, es, s, clock);
    if Distinguishable(cfg, notes) && NewTo(s, cfg, notes) {
      StoreFollows(s, cfg, a.batches, notes);
    }
  }

  lemma {:induction false} StoreFollows(s: Store, cfg: A.Config, batches: seq<Batch>, notes: seq<Note>)
    requires Distinguishable(cfg, notes) && NewTo(s, cfg, notes) && Asked(AllDeltas(batches)) == MeantAll(cfg, notes)
    requires forall i :: 0 <= i < |batches| ==> Accepted(batches[i])
    ensures EndToEnd.DeliverInOrder(s, batches).inventory == Followed(cfg, s.inventory, notes)
  {
    var ds := AllDeltas(batches);
    InOrderIsAbsorb(s, batches);
    MeantKeysDiffer(s, cfg, notes);
    FreshWhenAskedDiffer(s, ds);
    DistinctDeltasAllApply(s, ds);
    PerformIsReplay(s.inventory, ds);
  }

  // ---------------------------------------------------------------- row by row

  predicate About(cfg: A.Config, n: Note, key: RowKey) { TellsOfObject(n.ev) && RowOf(cfg, n.ev) == key }

  /** The inventory after the observed events. */
  function Followed(cfg: A.Config, inv: map<RowKey, Row>, notes: seq<Note>): map<RowKey, Row> { Replay(inv, MeantAll(cfg, notes)) }

  lemma {:induction false} FollowedOneMore(cfg: A.Config, inv: map<RowKey, Row>, notes: seq<Note>)
    requires notes != []
    ensures var before, last := Followed(cfg, inv, notes[..|notes| - 1]), notes[|notes| - 1];
            Followed(cfg, inv, notes) == if TellsOfObject(last.ev) then Perform(before, Meant(cfg, last).effect) else before
  {
    var before, last := MeantAll(cfg, notes[..|notes| - 1]), notes[|notes| - 1];
    if TellsOfObject(last.ev) { ReplayOneMore(inv, before, Meant(cfg, last)); } else { assert before + [] == before; }
  }

  lemma {:induction false} MeantRow(cfg: A.Config, n: Note)
    ensures Meant(cfg, n).effect.key == RowOf(cfg, n.ev)
  {}

  /** One more event about another row, or about none, leaves a row as it is. */
  lemma {:induction false} OtherRowStays(cfg: A.Config, inv: map<RowKey, Row>, notes: seq<Note>, key: RowKey)
    requires notes != [] && !About(cfg, notes[|notes| - 1], key)
    ensures var before, r := Followed(cfg, inv, notes[..|notes| - 1]), Followed(cfg, inv, notes);
            (key in r <==> key in before) && (key in r ==> r[key] == before[key])
  {
    FollowedOneMore(cfg, inv, notes);
    MeantRow(cfg, notes[|notes| - 1]);
  }

  /** A row no event is about stays as it was. */
  lemma {:induction false} OtherRowsStay(cfg: A.Config, inv: map<RowKey, Row>, notes: seq<Note>, key: RowKey)
    requires forall i :: 0 <= i < |notes| ==> !About(cfg, notes[i], key)
    ensures var r := Followed(cfg, inv, notes); (key in r <==> key in inv) && (key in r ==> r[key] == inv[key])
  {
    if notes != [] {
      OtherRowStays(cfg, inv, notes, key);
      OtherRowsStay(cfg, inv, notes[..|notes| - 1], key);
    }
  }

  ghost predicate Reflects(r: map<RowKey, Row>, e: Effect) {
    if e.Remove? then e.key !in r else e.key in r && r[e.key] == e.row
  }

  lemma {:induction false} LastEffectStands(cfg: A.Config, inv: map<RowKey, Row>, notes: seq<Note>, i: nat)
    requires i < |notes| && TellsOfObject(notes[i].ev)
    requires forall j :: i < j < |notes| ==> !About(cfg, notes[j], RowOf(cfg, notes[i].ev))
    ensures Reflects(Followed(cfg, inv, notes), Meant(cfg, notes[i]).effect)
  {
    var n := |notes| - 1;
    if i == n {
      FollowedOneMore(cfg, inv, notes);
    } else {
      LastEffectStands(cfg, inv, notes[..n], i);
      MeantRow(cfg, notes[i]);
      OtherRowStays(cfg, inv, notes, RowOf(cfg, notes[i].ev));
    }
  }

  /** The last event about a row decides: after a deletion the row is gone, after anything else it
      holds what that event said. */
  lemma {:induction false} LastEventDecides(cfg: A.Config, inv: map<RowKey, Row>, notes: seq<Note>, i: nat)
    requires i < |notes| && TellsOfObject(notes[i].ev)
    requires forall j :: i < j < |notes| ==> !About(cfg, notes[j], RowOf(cfg, notes[i].ev))
    ensures var r, key, item := Followed(cfg, inv, notes), RowOf(cfg, notes[i].ev), notes[i].ev.item;
            if VerbOf(notes[i].ev) == "DELETED" then key !in r
            else key in r && r[key] == Row(item.uid, if Blank(notes[i].now) then "" else notes[i].now, item.spec)
  {
    LastEffectStands(cfg, inv, notes, i);
  }
}
