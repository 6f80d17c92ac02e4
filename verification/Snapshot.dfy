/** Full-sync snapshots: `Collect`, `ApplySnapshot` and `pruneMissingInventory`. */
module Snapshot {
  import opened Text
  import opened Collector

  type Inventory = map<RowKey, Row>

  datatype Snapshot = Snapshot(clusterID: string, observedAt: string, resources: seq<Item>, fullSync: bool, fullSyncKinds: seq<string>)

  // ---------------------------------------------------------------- collecting

  /** One API list call: the kind asked for, whether it may be missing, and what came back. */
  datatype Listing = Listing(kind: string, optional: bool, found: bool, items: seq<Item>)

  datatype Collected = Collected(ok: bool, resources: seq<Item>, fullSyncKinds: seq<string>, skippedKinds: seq<string>)

  /** Resources take the kind that was asked for. */
  function OfKind(kind: string, items: seq<Item>): (r: seq<Item>)
    ensures |r| == |items| && forall i :: 0 <= i < |r| ==> r[i] == items[i].(kind := kind)
  {
    seq(|items|, i requires 0 <= i < |items| => items[i].(kind := kind))
  }

  /** Everything that was found, listing after listing. */
  function Listed(listings: seq<Listing>): seq<Item> {
    if listings == [] then [] else
    var l := listings[|listings| - 1];
    Listed(listings[..|listings| - 1]) + (if l.found then OfKind(l.kind, l.items) else [])
  }

  /** The kinds whose list call succeeded, or those whose call failed, in order. */
  function KindsWhere(listings: seq<Listing>, found: bool): (r: seq<string>)
    ensures forall k :: k in r <==> exists i :: 0 <= i < |listings| && listings[i].found == found && listings[i].kind == k
  {
    if listings == [] then [] else
    var n := |listings| - 1;
    var before := KindsWhere(listings[..n], found);
    assert forall i :: 0 <= i < n ==> listings[..n][i] == listings[i];
    if listings[n].found == found then before + [listings[n].kind] else before
  }

  /** `HTTPClient.Collect`: a failed required call fails the collection; otherwise a kind is offered
      for pruning if and only if its call succeeded, and the resources are those of the successful
      calls, in order. */
  method Collect(listings: seq<Listing>) returns (out: Collected)
    ensures out.ok <==> forall i :: 0 <= i < |listings| ==> listings[i].found || listings[i].optional
    ensures out.ok ==> out == Collected(true, Listed(listings), KindsWhere(listings, true), KindsWhere(listings, false))
  {
    out := Collected(true, [], [], []);
    for n := 0 to |listings|
      invariant forall i :: 0 <= i < n ==> listings[i].found || listings[i].optional
      invariant var done := listings[..n]; out == Collected(true, Listed(done), KindsWhere(done, true), KindsWhere(done, false))
    {
      var l := listings[n];
      assert listings[..n + 1][..n] == listings[..n];
      if !l.found {
        if !l.optional { return out.(ok := false); }
        out := out.(skippedKinds := out.skippedKinds + [l.kind]);
      } else {
        out := out.(fullSyncKinds := out.fullSyncKinds + [l.kind], resources := out.resources + OfKind(l.kind, l.items));
      }
    }
    assert listings[..|listings|] == listings;
  }

  // ---------------------------------------------------------------- upserting

  predicate Usable(item: Item) { !Blank(item.kind) && !Blank(item.name) }

  function KeyOf(cluster: string, item: Item): RowKey {
    RowKey(cluster, TrimSpace(item.kind), item.namespace, TrimSpace(item.name))
  }

  function RowOf(item: Item, observedAt: string): Row { Row(item.uid, First([item.observedAt, observedAt]), item.spec) }

  /** The inventory with the snapshot's resources written into it, in order. */
  function Upserts(inv: Inventory, cluster: string, observedAt: string, items: seq<Item>): Inventory {
    if items == [] then inv else
    var before, last := Upserts(inv, cluster, observedAt, items[..|items| - 1]), items[|items| - 1];
    if Usable(last) then before[KeyOf(cluster, last) := RowOf(last, observedAt)] else before
  }

  /** `inventoryIdentity`: the name under which a resource counts as present. */
  function Identity(kind: string, namespace: string, name: string): string {
    Lower(TrimSpace(kind)) + "\0" + TrimSpace(namespace) + "\0" + TrimSpace(name)
  }

  function RowIdentity(k: RowKey): string { Identity(k.kind, k.namespace, k.name) }

  function ItemIdentity(item: Item): string { Identity(item.kind, item.namespace, item.name) }

  ghost predicate PresentAs(identity: Item -> string, items: seq<Item>, id: string) {
    exists i :: 0 <= i < |items| && Usable(items[i]) && identity(items[i]) == id
  }

  ghost predicate Present(items: seq<Item>, id: string) { PresentAs(ItemIdentity, items, id) }

  function NormalizeKinds(values: seq<string>): set<string> {
    set i | 0 <= i < |values| && !Blank(values[i]) :: TrimSpace(values[i])
  }

  /** The kinds to prune: the given ones, or else the kind of the first usable resource. */
  function KindsToPrune(given: set<string>, fullSync: bool, items: seq<Item>): set<string> {
    if items == [] then given else
    var before, last := KindsToPrune(given, fullSync, items[..|items| - 1]), items[|items| - 1];
    if Usable(last) && fullSync && before == {} then {TrimSpace(last.kind)} else before
  }

  // ---------------------------------------------------------------- pruning

  /** The rows a full sync of these kinds removes. */
  ghost predicate Stale(k: RowKey, cluster: string, kinds: set<string>, items: seq<Item>) {
    && k.cluster == cluster
    && (exists kind :: kind in kinds && Lower(k.kind) == Lower(kind))
    && !Present(items, RowIdentity(k))
  }

  ghost function Pruned(inv: Inventory, cluster: string, kinds: set<string>, items: seq<Item>): Inventory {
    map k | k in inv && !Stale(k, cluster, kinds, items) :: inv[k]
  }

  /** What a successful snapshot leaves. */
  ghost function Applied(inv: Inventory, snap: Snapshot, now: string): Inventory {
    var cluster := TrimSpace(snap.clusterID);
    var seen := if snap.observedAt == "" then now else snap.observedAt;
    var written := Upserts(inv, cluster, seen, snap.resources);
    if snap.fullSync
    then Pruned(written, cluster, KindsToPrune(NormalizeKinds(snap.fullSyncKinds), true, snap.resources), snap.resources)
    else written
  }

  class InventoryTable {
    var rows: Inventory

    constructor (initial: Inventory)
      ensures rows == initial
    {
      rows := initial;
    }

    /** Deletes the stale rows of one kind; `ListK8sInventoryIdentities` ignores case. */
    method PruneKind(cluster: string, kind: string, present: set<string>) returns (deleted: nat)
      modifies this
      ensures rows == map k | k in old(rows) && !(k.cluster == cluster && Lower(k.kind) == Lower(kind) && RowIdentity(k) !in present) :: old(rows)[k]
      ensures deleted == |old(rows)| - |rows|
    {
      deleted := 0;
      var existing := set k | k in rows && k.cluster == cluster && Lower(k.kind) == Lower(kind);
      ghost var all := existing;
      while existing != {}
        invariant existing <= all
        invariant rows == map k | k in old(rows) && !(k in all && k !in existing && RowIdentity(k) !in present) :: old(rows)[k]
        invariant deleted == |old(rows)| - |rows|
        decreases existing
      {
        var k :| k in existing;
        existing := existing - {k};
        if RowIdentity(k) !in present {
          ghost var before := rows;
          assert k in before;
          rows := rows - {k};
          RemoveOne(before, k);
          deleted := deleted + 1;
        }
      }
    }

    /** `pruneMissingInventory`, visiting the kinds in any order. */
    method PruneMissingInventory(cluster: string, kinds: set<string>, present: set<string>, ghost items: seq<Item>) returns (deleted: nat)
      requires forall id :: id in present <==> Present(items, id)
      modifies this
      ensures rows == Pruned(old(rows), cluster, kinds, items)
      ensures deleted == |old(rows)| - |rows|
    {
      deleted := 0;
      var todo := kinds;
      while todo != {}
        invariant todo <= kinds
        invariant rows == Pruned(old(rows), cluster, kinds - todo, items)
        invariant deleted == |old(rows)| - |rows|
        decreases todo
      {
        var kind :| kind in todo;
        ghost var done := kinds - todo;
        var n := PruneKind(cluster, kind, present);
        PrunedOneMore(old(rows), cluster, done, kind, items, present);
        deleted, todo := deleted + n, todo - {kind};
        assert kinds - todo == done + {kind};
      }
      assert kinds - todo == kinds;
    }

    /** The resource loop: upserts the rows and notes what is present and which kinds to prune. */
    method WriteResources(cluster: string, observedAt: string, items: seq<Item>, fullSync: bool, given: set<string>)
      returns (present: set<string>, kinds: set<string>)
      modifies this
      ensures rows == Upserts(old(rows), cluster, observedAt, items)
      ensures forall id :: id in present <==> Present(items, id)
      ensures kinds == KindsToPrune(given, fullSync, items)
    {
      present, kinds := {}, given;
      for i := 0 to |items|
        invariant rows == Upserts(old(rows), cluster, observedAt, items[..i])
        invariant forall id :: id in present <==> Present(items[..i], id)
        invariant kinds == KindsToPrune(given, fullSync, items[..i])
      {
        var item := items[i];
        assert items[..i + 1][..i] == items[..i];
        PresentOneMore(ItemIdentity, items, i);
        if Usable(item) {
          TrimmedIdentity(item);
          present := present + {Identity(TrimSpace(item.kind), item.namespace, TrimSpace(item.name))};
          if fullSync && kinds == {} {
            kinds := {TrimSpace(item.kind)};
          }
          rows := rows[KeyOf(cluster, item) := RowOf(item, observedAt)];
        }
      }
      assert items[..|items|] == items;
    }

    /** `ApplySnapshot`, when no store call fails: whether it is accepted and how many rows it prunes. */
    method ApplySnapshot(snap: Snapshot, now: string) returns (ok: bool, staleDeleted: nat)
      modifies this
      ensures ok <==> !Blank(snap.clusterID)
      ensures rows == if ok then Applied(old(rows), snap, now) else old(rows)
      ensures ok ==> staleDeleted == |Upserts(old(rows), TrimSpace(snap.clusterID), if snap.observedAt == "" then now else snap.observedAt, snap.resources)| - |rows|
    {
      ok, staleDeleted := false, 0;
      if Blank(snap.clusterID) { return; }
      ok := true;
      var cluster := TrimSpace(snap.clusterID);
      var observedAt := if snap.observedAt == "" then now else snap.observedAt;
      var present, kinds := WriteResources(cluster, observedAt, snap.resources, snap.fullSync, NormalizeKinds(snap.fullSyncKinds));
      if snap.fullSync {
        staleDeleted := PruneMissingInventory(cluster, kinds, present, snap.resources);
      }
    }
  }

  lemma {:induction false} RemoveOne(m: Inventory, k: RowKey)
    requires k in m
    ensures |m - {k}| == |m| - 1
  {
    assert (m - {k}).Keys == m.Keys - {k};
  }

  lemma {:induction false} TrimTwice(s: string)
    ensures TrimSpace(TrimSpace(s)) == TrimSpace(s)
  {
    var left, right := TrimSpaceSplits(s);
    TrimSpaceOf("", TrimSpace(s), "");
    assert "" + TrimSpace(s) + "" == TrimSpace(s);
  }

  lemma {:induction false} TrimmedIdentity(item: Item)
    ensures Identity(TrimSpace(item.kind), item.namespace, TrimSpace(item.name)) == ItemIdentity(item)
  {
    TrimTwice(item.kind);
    TrimTwice(item.name);
  }

  lemma {:induction false} PresentOneMore(identity: Item -> string, items: seq<Item>, i: nat)
    requires i < |items|
    ensures forall id :: PresentAs(identity, items[..i + 1], id) <==>
      (PresentAs(identity, items[..i], id) || (Usable(items[i]) && id == identity(items[i])))
  {
    var a, b := items[..i], items[..i + 1];
    forall id ensures PresentAs(identity, b, id) <==> PresentAs(identity, a, id) || (Usable(items[i]) && id == identity(items[i])) {
      if PresentAs(identity, a, id) {
        var j :| 0 <= j < |a| && Usable(a[j]) && identity(a[j]) == id;
        assert b[j] == a[j];
      }
      if PresentAs(identity, b, id) {
        var j :| 0 <= j < |b| && Usable(b[j]) && identity(b[j]) == id;
        if j < i { assert a[j] == b[j]; }
      }
      if Usable(items[i]) && id == identity(items[i]) { assert b[i] == items[i]; }
    }
  }

  lemma {:induction false} PrunedOneMore(inv: Inventory, cluster: string, done: set<string>, kind: string, items: seq<Item>, present: set<string>)
    requires forall id :: id in present <==> Present(items, id)
    ensures var before := Pruned(inv, cluster, done, items);
            (map k | k in before && !(k.cluster == cluster && Lower(k.kind) == Lower(kind) && RowIdentity(k) !in present) :: before[k]) ==
            Pruned(inv, cluster, done + {kind}, items)
  {
    forall k ensures Stale(k, cluster, done + {kind}, items) <==>
      Stale(k, cluster, done, items) || (k.cluster == cluster && Lower(k.kind) == Lower(kind) && RowIdentity(k) !in present)
    {
      if k.cluster == cluster && Lower(k.kind) == Lower(kind) { assert kind in done + {kind}; }
    }
  }
}
