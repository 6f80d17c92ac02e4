/** What a full sync leaves in the inventory. */
module SnapshotProofs {
  import opened Text
  import opened Collector
  import opened Snapshot

  // ---------------------------------------------------------------- what the upserts write

  /** The snapshot has a resource for this row. */
  ghost predicate Written(cluster: string, items: seq<Item>, k: RowKey) {
    exists i :: 0 <= i < |items| && Usable(items[i]) && KeyOf(cluster, items[i]) == k
  }

  /** The rows the snapshot asks for; of several resources with one key the last counts. */
  function SnapshotRows(cluster: string, observedAt: string, items: seq<Item>): Inventory {
    Upserts(map[], cluster, observedAt, items)
  }

  lemma {:induction false} UpsertsAt(inv: Inventory, cluster: string, observedAt: string, items: seq<Item>, k: RowKey)
    ensures var r, rows := Upserts(inv, cluster, observedAt, items), SnapshotRows(cluster, observedAt, items);
            && (k in r <==> k in inv || Written(cluster, items, k))
            && (k in rows <==> Written(cluster, items, k))
            && (k in rows ==> r[k] == rows[k])
            && (k in inv && k !in rows ==> r[k] == inv[k])
  {
    if items != [] {
      UpsertsAt(inv, cluster, observedAt, items[..|items| - 1], k);
    }
  }

  /** The last resource for a row decides its values. */
  lemma {:induction false} LastResourceDecides(cluster: string, at: string, items: seq<Item>, i: nat)
    requires i < |items| && Usable(items[i])
    requires forall j :: i < j < |items| && Usable(items[j]) ==> KeyOf(cluster, items[j]) != KeyOf(cluster, items[i])
    ensures var x := items[i];
            var key, rows := RowKey(cluster, TrimSpace(x.kind), x.namespace, TrimSpace(x.name)), SnapshotRows(cluster, at, items);
            key in rows && rows[key] == Row(x.uid, if !Blank(x.observedAt) then x.observedAt else if !Blank(at) then at else "", x.spec)
  {
    if i == |items| - 1 {
      var x := items[i];
      assert [x.observedAt, at][1..] == [at] && [at][1..] == [];
      assert First([at]) == if !Blank(at) then at else "";
    } else {
      LastResourceDecides(cluster, at, items[..|items| - 1], i);
    }
  }

  // ---------------------------------------------------------------- identities

  predicate NulFree(s: string) { '\0' !in s }

  lemma {:induction false} SplitAtNul(a: string, b: string, c: string, d: string)
    requires NulFree(a) && NulFree(c) && a + "\0" + b == c + "\0" + d
    ensures a == c && b == d
  {
    var s := a + "\0" + b;
    assert s == c + "\0" + d;
    assert s[|a|] == '\0' && s[|c|] == '\0';
    assert forall i :: 0 <= i < |a| ==> s[i] == a[i] && a[i] in a;
    assert forall i :: 0 <= i < |c| ==> s[i] == c[i] && c[i] in c;
    assert a == s[..|a|] && c == s[..|c|] && b == s[|a| + 1..] && d == s[|c| + 1..];
  }

  /** A row or resource whose parts are spelled without padding and without NUL. */
  predicate Plain(kind: string, namespace: string, name: string) {
    && TrimSpace(kind) == kind && TrimSpace(namespace) == namespace && TrimSpace(name) == name
    && NulFree(kind) && NulFree(namespace) && NulFree(name)
  }

  lemma {:induction false} IdentityParts(kind: string, namespace: string, name: string, kind': string, namespace': string, name': string)
    requires Plain(kind, namespace, name) && Plain(kind', namespace', name')
    requires Identity(kind, namespace, name) == Identity(kind', namespace', name')
    ensures Lower(kind) == Lower(kind') && namespace == namespace' && name == name'
  {
    ConcatAssociative(Lower(kind) + "\0", namespace, "\0" + name);
    ConcatAssociative(Lower(kind') + "\0", namespace', "\0" + name');
    var rest, rest' := namespace + "\0" + name, namespace' + "\0" + name';
    assert Identity(kind, namespace, name) == Lower(kind) + "\0" + rest;
    assert Identity(kind', namespace', name') == Lower(kind') + "\0" + rest';
    SplitAtNul(Lower(kind), rest, Lower(kind'), rest');
    SplitAtNul(namespace, name, namespace', name');
  }

  // ---------------------------------------------------------------- what stays whatever is synced

  /** The kind is one of those being synced, up to case. */
  ghost predicate Synced(kinds: set<string>, kind: string) { exists k :: k in kinds && Lower(kind) == Lower(k) }

  lemma {:induction false} WrittenIsPresent(cluster: string, items: seq<Item>, k: RowKey)
    requires Written(cluster, items, k)
    ensures Present(items, RowIdentity(k))
  {
    var i :| 0 <= i < |items| && Usable(items[i]) && KeyOf(cluster, items[i]) == k;
    TrimmedIdentity(items[i]);
  }

  function Cluster(snap: Snapshot): string { TrimSpace(snap.clusterID) }

  function SeenAt(snap: Snapshot, now: string): string { if snap.observedAt == "" then now else snap.observedAt }

  function Kinds(snap: Snapshot): set<string> { KindsToPrune(NormalizeKinds(snap.fullSyncKinds), snap.fullSync, snap.resources) }

  function RowsOf(snap: Snapshot, now: string): Inventory { SnapshotRows(Cluster(snap), SeenAt(snap, now), snap.resources) }

  /** Every row of the snapshot is in the inventory afterwards, with the snapshot's values. Every
      other row of another cluster or of a kind that is not synced keeps its values. */
  lemma {:induction false} NothingElseIsLost(inv: Inventory, snap: Snapshot, now: string, k: RowKey)
    ensures var r, rows := Applied(inv, snap, now), RowsOf(snap, now);
            && (k in rows ==> k in r && r[k] == rows[k])
            && (k in inv && k !in rows && (k.cluster != Cluster(snap) || !Synced(Kinds(snap), k.kind)) ==> k in r && r[k] == inv[k])
  {
    UpsertsAt(inv, Cluster(snap), SeenAt(snap, now), snap.resources, k);
    if k in RowsOf(snap, now) { WrittenIsPresent(Cluster(snap), snap.resources, k); }
  }

  // ---------------------------------------------------------------- a canonical full sync is exact

  /** The synced kinds are spelled the same way everywhere and the parts are plain. */
  ghost predicate Canonical(inv: Inventory, snap: Snapshot) {
    && (forall k :: k in inv && k.cluster == Cluster(snap) && k.kind in Kinds(snap) ==> Plain(k.kind, k.namespace, k.name))
    && (forall i :: 0 <= i < |snap.resources| && Usable(snap.resources[i]) ==>
          var x := snap.resources[i];
          && Plain(TrimSpace(x.kind), x.namespace, TrimSpace(x.name))
          && forall kind :: kind in Kinds(snap) && Lower(TrimSpace(x.kind)) == Lower(kind) ==> TrimSpace(x.kind) == kind)
  }

  lemma {:induction false} KeptMeansWritten(inv: Inventory, snap: Snapshot, k: RowKey)
    requires Canonical(inv, snap) && k in inv && k.cluster == Cluster(snap) && k.kind in Kinds(snap)
    requires Present(snap.resources, RowIdentity(k))
    ensures Written(Cluster(snap), snap.resources, k)
  {
    var items := snap.resources;
    var i :| 0 <= i < |items| && Usable(items[i]) && ItemIdentity(items[i]) == RowIdentity(k);
    var x := items[i];
    TrimmedIdentity(x);
    IdentityParts(TrimSpace(x.kind), x.namespace, TrimSpace(x.name), k.kind, k.namespace, k.name);
    assert KeyOf(Cluster(snap), x) == k;
  }

  /** After a full sync the cluster's rows of the synced kinds are exactly the snapshot's. */
  lemma {:induction false} FullSyncIsExact(inv: Inventory, snap: Snapshot, now: string, k: RowKey)
    requires snap.fullSync && Canonical(inv, snap) && k.cluster == Cluster(snap) && k.kind in Kinds(snap)
    ensures var r, rows := Applied(inv, snap, now), RowsOf(snap, now);
            (k in r <==> k in rows) && (k in rows ==> r[k] == rows[k])
  {
    UpsertsAt(inv, Cluster(snap), SeenAt(snap, now), snap.resources, k);
    NothingElseIsLost(inv, snap, now, k);
    if k in Applied(inv, snap, now) && k !in RowsOf(snap, now) {
      assert !Stale(k, Cluster(snap), Kinds(snap), snap.resources);
      KeptMeansWritten(inv, snap, k);
    }
  }

  // ---------------------------------------------------------------- applying again

  lemma {:induction false} UpsertsAreNoOp(inv: Inventory, cluster: string, observedAt: string, items: seq<Item>)
    requires forall k :: k in SnapshotRows(cluster, observedAt, items) ==> k in inv && inv[k] == SnapshotRows(cluster, observedAt, items)[k]
    ensures Upserts(inv, cluster, observedAt, items) == inv
  {
    forall k ensures k in Upserts(inv, cluster, observedAt, items) <==> k in inv { UpsertsAt(inv, cluster, observedAt, items, k); }
    forall k | k in inv ensures Upserts(inv, cluster, observedAt, items)[k] == inv[k] { UpsertsAt(inv, cluster, observedAt, items, k); }
  }

  /** Applying the same snapshot again changes nothing, so it deletes nothing more. */
  lemma {:induction false} ReapplyChangesNothing(inv: Inventory, snap: Snapshot, now: string)
    ensures var r := Applied(inv, snap, now);
            && Upserts(r, Cluster(snap), SeenAt(snap, now), snap.resources) == r
            && Applied(r, snap, now) == r
  {
    var r := Applied(inv, snap, now);
    forall k | k in RowsOf(snap, now) ensures k in r && r[k] == RowsOf(snap, now)[k] { NothingElseIsLost(inv, snap, now, k); }
    UpsertsAreNoOp(r, Cluster(snap), SeenAt(snap, now), snap.resources);
    if snap.fullSync {
      assert forall k :: k in r ==> !Stale(k, Cluster(snap), Kinds(snap), snap.resources);
      assert Pruned(r, Cluster(snap), Kinds(snap), snap.resources) == r;
    }
  }

  // ---------------------------------------------------------------- collecting, then syncing

  /** Listings of distinct, plainly spelled kinds. */
  ghost predicate DistinctKinds(listings: seq<Listing>) {
    && (forall i :: 0 <= i < |listings| ==> !Blank(listings[i].kind) && TrimSpace(listings[i].kind) == listings[i].kind)
    && (forall i, j :: 0 <= i < j < |listings| ==> Lower(listings[i].kind) != Lower(listings[j].kind))
  }

  /** The rows one listing stands for. */
  function ListingRows(cluster: string, at: string, l: Listing): Inventory { SnapshotRows(cluster, at, OfKind(l.kind, l.items)) }

  ghost predicate SameAt(a: Inventory, b: Inventory, k: RowKey) { (k in a <==> k in b) && (k in a ==> a[k] == b[k]) }

  lemma {:induction false} UpsertsConcat(inv: Inventory, cluster: string, at: string, x: seq<Item>, y: seq<Item>)
    ensures Upserts(inv, cluster, at, x + y) == Upserts(Upserts(inv, cluster, at, x), cluster, at, y)
  {
    if y == [] {
      assert x + y == x;
    } else {
      assert (x + y)[..|x + y| - 1] == x + y[..|y| - 1];
      UpsertsConcat(inv, cluster, at, x, y[..|y| - 1]);
    }
  }

  /** Whatever was collected has the kind of a listing that was found. */
  lemma {:induction false} ListedKind(listings: seq<Listing>, i: nat) returns (j: nat)
    requires i < |Listed(listings)|
    ensures j < |listings| && listings[j].found && Listed(listings)[i].kind == listings[j].kind
    ensures exists n :: 0 <= n < |listings[j].items| && Listed(listings)[i] == listings[j].items[n].(kind := listings[j].kind)
  {
    var n := |listings| - 1;
    if i < |Listed(listings[..n])| {
      j := ListedKind(listings[..n], i);
    } else {
      j := n;
      assert Listed(listings)[i] == OfKind(listings[n].kind, listings[n].items)[i - |Listed(listings[..n])|];
    }
  }

  lemma {:induction false} WrittenKind(cluster: string, listings: seq<Listing>, k: RowKey) returns (j: nat)
    requires DistinctKinds(listings) && Written(cluster, Listed(listings), k)
    ensures j < |listings| && listings[j].found && k.kind == listings[j].kind
  {
    var items := Listed(listings);
    var i :| 0 <= i < |items| && Usable(items[i]) && KeyOf(cluster, items[i]) == k;
    j := ListedKind(listings, i);
  }

  /** What the last listing adds to the rows collected. */
  lemma {:induction false} LastListing(cluster: string, at: string, listings: seq<Listing>, k: RowKey)
    requires listings != []
    ensures var init, l := listings[..|listings| - 1], listings[|listings| - 1];
            var rows, before := SnapshotRows(cluster, at, Listed(listings)), SnapshotRows(cluster, at, Listed(init));
            if l.found && k in ListingRows(cluster, at, l) then SameAt(rows, ListingRows(cluster, at, l), k) else SameAt(rows, before, k)
  {
    var init, l := listings[..|listings| - 1], listings[|listings| - 1];
    var last := if l.found then OfKind(l.kind, l.items) else [];
    UpsertsConcat(map[], cluster, at, Listed(init), last);
    UpsertsAt(SnapshotRows(cluster, at, Listed(init)), cluster, at, last, k);
  }

  /** A row of another kind is none of a listing's rows. */
  lemma {:induction false} OtherKind(cluster: string, at: string, l: Listing, k: RowKey)
    requires k.kind != TrimSpace(l.kind)
    ensures k !in ListingRows(cluster, at, l)
  {
    UpsertsAt(map[], cluster, at, OfKind(l.kind, l.items), k);
  }

  lemma {:induction false} NotCollected(cluster: string, at: string, listings: seq<Listing>, k: RowKey)
    requires DistinctKinds(listings) && forall j :: 0 <= j < |listings| ==> k.kind != listings[j].kind
    ensures k !in SnapshotRows(cluster, at, Listed(listings))
  {
    UpsertsAt(map[], cluster, at, Listed(listings), k);
    if Written(cluster, Listed(listings), k) { var j := WrittenKind(cluster, listings, k); }
  }

  lemma {:induction false} OwnLast(cluster: string, at: string, listings: seq<Listing>, k: RowKey)
    requires DistinctKinds(listings) && listings != [] && listings[|listings| - 1].found && k.kind == listings[|listings| - 1].kind
    ensures SameAt(SnapshotRows(cluster, at, Listed(listings)), ListingRows(cluster, at, listings[|listings| - 1]), k)
  {
    var n := |listings| - 1;
    var init := listings[..n];
    PrefixDistinct(listings);
    LastListing(cluster, at, listings, k);
    forall j | 0 <= j < n ensures k.kind != init[j].kind { assert Lower(listings[j].kind) != Lower(listings[n].kind); }
    NotCollected(cluster, at, init, k);
  }

  lemma {:induction false} PrefixDistinct(listings: seq<Listing>)
    requires DistinctKinds(listings) && listings != []
    ensures DistinctKinds(listings[..|listings| - 1])
  {}

  lemma {:induction false} NotInLast(cluster: string, at: string, listings: seq<Listing>, k: RowKey, i: nat)
    requires DistinctKinds(listings) && i < |listings| - 1 && k.kind == listings[i].kind
    ensures var init := listings[..|listings| - 1]; SameAt(SnapshotRows(cluster, at, Listed(listings)), SnapshotRows(cluster, at, Listed(init)), k)
  {
    var l := listings[|listings| - 1];
    assert Lower(listings[i].kind) != Lower(l.kind);
    OtherKind(cluster, at, l, k);
    LastListing(cluster, at, listings, k);
  }

  /** The rows collected for a kind are those of its own listing. */
  lemma {:induction false} OwnListing(cluster: string, at: string, listings: seq<Listing>, i: nat, k: RowKey)
    requires DistinctKinds(listings) && i < |listings| && listings[i].found && k.kind == listings[i].kind
    ensures SameAt(SnapshotRows(cluster, at, Listed(listings)), ListingRows(cluster, at, listings[i]), k)
    decreases |listings|
  {
    var n := |listings| - 1;
    if i == n {
      OwnLast(cluster, at, listings, k);
    } else {
      PrefixDistinct(listings);
      NotInLast(cluster, at, listings, k, i);
      OwnListing(cluster, at, listings[..n], i, k);
    }
  }

  /** The snapshot a collection is turned into. */
  predicate SyncOf(snap: Snapshot, listings: seq<Listing>) {
    snap.fullSync && snap.resources == Listed(listings) && snap.fullSyncKinds == KindsWhere(listings, true)
  }

  lemma {:induction false} GivenKindsArePruned(given: set<string>, fullSync: bool, items: seq<Item>)
    requires given != {}
    ensures KindsToPrune(given, fullSync, items) == given
  {
    if items != [] { GivenKindsArePruned(given, fullSync, items[..|items| - 1]); }
  }

  /** Exactly the kinds found are synced. */
  lemma {:induction false} SyncedKinds(snap: Snapshot, listings: seq<Listing>)
    requires DistinctKinds(listings) && SyncOf(snap, listings)
    ensures forall kind :: kind in Kinds(snap) <==> exists i :: 0 <= i < |listings| && listings[i].found && listings[i].kind == kind
  {
    var given, kinds := NormalizeKinds(snap.fullSyncKinds), KindsWhere(listings, true);
    forall kind ensures kind in given <==> kind in kinds {
      if n :| 0 <= n < |kinds| && kinds[n] == kind { assert kinds[n] in kinds && TrimSpace(kinds[n]) == kind; }
      if kind in given {
        var n :| 0 <= n < |kinds| && !Blank(kinds[n]) && kind == TrimSpace(kinds[n]);
        assert kinds[n] in kinds;
      }
    }
    assert snap.resources != [] ==> given != {} by {
      if snap.resources != [] {
        var j := ListedKind(listings, 0);
        assert listings[j].kind in kinds;
      }
    }
    if given != {} { GivenKindsArePruned(given, snap.fullSync, snap.resources); }
  }

  /** A row of a kind that could not be read keeps its values. */
  lemma {:induction false} SkippedRowStays(inv: Inventory, snap: Snapshot, now: string, listings: seq<Listing>, i: nat, k: RowKey)
    requires DistinctKinds(listings) && SyncOf(snap, listings)
    requires i < |listings| && !listings[i].found && k in inv && Lower(k.kind) == Lower(listings[i].kind)
    ensures k in Applied(inv, snap, now) && Applied(inv, snap, now)[k] == inv[k]
  {
    SyncedKinds(snap, listings);
    forall j | 0 <= j < |listings| && listings[j].found ensures Lower(k.kind) != Lower(listings[j].kind) { assert i < j || j < i; }
    UpsertsAt(map[], Cluster(snap), SeenAt(snap, now), snap.resources, k);
    if Written(Cluster(snap), snap.resources, k) {
      var j := WrittenKind(Cluster(snap), listings, k);
      assert false;
    }
    NothingElseIsLost(inv, snap, now, k);
  }

  /** Rows and resources of the kinds found are spelled plainly. */
  ghost predicate PlainlySpelled(inv: Inventory, cluster: string, listings: seq<Listing>) {
    forall i :: 0 <= i < |listings| && listings[i].found ==>
      && (forall k :: k in inv && k.cluster == cluster && k.kind == listings[i].kind ==> Plain(k.kind, k.namespace, k.name))
      && (forall n :: 0 <= n < |listings[i].items| && !Blank(listings[i].items[n].name) ==>
            Plain(listings[i].kind, listings[i].items[n].namespace, TrimSpace(listings[i].items[n].name)))
  }

  lemma {:induction false} CollectedIsCanonical(inv: Inventory, snap: Snapshot, listings: seq<Listing>)
    requires DistinctKinds(listings) && SyncOf(snap, listings) && PlainlySpelled(inv, Cluster(snap), listings)
    ensures Canonical(inv, snap)
  {
    SyncedKinds(snap, listings);
    forall n | 0 <= n < |snap.resources| && Usable(snap.resources[n])
      ensures var x := snap.resources[n];
              && Plain(TrimSpace(x.kind), x.namespace, TrimSpace(x.name))
              && forall kind :: kind in Kinds(snap) && Lower(TrimSpace(x.kind)) == Lower(kind) ==> TrimSpace(x.kind) == kind
    {
      var j := ListedKind(listings, n);
      forall kind | kind in Kinds(snap) && Lower(listings[j].kind) == Lower(kind) ensures listings[j].kind == kind {
        var i :| 0 <= i < |listings| && listings[i].found && listings[i].kind == kind;
        assert !(i < j) && !(j < i);
      }
    }
  }

  /** The rows of a kind that was read are exactly those of its listing. */
  lemma {:induction false} FoundKindIsExact(inv: Inventory, snap: Snapshot, now: string, listings: seq<Listing>, i: nat, k: RowKey)
    requires DistinctKinds(listings) && SyncOf(snap, listings) && PlainlySpelled(inv, Cluster(snap), listings)
    requires i < |listings| && listings[i].found && k.cluster == Cluster(snap) && k.kind == listings[i].kind
    ensures SameAt(Applied(inv, snap, now), ListingRows(Cluster(snap), SeenAt(snap, now), listings[i]), k)
  {
    SyncedKinds(snap, listings);
    CollectedIsCanonical(inv, snap, listings);
    FullSyncIsExact(inv, snap, now, k);
    OwnListing(Cluster(snap), SeenAt(snap, now), listings, i, k);
  }

  /** Collecting and syncing: rows of a kind whose list call failed keep their values, and the rows
      of every kind that was read are exactly those of its listing. */
  method CollectAndSync(table: InventoryTable, listings: seq<Listing>, cluster: string, now: string) returns (ok: bool)
    requires DistinctKinds(listings)
    modifies table
    ensures !ok ==> table.rows == old(table.rows)
    ensures ok ==> forall i, k :: 0 <= i < |listings| && !listings[i].found && k in old(table.rows) && Lower(k.kind) == Lower(listings[i].kind) ==>
              k in table.rows && table.rows[k] == old(table.rows)[k]
    ensures ok && PlainlySpelled(old(table.rows), TrimSpace(cluster), listings) ==>
              forall i, k: RowKey :: 0 <= i < |listings| && listings[i].found && k.cluster == TrimSpace(cluster) && k.kind == listings[i].kind ==>
                SameAt(table.rows, ListingRows(TrimSpace(cluster), now, listings[i]), k)
  {
    var c := Collect(listings);
    ok := c.ok;
    if !ok { return; }
    var snap := Snapshot(cluster, now, c.resources, true, c.fullSyncKinds);
    ghost var before := table.rows;
    var deleted;
    ok, deleted := table.ApplySnapshot(snap, now);
    if ok {
      forall i, k | 0 <= i < |listings| && !listings[i].found && k in before && Lower(k.kind) == Lower(listings[i].kind)
        ensures k in table.rows && table.rows[k] == before[k]
      {
        SkippedRowStays(before, snap, now, listings, i, k);
      }
      if PlainlySpelled(before, TrimSpace(cluster), listings) {
        forall i, k: RowKey | 0 <= i < |listings| && listings[i].found && k.cluster == TrimSpace(cluster) && k.kind == listings[i].kind
          ensures SameAt(table.rows, ListingRows(TrimSpace(cluster), now, listings[i]), k)
        {
          FoundKindIsExact(before, snap, now, listings, i, k);
        }
      }
    }
  }
}
