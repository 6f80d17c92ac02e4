/** Structural diff of two decoded JSON documents: `diffValue`. */
module JsonDiff {
  import opened Text
  import opened Sorting

  datatype Json =
    | Null
    | Bool(b: bool)
    | Num(n: real)
    | Str(s: string)
    | List(elems: seq<Json>)
    | Map(entries: map<string, Json>)

  /** One segment of a path into a document. */
  datatype Step = Field(key: string) | Index(i: nat)

  datatype Kind = Added | Removed | Changed

  datatype Change = Change(path: seq<Step>, before: Json, after: Json, kind: Kind)

  /** A missing entry or element reads as null. */
  function Get(m: map<string, Json>, k: string): Json { if k in m then m[k] else Null }

  function At(s: seq<Json>, i: nat): Json { if i < |s| then s[i] else Null }

  predicate Nested(a: Json, b: Json) { (a.Map? && b.Map?) || (a.List? && b.List?) }

  function KindOf(a: Json, b: Json): Kind {
    if a.Null? then Added else if b.Null? then Removed else Changed
  }

  function WithPrefix(path: seq<Step>, cs: seq<Change>): (r: seq<Change>)
    ensures |r| == |cs|
  {
    seq(|cs|, i requires 0 <= i < |cs| => cs[i].(path := path + cs[i].path))
  }

  lemma {:induction false} WithPrefixConcat(path: seq<Step>, a: seq<Change>, b: seq<Change>)
    ensures WithPrefix(path, a + b) == WithPrefix(path, a) + WithPrefix(path, b)
  {}

  lemma {:induction false} WithPrefixTwice(path: seq<Step>, step: Step, cs: seq<Change>)
    ensures WithPrefix(path, WithPrefix([step], cs)) == WithPrefix(path + [step], cs)
  {
    forall i | 0 <= i < |cs| ensures WithPrefix(path, WithPrefix([step], cs))[i] == WithPrefix(path + [step], cs)[i] {
      assert path + ([step] + cs[i].path) == path + [step] + cs[i].path;
    }
  }

  function Longer(a: seq<Json>, b: seq<Json>): nat { if |b| > |a| then |b| else |a| }

  /** The changes from `a` to `b`, with paths relative to them. */
  ghost function Diff(a: Json, b: Json): seq<Change>
    decreases Nested(a, b), a, 1, 0
  {
    if a.Map? && b.Map? then DiffKeys(a, b, SortedKeys(a.entries.Keys + b.entries.Keys)) else
    if a.List? && b.List? then DiffElems(a, b, 0) else
    if a == b then [] else [Change([], a, b, KindOf(a, b))]
  }

  ghost function DiffKeys(a: Json, b: Json, keys: seq<string>): seq<Change>
    requires a.Map? && b.Map?
    decreases true, a, 0, |keys|
  {
    if keys == [] then [] else
    WithPrefix([Field(keys[0])], Diff(Get(a.entries, keys[0]), Get(b.entries, keys[0]))) + DiffKeys(a, b, keys[1..])
  }

  ghost function DiffElems(a: Json, b: Json, i: nat): seq<Change>
    requires a.List? && b.List? && i <= Longer(a.elems, b.elems)
    decreases true, a, 0, Longer(a.elems, b.elems) - i
  {
    if i == Longer(a.elems, b.elems) then [] else
    WithPrefix([Index(i)], Diff(At(a.elems, i), At(b.elems, i))) + DiffElems(a, b, i + 1)
  }

  // ---------------------------------------------------------------- the code's recursion

  /** `diffValue`, which appends to a shared list and threads the path. */
  method DiffValue(path: seq<Step>, a: Json, b: Json, out: seq<Change>) returns (r: seq<Change>)
    ensures r == out + WithPrefix(path, Diff(a, b))
    decreases Nested(a, b), a
  {
    r := out;
    if a.Map? && b.Map? {
      var ordered := OrderedKeys(a.entries.Keys + b.entries.Keys);
      var i := 0;
      while i < |ordered|
        invariant 0 <= i <= |ordered|
        invariant out + WithPrefix(path, Diff(a, b)) == r + WithPrefix(path, DiffKeys(a, b, ordered[i..]))
      {
        var k := ordered[i];
        ghost var one := Diff(Get(a.entries, k), Get(b.entries, k));
        ghost var more := DiffKeys(a, b, ordered[i + 1..]);
        assert ordered[i..][1..] == ordered[i + 1..];
        WithPrefixConcat(path, WithPrefix([Field(k)], one), more);
        WithPrefixTwice(path, Field(k), one);
        ConcatAssociative(r, WithPrefix(path + [Field(k)], one), WithPrefix(path, more));
        r := DiffValue(path + [Field(k)], Get(a.entries, k), Get(b.entries, k), r);
        i := i + 1;
      }
    } else if a.List? && b.List? {
      var n := Longer(a.elems, b.elems);
      var i := 0;
      while i < n
        invariant 0 <= i <= n
        invariant out + WithPrefix(path, Diff(a, b)) == r + WithPrefix(path, DiffElems(a, b, i))
      {
        ghost var one, more := Diff(At(a.elems, i), At(b.elems, i)), DiffElems(a, b, i + 1);
        WithPrefixConcat(path, WithPrefix([Index(i)], one), more);
        WithPrefixTwice(path, Index(i), one);
        ConcatAssociative(r, WithPrefix(path + [Index(i)], one), WithPrefix(path, more));
        r := DiffValue(path + [Index(i)], At(a.elems, i), At(b.elems, i), r);
        i := i + 1;
      }
    } else if a != b {
      r := out + [Change(path, a, b, KindOf(a, b))];
      assert path + [] == path;
    }
  }

  // ---------------------------------------------------------------- normal form

  function KeptLength(s: seq<Json>): (n: nat)
    ensures n <= |s| && (n > 0 ==> s[n - 1] != Null) && forall i :: n <= i < |s| ==> s[i] == Null
  {
    if s == [] then 0 else if s[|s| - 1] == Null then KeptLength(s[..|s| - 1]) else |s|
  }

  /** The document without null map entries and without nulls at the end of lists. */
  function Norm(a: Json): (r: Json)
    ensures r.Null? <==> a.Null?
    ensures r.Map? <==> a.Map?
    ensures r.List? <==> a.List?
  {
    match a
    case Map(m) => Map(map k | k in m && m[k] != Null :: Norm(m[k]))
    case List(s) => List(seq(KeptLength(s), i requires 0 <= i < KeptLength(s) => Norm(s[i])))
    case _ => a
  }

  lemma {:induction false} NormMapEqual(a: Json, b: Json)
    requires a.Map? && b.Map?
    ensures Norm(a) == Norm(b) <==>
            forall k :: k in a.entries.Keys + b.entries.Keys ==> Norm(Get(a.entries, k)) == Norm(Get(b.entries, k))
  {
    var na, nb := Norm(a).entries, Norm(b).entries;
    if forall k :: k in a.entries.Keys + b.entries.Keys ==> Norm(Get(a.entries, k)) == Norm(Get(b.entries, k)) {
      forall k ensures k in na <==> k in nb {}
      assert na == nb;
    }
    if Norm(a) == Norm(b) {
      forall k | k in a.entries.Keys + b.entries.Keys ensures Norm(Get(a.entries, k)) == Norm(Get(b.entries, k)) {
        assert k in na <==> k in nb;
        assert k in na ==> na[k] == nb[k];
      }
    }
  }

  lemma {:induction false} NormListEqual(a: Json, b: Json)
    requires a.List? && b.List?
    ensures Norm(a) == Norm(b) <==> forall i :: 0 <= i < Longer(a.elems, b.elems) ==> Norm(At(a.elems, i)) == Norm(At(b.elems, i))
  {
    var s, t := a.elems, b.elems;
    var na, nb := Norm(a).elems, Norm(b).elems;
    var n, m := KeptLength(s), KeptLength(t);
    if Norm(a) == Norm(b) {
      assert n == m;
      forall i | 0 <= i < Longer(s, t) ensures Norm(At(s, i)) == Norm(At(t, i)) {
        if i < n { assert na[i] == nb[i]; }
      }
    }
    if forall i :: 0 <= i < Longer(s, t) ==> Norm(At(s, i)) == Norm(At(t, i)) {
      if n > 0 { assert Norm(At(s, n - 1)) == Norm(At(t, n - 1)); }
      if m > 0 { assert Norm(At(s, m - 1)) == Norm(At(t, m - 1)); }
      assert n == m;
      forall i | 0 <= i < n ensures na[i] == nb[i] { assert Norm(At(s, i)) == Norm(At(t, i)); }
      assert na == nb;
    }
  }

  // ---------------------------------------------------------------- an empty diff

  /** The diff is empty exactly when the documents have the same normal form. */
  lemma {:induction false} EmptyDiff(a: Json, b: Json)
    ensures Diff(a, b) == [] <==> Norm(a) == Norm(b)
    decreases Nested(a, b), a, 1, 0
  {
    if a.Map? && b.Map? {
      var keys := SortedKeys(a.entries.Keys + b.entries.Keys);
      EmptyDiffKeys(a, b, keys);
      NormMapEqual(a, b);
      assert forall k :: k in a.entries.Keys + b.entries.Keys <==> k in Elements(keys);
    } else if a.List? && b.List? {
      EmptyDiffElems(a, b, 0);
      NormListEqual(a, b);
    }
  }

  lemma {:induction false} EmptyDiffKeys(a: Json, b: Json, keys: seq<string>)
    requires a.Map? && b.Map?
    ensures DiffKeys(a, b, keys) == [] <==> forall k :: k in keys ==> Norm(Get(a.entries, k)) == Norm(Get(b.entries, k))
    decreases true, a, 0, |keys|
  {
    if keys != [] {
      EmptyDiff(Get(a.entries, keys[0]), Get(b.entries, keys[0]));
      EmptyDiffKeys(a, b, keys[1..]);
      assert forall k :: k in keys <==> k == keys[0] || k in keys[1..];
    }
  }

  lemma {:induction false} EmptyDiffElems(a: Json, b: Json, i: nat)
    requires a.List? && b.List? && i <= Longer(a.elems, b.elems)
    ensures DiffElems(a, b, i) == [] <==> forall j :: i <= j < Longer(a.elems, b.elems) ==> Norm(At(a.elems, j)) == Norm(At(b.elems, j))
    decreases true, a, 0, Longer(a.elems, b.elems) - i
  {
    if i < Longer(a.elems, b.elems) {
      EmptyDiff(At(a.elems, i), At(b.elems, i));
      EmptyDiffElems(a, b, i + 1);
    }
  }
}
