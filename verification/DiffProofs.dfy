/** What the changes of a diff are good for: they turn one document into the other. */
module DiffProofs {
  import opened Text
  import opened Sorting
  import opened JsonDiff

  // ---------------------------------------------------------------- reading and writing at a path

  function Child(a: Json, st: Step): Json {
    match st
    case Field(k) => if a.Map? then Get(a.entries, k) else Null
    case Index(i) => if a.List? then At(a.elems, i) else Null
  }

  /** The list with `v` at position `i`, filled up with nulls when it is shorter. */
  function Write(s: seq<Json>, i: nat, v: Json): seq<Json> {
    if i < |s| then s[i := v] else s + seq(i - |s|, _ => Null) + [v]
  }

  /** The step leads into this kind of document. */
  predicate Fits(a: Json, st: Step) { (a.Map? && st.Field?) || (a.List? && st.Index?) }

  function Put(a: Json, st: Step, v: Json): Json {
    if !Fits(a, st) then a else
    match st
    case Field(k) => Map(a.entries[k := v])
    case Index(i) => List(Write(a.elems, i, v))
  }

  function Lookup(a: Json, path: seq<Step>): Json
    decreases |path|
  {
    if path == [] then a else Lookup(Child(a, path[0]), path[1..])
  }

  function Set(a: Json, path: seq<Step>, v: Json): Json
    decreases |path|
  {
    if path == [] then v else Put(a, path[0], Set(Child(a, path[0]), path[1..], v))
  }

  /** Writes the new value of each change at its path, one after the other. */
  function ApplyAll(a: Json, cs: seq<Change>): Json
    decreases |cs|
  {
    if cs == [] then a else ApplyAll(Set(a, cs[0].path, cs[0].after), cs[1..])
  }

  // ---------------------------------------------------------------- changes below one step

  predicate Through(c: Change, st: Step) { c.path != [] && c.path[0] == st }

  /** The changes below `st`, in order, with paths relative to it. */
  function Below(cs: seq<Change>, st: Step): seq<Change> {
    if cs == [] then [] else OneBelow(cs[0], st) + Below(cs[1..], st)
  }

  function OneBelow(c: Change, st: Step): seq<Change> {
    if Through(c, st) then [c.(path := c.path[1..])] else []
  }

  lemma {:induction false} BelowConcat(a: seq<Change>, b: seq<Change>, st: Step)
    ensures Below(a + b, st) == Below(a, st) + Below(b, st)
  {
    if a == [] {
      assert a + b == b;
    } else {
      assert (a + b)[1..] == a[1..] + b;
      BelowConcat(a[1..], b, st);
      ConcatAssociative(OneBelow(a[0], st), Below(a[1..], st), Below(b, st));
    }
  }

  lemma {:induction false} BelowPrefixed(cs: seq<Change>, st: Step, other: Step)
    ensures Below(WithPrefix([st], cs), other) == if other == st then cs else []
  {
    if cs != [] {
      var ps := WithPrefix([st], cs);
      assert ps[1..] == WithPrefix([st], cs[1..]);
      BelowPrefixed(cs[1..], st, other);
      assert ps[0].path == [st] + cs[0].path && ps[0].path[1..] == cs[0].path;
      assert cs == [cs[0]] + cs[1..];
    }
  }

  function Lift(c: Change, st: Step): Change { c.(path := [st] + c.path) }

  lemma {:induction false} OneBelowCounts(head: Change, st: Step, c: Change)
    ensures multiset(OneBelow(head, st))[c] == multiset([head])[Lift(c, st)]
  {
    if Through(head, st) {
      assert [st] + head.path[1..] == head.path;
      assert Lift(c, st).path[1..] == c.path;
    }
  }

  lemma {:induction false} BelowCounts(cs: seq<Change>, st: Step, c: Change)
    ensures multiset(Below(cs, st))[c] == multiset(cs)[Lift(c, st)]
  {
    if cs != [] {
      BelowCounts(cs[1..], st, c);
      OneBelowCounts(cs[0], st, c);
      assert cs == [cs[0]] + cs[1..];
      assert multiset(cs) == multiset([cs[0]]) + multiset(cs[1..]);
      assert multiset(Below(cs, st)) == multiset(OneBelow(cs[0], st)) + multiset(Below(cs[1..], st));
    }
  }

  lemma {:induction false} BelowOfPermutation(cs: seq<Change>, ds: seq<Change>, st: Step)
    requires multiset(cs) == multiset(ds)
    ensures multiset(Below(cs, st)) == multiset(Below(ds, st))
  {
    forall c ensures multiset(Below(cs, st))[c] == multiset(Below(ds, st))[c] {
      BelowCounts(cs, st, c);
      BelowCounts(ds, st, c);
    }
  }

  /** All changes lead into this kind of document. */
  predicate AllFit(a: Json, cs: seq<Change>) {
    forall c :: c in cs ==> c.path != [] && Fits(a, c.path[0])
  }

  /** What the changes leave below a step depends only on the changes through that step. */
  lemma {:induction false} ChildOfApplyAll(a: Json, cs: seq<Change>, st: Step)
    requires AllFit(a, cs) && Fits(a, st)
    ensures Fits(ApplyAll(a, cs), st)
    ensures Child(ApplyAll(a, cs), st) == ApplyAll(Child(a, st), Below(cs, st))
    decreases |cs|
  {
    if cs != [] {
      var c := cs[0];
      assert c in cs;
      var v := Set(Child(a, c.path[0]), c.path[1..], c.after);
      var next := Put(a, c.path[0], v);
      assert AllFit(next, cs[1..]) by {
        forall d | d in cs[1..] ensures d.path != [] && Fits(next, d.path[0]) {
          assert d in cs;
        }
      }
      ChildOfApplyAll(next, cs[1..], st);
      if Through(c, st) {
        var short := c.(path := c.path[1..]);
        assert Below(cs, st) == [short] + Below(cs[1..], st);
        assert ([short] + Below(cs[1..], st))[1..] == Below(cs[1..], st);
      } else {
        assert Below(cs, st) == [] + Below(cs[1..], st) == Below(cs[1..], st);
      }
    }
  }

  // ---------------------------------------------------------------- the diff, step by step

  lemma {:induction false} BelowDiffKeys(a: Json, b: Json, keys: seq<string>, k: string)
    requires a.Map? && b.Map? && Distinct(keys)
    ensures Below(DiffKeys(a, b, keys), Field(k)) == if k in keys then Diff(Get(a.entries, k), Get(b.entries, k)) else []
    decreases |keys|
  {
    if keys != [] {
      var one := Diff(Get(a.entries, keys[0]), Get(b.entries, keys[0]));
      BelowConcat(WithPrefix([Field(keys[0])], one), DiffKeys(a, b, keys[1..]), Field(k));
      BelowPrefixed(one, Field(keys[0]), Field(k));
      BelowDiffKeys(a, b, keys[1..], k);
      if k == keys[0] { assert k !in keys[1..]; }
    }
  }

  lemma {:induction false} BelowDiffElems(a: Json, b: Json, i: nat, j: nat)
    requires a.List? && b.List? && i <= Longer(a.elems, b.elems)
    ensures Below(DiffElems(a, b, i), Index(j)) == if i <= j < Longer(a.elems, b.elems) then Diff(At(a.elems, j), At(b.elems, j)) else []
    decreases Longer(a.elems, b.elems) - i
  {
    if i < Longer(a.elems, b.elems) {
      var one := Diff(At(a.elems, i), At(b.elems, i));
      BelowConcat(WithPrefix([Index(i)], one), DiffElems(a, b, i + 1), Index(j));
      BelowPrefixed(one, Index(i), Index(j));
      BelowDiffElems(a, b, i + 1, j);
    }
  }

  /** Below a step, the diff of two documents of one kind is the diff of their children. */
  lemma {:induction false} BelowDiff(a: Json, b: Json, st: Step)
    requires Nested(a, b) && Fits(a, st)
    ensures Below(Diff(a, b), st) == Diff(Child(a, st), Child(b, st))
  {
    match st
    case Field(k) =>
      var keys := SortedKeys(a.entries.Keys + b.entries.Keys);
      assert k in keys <==> k in Elements(keys);
      BelowDiffKeys(a, b, keys, k);
    case Index(j) =>
      BelowDiffElems(a, b, 0, j);
  }

  lemma {:induction false} DiffKeysFit(a: Json, b: Json, keys: seq<string>)
    requires a.Map? && b.Map?
    ensures AllFit(a, DiffKeys(a, b, keys))
    decreases |keys|
  {
    if keys != [] { DiffKeysFit(a, b, keys[1..]); }
  }

  lemma {:induction false} DiffElemsFit(a: Json, b: Json, i: nat)
    requires a.List? && b.List? && i <= Longer(a.elems, b.elems)
    ensures AllFit(a, DiffElems(a, b, i))
    decreases Longer(a.elems, b.elems) - i
  {
    if i < Longer(a.elems, b.elems) { DiffElemsFit(a, b, i + 1); }
  }

  lemma {:induction false} DiffFits(a: Json, b: Json, cs: seq<Change>)
    requires Nested(a, b) && multiset(cs) == multiset(Diff(a, b))
    ensures AllFit(a, cs)
  {
    if a.Map? { DiffKeysFit(a, b, SortedKeys(a.entries.Keys + b.entries.Keys)); } else { DiffElemsFit(a, b, 0); }
    forall c | c in cs ensures c.path != [] && Fits(a, c.path[0]) {
      assert c in multiset(cs);
      assert c in Diff(a, b);
    }
  }

  // ---------------------------------------------------------------- the diff is a patch

  lemma {:induction false} PatchOfLeaf(a: Json, b: Json, cs: seq<Change>)
    requires !Nested(a, b) && multiset(cs) == multiset(Diff(a, b))
    ensures ApplyAll(a, cs) == b
  {
    assert |cs| == |multiset(cs)| == |multiset(Diff(a, b))| == |Diff(a, b)|;
    if cs != [] {
      assert cs[0] in multiset(cs) && cs[0] in Diff(a, b);
      assert cs[0] == Diff(a, b)[0] && cs[1..] == [];
      assert ApplyAll(b, []) == b;
    }
  }

  ghost predicate SameChildren(r: Json, b: Json) {
    forall st :: Fits(b, st) ==> Fits(r, st) && Norm(Child(r, st)) == Norm(Child(b, st))
  }

  lemma {:induction false} SameChildrenSameNorm(r: Json, b: Json)
    requires (b.Map? || b.List?) && SameChildren(r, b)
    ensures Norm(r) == Norm(b)
  {
    if b.Map? {
      assert Fits(b, Field("")) && Fits(r, Field(""));
      forall k | k in r.entries.Keys + b.entries.Keys ensures Norm(Get(r.entries, k)) == Norm(Get(b.entries, k)) {
        assert Fits(b, Field(k)) && Norm(Child(r, Field(k))) == Norm(Child(b, Field(k)));
      }
      NormMapEqual(r, b);
    } else {
      assert Fits(b, Index(0)) && Fits(r, Index(0));
      forall i | 0 <= i < Longer(r.elems, b.elems) ensures Norm(At(r.elems, i)) == Norm(At(b.elems, i)) {
        assert Fits(b, Index(i)) && Norm(Child(r, Index(i))) == Norm(Child(b, Index(i)));
      }
      NormListEqual(r, b);
    }
  }

  /** Writing the reported new values into the old document, in any order, yields the new
      document up to null entries and trailing nulls. */
  lemma {:induction false} PatchReachesTarget(a: Json, b: Json, cs: seq<Change>)
    requires multiset(cs) == multiset(Diff(a, b))
    ensures Norm(ApplyAll(a, cs)) == Norm(b)
    decreases Nested(a, b), a
  {
    if !Nested(a, b) {
      PatchOfLeaf(a, b, cs);
    } else {
      DiffFits(a, b, cs);
      var r := ApplyAll(a, cs);
      forall st | Fits(b, st) ensures Fits(r, st) && Norm(Child(r, st)) == Norm(Child(b, st)) {
        ChildOfApplyAll(a, cs, st);
        BelowOfPermutation(cs, Diff(a, b), st);
        BelowDiff(a, b, st);
        PatchReachesTarget(Child(a, st), Child(b, st), Below(cs, st));
      }
      SameChildrenSameNorm(r, b);
    }
  }

  // ---------------------------------------------------------------- what a change reports

  ghost predicate Truthful(a: Json, b: Json, c: Change) {
    && Lookup(a, c.path) == c.before && Lookup(b, c.path) == c.after && c.before != c.after
    && (c.kind == Added <==> c.before.Null?) && (c.kind == Removed <==> c.after.Null?)
  }

  /** A change below a step is a change of the children. */
  lemma {:induction false} ChangeOfChildren(a: Json, b: Json, c: Change) returns (st: Step, short: Change)
    requires Nested(a, b) && c in Diff(a, b)
    ensures c == Lift(short, st) && short in Diff(Child(a, st), Child(b, st)) && Fits(a, st)
  {
    DiffFits(a, b, Diff(a, b));
    st, short := c.path[0], c.(path := c.path[1..]);
    BelowDiff(a, b, st);
    assert c.path == [st] + c.path[1..];
    BelowMember(Diff(a, b), st, c, short);
  }

  lemma {:induction false} BelowMember(cs: seq<Change>, st: Step, c: Change, short: Change)
    requires c in cs && c == Lift(short, st)
    ensures short in Below(cs, st)
  {
    BelowCounts(cs, st, short);
    assert c in multiset(cs);
    assert short in multiset(Below(cs, st));
  }

  /** Every change names a place where the documents differ, and their values there. */
  lemma {:induction false} ChangesAreTruthful(a: Json, b: Json, c: Change)
    requires c in Diff(a, b)
    ensures Truthful(a, b, c)
    decreases Nested(a, b), a
  {
    if Nested(a, b) {
      var st, short := ChangeOfChildren(a, b, c);
      ChangesAreTruthful(Child(a, st), Child(b, st), short);
      assert c.path[0] == st && c.path[1..] == short.path;
    }
  }

  // ---------------------------------------------------------------- the reverse diff

  function Reverse(c: Change): Change {
    Change(c.path, c.after, c.before, match c.kind case Added => Removed case Removed => Added case Changed => Changed)
  }

  function ReverseAll(cs: seq<Change>): seq<Change> {
    seq(|cs|, i requires 0 <= i < |cs| => Reverse(cs[i]))
  }

  /** Swapping the documents swaps old and new, added and removed, and nothing else. */
  lemma {:induction false} DiffReverses(a: Json, b: Json)
    ensures Diff(b, a) == ReverseAll(Diff(a, b))
    decreases Nested(a, b), a, 1, 0
  {
    if a.Map? && b.Map? {
      assert a.entries.Keys + b.entries.Keys == b.entries.Keys + a.entries.Keys;
      DiffKeysReverse(a, b, SortedKeys(a.entries.Keys + b.entries.Keys));
    } else if a.List? && b.List? {
      DiffElemsReverse(a, b, 0);
    }
  }

  lemma {:induction false} DiffKeysReverse(a: Json, b: Json, keys: seq<string>)
    requires a.Map? && b.Map?
    ensures DiffKeys(b, a, keys) == ReverseAll(DiffKeys(a, b, keys))
    decreases true, a, 0, |keys|
  {
    if keys != [] {
      var x, y := Get(a.entries, keys[0]), Get(b.entries, keys[0]);
      DiffReverses(x, y);
      DiffKeysReverse(a, b, keys[1..]);
    }
  }

  lemma {:induction false} DiffElemsReverse(a: Json, b: Json, i: nat)
    requires a.List? && b.List? && i <= Longer(a.elems, b.elems)
    ensures DiffElems(b, a, i) == ReverseAll(DiffElems(a, b, i))
    decreases true, a, 0, Longer(a.elems, b.elems) - i
  {
    if i < Longer(a.elems, b.elems) {
      var x, y := At(a.elems, i), At(b.elems, i);
      DiffReverses(x, y);
      DiffElemsReverse(a, b, i + 1);
    }
  }

  /** The reversed changes undo the change: they lead from the new document back to the old. */
  lemma {:induction false} ReverseUndoes(a: Json, b: Json)
    ensures Norm(ApplyAll(b, ReverseAll(Diff(a, b)))) == Norm(a)
  {
    DiffReverses(a, b);
    PatchReachesTarget(b, a, Diff(b, a));
  }
}
