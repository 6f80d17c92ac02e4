/** The in-place insertion sort behind `sortStrings`. */
module Sorting {
  import opened Text

  ghost predicate TotalOrder<T(!new)>(le: (T, T) -> bool) {
    && (forall x, y :: le(x, y) || le(y, x))
    && (forall x, y, z :: le(x, y) && le(y, z) ==> le(x, z))
  }

  ghost predicate Sorted<T>(le: (T, T) -> bool, s: seq<T>) {
    forall i, j :: 0 <= i < j < |s| ==> le(s[i], s[j])
  }

  /** Sorted up to `i`, except that the element at `j` may be smaller than those before it. */
  ghost predicate SortedBut<T>(le: (T, T) -> bool, s: seq<T>, i: int, j: int) {
    forall p, q :: 0 <= p < q <= i < |s| && q != j ==> le(s[p], s[q])
  }

  /** The sequence with the elements at `j - 1` and `j` exchanged. */
  ghost function Swapped<T>(s: seq<T>, j: int): seq<T>
    requires 0 < j < |s|
  {
    s[j - 1 := s[j]][j := s[j - 1]]
  }

  method SwapWithPrevious<T>(a: array<T>, j: int)
    requires 0 < j < a.Length
    modifies a
    ensures a[..] == Swapped(old(a[..]), j)
    ensures multiset(a[..]) == multiset(old(a[..]))
  {
    ghost var left, x, y, right := a[..j - 1], a[j - 1], a[j], a[j + 1..];
    assert a[..] == left + [x, y] + right;
    a[j - 1], a[j] := a[j], a[j - 1];
    assert a[..] == left + [y, x] + right;
  }

  method InsertionSort<T(!new)>(a: array<T>, le: (T, T) -> bool)
    requires TotalOrder(le)
    modifies a
    ensures Sorted(le, a[..]) && multiset(a[..]) == multiset(old(a[..]))
  {
    var i := 1;
    while i < a.Length
      invariant 1 <= i && (a.Length >= 1 ==> i <= a.Length)
      invariant i <= a.Length ==> Sorted(le, a[..i])
      invariant multiset(a[..]) == multiset(old(a[..]))
    {
      var j := i;
      assert SortedBut(le, a[..], i, j) by {
        forall p, q | 0 <= p < q <= i && q != j ensures le(a[..][p], a[..][q]) {
          assert a[..][p] == a[..i][p] && a[..][q] == a[..i][q];
        }
      }
      while j > 0 && !le(a[j - 1], a[j])
        invariant 0 <= j <= i < a.Length
        invariant SortedBut(le, a[..], i, j)
        invariant multiset(a[..]) == multiset(old(a[..]))
      {
        SwapWithPrevious(a, j);
        j := j - 1;
      }
      assert a[..][..i + 1] == a[..i + 1];
      i := i + 1;
    }
    if a.Length >= 1 { assert a[..a.Length] == a[..]; }
  }

  lemma {:induction false} LeIsTotalOrder()
    ensures TotalOrder(Le)
  {
    forall x, y ensures Le(x, y) || Le(y, x) { LeTotal(x, y); }
    forall x, y, z | Le(x, y) && Le(y, z) ensures Le(x, z) { LeTransitive(x, y, z); }
  }

  /** `sortStrings`. */
  method SortStrings(ss: array<string>)
    modifies ss
    ensures Sorted(Le, ss[..]) && multiset(ss[..]) == multiset(old(ss[..]))
  {
    LeIsTotalOrder();
    InsertionSort(ss, Le);
  }

  ghost predicate Distinct<T>(s: seq<T>) {
    forall i, j :: 0 <= i < j < |s| ==> s[i] != s[j]
  }

  lemma {:induction false} DistinctIsOnePerElement<T>(s: seq<T>)
    ensures Distinct(s) <==> forall x :: multiset(s)[x] <= 1
  {
    if s != [] {
      var n := |s| - 1;
      var t := s[..n];
      assert s == t + [s[n]];
      DistinctIsOnePerElement(t);
      if Distinct(s) {
        assert Distinct(t);
        assert s[n] !in t;
      } else if Distinct(t) {
        var i, j :| 0 <= i < j < |s| && s[i] == s[j];
        assert j == n && t[i] == s[n] && t[i] in multiset(t);
        assert multiset(s) == multiset(t) + multiset{s[n]};
        assert multiset(s)[s[n]] > 1;
      } else {
        var x :| multiset(t)[x] > 1;
        assert multiset(s)[x] > 1;
      }
    }
  }

  /** Sorting distinct strings lists their set in strictly increasing order. */
  lemma {:induction false} SortedDistinctIsStrict(s: seq<string>, t: seq<string>)
    requires Sorted(Le, s) && multiset(s) == multiset(t) && Distinct(t)
    ensures StrictlySorted(s) && Elements(s) == Elements(t)
  {
    DistinctIsOnePerElement(t);
    DistinctIsOnePerElement(s);
    forall x ensures x in s <==> x in t {
      assert x in s <==> x in multiset(s);
      assert x in t <==> x in multiset(t);
    }
  }

  // ---------------------------------------------------------------- sorted keys of a map

  lemma {:induction false} LeastExists(s: set<string>) returns (k: string)
    requires s != {}
    ensures k in s && forall j :: j in s ==> Le(k, j)
  {
    k :| k in s;
    var rest := s - {k};
    LeReflexive(k);
    assert forall j :: j in s ==> j == k || j in rest;
    if rest != {} {
      var m := LeastExists(rest);
      LeTotal(k, m);
      forall j | j in s ensures Le(if Le(k, m) then k else m, j) {
        if j != k && Le(k, m) { LeTransitive(k, m, j); }
      }
      k := if Le(k, m) then k else m;
    }
  }

  lemma {:induction false} SortedListingExists(s: set<string>) returns (r: seq<string>)
    ensures StrictlySorted(r) && Elements(r) == s
  {
    if s == {} {
      r := [];
    } else {
      var k := LeastExists(s);
      var t := SortedListingExists(s - {k});
      r := [k] + t;
      assert forall j :: 0 <= j < |t| ==> t[j] in Elements(t);
      assert Elements(r) == {k} + Elements(t);
    }
  }

  lemma {:induction false} HasSortedListing(s: set<string>)
    ensures exists r :: StrictlySorted(r) && Elements(r) == s
  {
    var r := SortedListingExists(s);
  }

  /** The keys in the order `sort.Strings` leaves them in. */
  ghost function SortedKeys(s: set<string>): (r: seq<string>)
    ensures StrictlySorted(r) && Elements(r) == s
  {
    HasSortedListing(s);
    var r :| StrictlySorted(r) && Elements(r) == s;
    r
  }

  /** Collecting the keys of a map in any order and sorting them. */
  method OrderedKeys(s: set<string>) returns (r: seq<string>)
    ensures r == SortedKeys(s)
  {
    var todo, keys: seq<string> := s, [];
    while todo != {}
      invariant todo <= s && Distinct(keys) && Elements(keys) == s - todo
      decreases todo
    {
      var k :| k in todo;
      assert k !in Elements(keys);
      assert Elements(keys + [k]) == Elements(keys) + {k};
      keys, todo := keys + [k], todo - {k};
    }
    var list := new string[|keys|](i requires 0 <= i < |keys| => keys[i]);
    assert list[..] == keys;
    SortStrings(list);
    r := list[..];
    SortedDistinctIsStrict(r, keys);
    SortedListingUnique(r, SortedKeys(s));
  }
}
