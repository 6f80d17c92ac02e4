/** What an event key identifies. `watchEventKey` joins seven parts with bars and escapes nothing. */
module EventKeys {
  import opened Text
  import opened Collector

  predicate BarFree(s: string) { '|' !in s }

  lemma {:induction false} FirstBar(x: string, rest: string, y: string, tail: string)
    requires BarFree(x) && BarFree(y) && x + "|" + rest == y + "|" + tail
    ensures x == y && rest == tail
  {
    var s := x + "|" + rest;
    assert s[|x|] == '|' && s[|y|] == '|';
    assert forall i :: 0 <= i < |x| ==> s[i] == x[i] && x[i] in x;
    assert forall i :: 0 <= i < |y| ==> s[i] == y[i] && y[i] in y;
    assert |x| == |y|;
    assert s[..|x|] == x && s[..|y|] == y && s[|x| + 1..] == rest && s[|y| + 1..] == tail;
  }

  /** Parts are recovered from their key when only the last one may contain a bar. */
  lemma {:induction false} JoinSeparates(a: seq<string>, b: seq<string>)
    requires |a| == |b| >= 1 && Join(a, "|") == Join(b, "|")
    requires forall i :: 0 <= i < |a| - 1 ==> BarFree(a[i]) && BarFree(b[i])
    ensures a == b
  {
    if |a| > 1 {
      FirstBar(a[0], Join(a[1..], "|"), b[0], Join(b[1..], "|"));
      JoinSeparates(a[1..], b[1..]);
      assert a == [a[0]] + a[1..] && b == [b[0]] + b[1..];
    }
  }

  function Version(observedAt: string, item: Item, rv: string): string { First([rv, item.uid, item.observedAt, observedAt]) }

  function KeyParts(b: Batch, observedAt: string, item: Item, verb: string, rv: string): seq<string> {
    [TrimSpace(b.clusterID), b.agentID, Version(observedAt, item, rv), verb, item.kind, item.namespace, item.name]
  }

  predicate Separable(parts: seq<string>) { forall i :: 0 <= i < |parts| - 1 ==> BarFree(parts[i]) }

  /** Equal keys mean equal cluster, agent, version, verb, kind, namespace and name, when no part
      before the name contains a bar. */
  lemma {:induction false} EventKeySeparates(
    b: Batch, at: string, item: Item, verb: string, rv: string, b': Batch, at': string, item': Item, verb': string, rv': string)
    requires Separable(KeyParts(b, at, item, verb, rv)) && Separable(KeyParts(b', at', item', verb', rv'))
    requires EventKey(b, at, item, verb, rv) == EventKey(b', at', item', verb', rv')
    ensures TrimSpace(b.clusterID) == TrimSpace(b'.clusterID) && b.agentID == b'.agentID
    ensures Version(at, item, rv) == Version(at', item', rv') && verb == verb'
    ensures item.kind == item'.kind && item.namespace == item'.namespace && item.name == item'.name
  {
    var p, q := KeyParts(b, at, item, verb, rv), KeyParts(b', at', item', verb', rv');
    JoinSeparates(p, q);
    assert p[0] == q[0] && p[1] == q[1] && p[2] == q[2] && p[3] == q[3] && p[4] == q[4] && p[5] == q[5] && p[6] == q[6];
  }

  // ---------------------------------------------------------------- when it is ambiguous

  lemma {:induction false} SameAcross(left: seq<string>, x: string, y: string, x': string, y': string, right: seq<string>)
    requires x + "|" + y == x' + "|" + y'
    ensures Join(left + [x, y] + right, "|") == Join(left + [x', y'] + right, "|")
  {
    if left == [] {
      JoinOfTwo(x, y, right);
      JoinOfTwo(x', y', right);
      assert left + [x, y] + right == [x, y] + right && left + [x', y'] + right == [x', y'] + right;
    } else {
      SameAcross(left[1..], x, y, x', y', right);
      assert (left + [x, y] + right)[1..] == left[1..] + [x, y] + right;
      assert (left + [x', y'] + right)[1..] == left[1..] + [x', y'] + right;
    }
  }

  lemma {:induction false} JoinOfTwo(x: string, y: string, right: seq<string>)
    ensures Join([x, y] + right, "|") == if right == [] then x + "|" + y else (x + "|" + y) + "|" + Join(right, "|")
  {
    assert Join([x, y], "|") == x + "|" + y by { assert [x, y][1..] == [y]; }
    if right == [] {
      assert [x, y] + right == [x, y];
    } else {
      JoinConcat([x, y], right, "|");
    }
  }

  function Bars(s: string): nat { if s == "" then 0 else (if s[0] == '|' then 1 else 0) + Bars(s[1..]) }

  lemma {:induction false} BarsConcat(a: string, b: string)
    ensures Bars(a + b) == Bars(a) + Bars(b)
  {
    if a == "" {
      assert a + b == b;
    } else {
      assert (a + b)[1..] == a[1..] + b;
      BarsConcat(a[1..], b);
    }
  }

  lemma {:induction false} NoBars(s: string)
    ensures Bars(s) == 0 <==> BarFree(s)
  {
    if s != "" {
      NoBars(s[1..]);
      assert s == [s[0]] + s[1..];
    }
  }

  /** A key has a bar between its parts and none elsewhere exactly when its parts have none. */
  lemma {:induction false} BarsOfJoin(parts: seq<string>)
    requires parts != []
    ensures Bars(Join(parts, "|")) >= |parts| - 1
    ensures Bars(Join(parts, "|")) == |parts| - 1 <==> forall i :: 0 <= i < |parts| ==> BarFree(parts[i])
  {
    NoBars(parts[0]);
    if |parts| > 1 {
      var rest := parts[1..];
      BarsOfJoin(rest);
      BarsConcat(parts[0] + "|", Join(rest, "|"));
      BarsConcat(parts[0], "|");
      assert Bars("|") == 1 by { assert "|"[1..] == ""; }
      assert forall i :: 0 <= i < |rest| ==> rest[i] == parts[i + 1];
      assert forall i :: 1 <= i < |parts| ==> parts[i] == rest[i - 1];
    }
  }

  /** No other list of as many parts has the same key. */
  ghost predicate OnlyReading(parts: seq<string>) {
    forall other: seq<string> :: |other| == |parts| && Join(other, "|") == Join(parts, "|") ==> other == parts
  }

  lemma {:induction false} BarMoves(x: string, y: string, z: string)
    ensures x + "|" + y + "|" + z == x + "|" + (y + "|" + z)
  {
    ConcatAssociative(x + "|", y + "|", z);
    ConcatAssociative(x + "|", y, "|");
  }

  /** Moving the bar between two neighbouring parts gives another reading. */
  lemma {:induction false} Resplit(parts: seq<string>, at: nat, x: string, y: string)
    requires at + 1 < |parts| && x != parts[at] && x + "|" + y == parts[at] + "|" + parts[at + 1]
    ensures !OnlyReading(parts)
  {
    var left, right := parts[..at], parts[at + 2..];
    assert parts == left + [parts[at], parts[at + 1]] + right;
    SameAcross(left, parts[at], parts[at + 1], x, y, right);
    var other := left + [x, y] + right;
    assert other[at] == x;
  }

  lemma {:induction false} AnotherReading(parts: seq<string>, k: nat)
    requires |parts| >= 2 && k < |parts| && !BarFree(parts[k])
    ensures !OnlyReading(parts)
  {
    var j :| 0 <= j < |parts[k]| && parts[k][j] == '|';
    var l, r := parts[k][..j], parts[k][j + 1..];
    assert parts[k] == l + "|" + r;
    if k + 1 < |parts| {
      BarMoves(l, r, parts[k + 1]);
      Resplit(parts, k, l, r + "|" + parts[k + 1]);
    } else {
      BarMoves(parts[k - 1], l, r);
      Resplit(parts, k - 1, parts[k - 1] + "|" + l, r);
    }
  }

  /** The parts of a key can be read in one way only if and only if none of them contains a bar. */
  lemma {:induction false} OnlyReadingExactlyWhen(parts: seq<string>)
    requires |parts| >= 2
    ensures OnlyReading(parts) <==> forall i :: 0 <= i < |parts| ==> BarFree(parts[i])
  {
    if k :| 0 <= k < |parts| && !BarFree(parts[k]) {
      AnotherReading(parts, k);
    } else {
      BarsOfJoin(parts);
      forall other: seq<string> | |other| == |parts| && Join(other, "|") == Join(parts, "|") ensures other == parts {
        BarsOfJoin(other);
        JoinSeparates(parts, other);
      }
    }
  }

  /** Two different objects with one key: kind `a|b` in namespace `c`, and kind `a` in `b|c`. */
  lemma {:induction false} KeysCollide(b: Batch, at: string, item: Item, verb: string, rv: string)
    ensures EventKey(b, at, item.(kind := "a|b", namespace := "c"), verb, rv) == EventKey(b, at, item.(kind := "a", namespace := "b|c"), verb, rv)
  {
    var left := [TrimSpace(b.clusterID), b.agentID, Version(at, item, rv), verb];
    assert "a|b" + "|" + "c" == "a" + "|" + "b|c";
    SameAcross(left, "a|b", "c", "a", "b|c", [item.name]);
    assert left + ["a|b", "c"] + [item.name] == KeyParts(b, at, item.(kind := "a|b", namespace := "c"), verb, rv);
    assert left + ["a", "b|c"] + [item.name] == KeyParts(b, at, item.(kind := "a", namespace := "b|c"), verb, rv);
  }
}
