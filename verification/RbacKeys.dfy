/** The keys the permission diff reports, and how `IsRiskyPermission` reads them back. */
module RbacKeys {
  import opened Text
  import opened Rbac
  import EventKeys

  /** `strings.Split(s, "|")`. */
  function SplitBars(s: string): (parts: seq<string>)
    ensures parts != []
  {
    if EventKeys.BarFree(s) then [s] else
    var k := FirstBar(s, 0);
    [s[..k]] + SplitBars(s[k + 1..])
  }

  function FirstBar(s: string, i: nat): (k: nat)
    requires i <= |s| && exists m :: i <= m < |s| && s[m] == '|'
    ensures i <= k < |s| && s[k] == '|' && forall m :: i <= m < k ==> s[m] != '|'
    decreases |s| - i
  {
    if s[i] == '|' then i else FirstBar(s, i + 1)
  }

  /** What makes a permission dangerous: a wildcard, reading secrets, or raising privileges. */
  predicate Dangerous(group: string, resource: string, verb: string) {
    || group == "*" || resource == "*" || verb == "*"
    || (resource == "secrets" && verb in ["get", "list", "watch"])
    || verb in ["escalate", "bind", "impersonate"]
  }

  predicate IsRiskyPermission(key: string) {
    var parts := SplitBars(key);
    (|parts| == 3 || |parts| == 4) && Dangerous(parts[0], parts[1], parts[2])
  }

  // ---------------------------------------------------------------- reading a key back

  lemma {:induction false} SplitAtFirst(x: string, rest: string)
    requires EventKeys.BarFree(x)
    ensures SplitBars(x + "|" + rest) == [x] + SplitBars(rest)
  {
    var s := x + "|" + rest;
    assert s[|x|] == '|';
    assert forall i :: 0 <= i < |x| ==> s[i] == x[i] && x[i] in x;
    assert FirstBar(s, 0) == |x|;
    assert s[..|x|] == x && s[|x| + 1..] == rest;
  }

  function Parts(g: Grant, name: string): seq<string> {
    [g.group, g.resource, g.verb] + (if name == "" then [] else [name])
  }

  predicate BarFreeGrant(g: Grant) { EventKeys.BarFree(g.group) && EventKeys.BarFree(g.resource) && EventKeys.BarFree(g.verb) }

  lemma {:induction false} Regrouped(a: string, b: string, c: string, tail: string)
    ensures a + "|" + b + "|" + c + tail == a + "|" + (b + "|" + (c + tail))
  {
    ConcatAssociative(a + "|" + b + "|", c, tail);
    ConcatAssociative(a + "|", b + "|", c + tail);
    ConcatAssociative(a + "|", b, "|");
  }

  /** Splitting a key gives group, resource and verb, and then the pieces of the name if there is one. */
  lemma {:induction false} KeySplits(g: Grant, name: string)
    requires BarFreeGrant(g)
    ensures SplitBars(Key(g, name)) == [g.group, g.resource, g.verb] + (if name == "" then [] else SplitBars(name))
  {
    KeySplitsBy(SplitBars, g, name);
  }

  /** `f` is `SplitBars`, kept abstract. */
  lemma {:induction false} KeySplitsBy(f: string -> seq<string>, g: Grant, name: string)
    requires BarFreeGrant(g) && f == SplitBars
    ensures f(Key(g, name)) == [g.group, g.resource, g.verb] + (if name == "" then [] else f(name))
  {
    var tail := if name == "" then "" else "|" + name;
    Regrouped(g.group, g.resource, g.verb, tail);
    var two := g.verb + tail;
    var one := g.resource + "|" + two;
    assert Key(g, name) == g.group + "|" + one;
    SplitAtFirst(g.group, one);
    SplitAtFirst(g.resource, two);
    VerbSplits(g.verb, name);
    Listed(f(Key(g, name)), f(one), f(two), g.group, g.resource, g.verb, if name == "" then [] else f(name));
  }

  lemma {:induction false} Listed(a: seq<string>, b: seq<string>, c: seq<string>, x: string, y: string, z: string, rest: seq<string>)
    requires a == [x] + b && b == [y] + c && c == [z] + rest
    ensures a == [x, y, z] + rest
  {}

  lemma {:induction false} VerbSplits(verb: string, name: string)
    requires EventKeys.BarFree(verb)
    ensures SplitBars(verb + (if name == "" then "" else "|" + name)) == [verb] + (if name == "" then [] else SplitBars(name))
  {
    if name == "" {
      assert verb + "" == verb;
    } else {
      ConcatAssociative(verb, "|", name);
      SplitAtFirst(verb, name);
    }
  }

  /** For parts without bars: a key splits into exactly group, resource, verb and, if any, name. */
  lemma {:induction false} KeyReadsBack(g: Grant, name: string)
    requires BarFreeGrant(g) && EventKeys.BarFree(name)
    ensures SplitBars(Key(g, name)) == Parts(g, name)
  {
    KeySplits(g, name);
  }

  /** So keys of pairs that differ in one of these differ. */
  lemma {:induction false} KeysSeparate(g: Grant, name: string, g': Grant, name': string)
    requires BarFreeGrant(g) && EventKeys.BarFree(name) && BarFreeGrant(g') && EventKeys.BarFree(name')
    requires Key(g, name) == Key(g', name')
    ensures g.group == g'.group && g.resource == g'.resource && g.verb == g'.verb && name == name'
  {
    KeyReadsBack(g, name);
    KeyReadsBack(g', name');
    var p, q := Parts(g, name), Parts(g', name');
    assert p[0] == q[0] && p[1] == q[1] && p[2] == q[2];
    if name != "" { assert p[3] == q[3]; }
  }

  lemma {:induction false} BarsSplit(s: string)
    ensures |SplitBars(s)| == 1 <==> EventKeys.BarFree(s)
  {}

  /** A key is called risky if and only if its grant is dangerous and the name has no bar in it. */
  lemma {:induction false} RiskyExactlyWhen(g: Grant, name: string)
    requires BarFreeGrant(g)
    ensures IsRiskyPermission(Key(g, name)) <==> Dangerous(g.group, g.resource, g.verb) && EventKeys.BarFree(name)
  {
    KeySplits(g, name);
    BarsSplit(name);
    var parts := SplitBars(Key(g, name));
    assert parts[0] == g.group && parts[1] == g.resource && parts[2] == g.verb;
  }

  /** A bar in the object name hides even a full wildcard. */
  lemma {:induction false} BarHidesRisk(names: Names)
    ensures !IsRiskyPermission(Key(Grant("*", "*", "*", false, names), "a|b"))
  {
    assert "a|b"[1] == '|';
    RiskyExactlyWhen(Grant("*", "*", "*", false, names), "a|b");
  }

  /** Every reported key, split, names an uncovered grant of the new rules and its object, and is
      called risky if and only if that grant is dangerous. */
  lemma {:induction false} ReportedKeyReadsBack(from: seq<Grant>, to: seq<Grant>, key: string) returns (want: Grant, name: string)
    requires Reported(from, to, key)
    requires forall g :: g in to ==> BarFreeGrant(g) && forall n :: n in Objects(g) ==> EventKeys.BarFree(n)
    ensures want in to && name in Objects(want) && !Covered(from, want, name)
    ensures SplitBars(key) == Parts(want, name) && (IsRiskyPermission(key) <==> Dangerous(want.group, want.resource, want.verb))
  {
    want, name :| want in to && name in Objects(want) && !Covered(from, want, name) && key == Key(want, name);
    KeyReadsBack(want, name);
    RiskyExactlyWhen(want, name);
  }
}
