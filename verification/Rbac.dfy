/** RBAC permission diff: `rbacGrants`, `rbacCovers` and `RBACDiffExpansions`. */
module Rbac {
  import opened Text
  import opened Sorting

  // ---------------------------------------------------------------- rules and grants

  datatype Rule = Rule(apiGroups: seq<string>, resources: seq<string>, verbs: seq<string>,
                       resourceNames: seq<string>, nonResourceURLs: seq<string>)

  /** Which objects a grant reaches: all of them, or those a rule names. */
  datatype Names = Any | Only(names: set<string>)

  datatype Grant = Grant(group: string, resource: string, verb: string, nonResource: bool, names: Names)

  /** A rule without API groups is read as one on the core group. */
  function Groups(rule: Rule): seq<string> { if rule.apiGroups == [] then [""] else rule.apiGroups }

  function NamesOf(rule: Rule): Names {
    if rule.resourceNames == [] then Any else Only(Elements(rule.resourceNames))
  }

  /** The grants one rule confers. */
  predicate Confers(rule: Rule, g: Grant) {
    if g.nonResource then
      g.group == "" && g.resource in rule.nonResourceURLs && g.verb in rule.verbs && g.names == Any
    else
      g.group in Groups(rule) && g.resource in rule.resources && g.verb in rule.verbs && g.names == NamesOf(rule)
  }

  predicate ConferredBy(rules: seq<Rule>, g: Grant) {
    exists k :: 0 <= k < |rules| && Confers(rules[k], g)
  }

  /** All grants with one group and resource, one per verb. */
  method GrantsOfVerbs(proto: Grant, verbs: seq<string>) returns (out: seq<Grant>)
    ensures forall g :: g in out <==> g.verb in verbs && g == proto.(verb := g.verb)
  {
    out := [];
    for i := 0 to |verbs|
      invariant forall g :: g in out <==> g.verb in verbs[..i] && g == proto.(verb := g.verb)
    {
      assert verbs[..i + 1] == verbs[..i] + [verbs[i]];
      out := out + [proto.(verb := verbs[i])];
    }
    assert verbs[..|verbs|] == verbs;
  }

  method GrantsOfResources(proto: Grant, resources: seq<string>, verbs: seq<string>) returns (out: seq<Grant>)
    ensures forall g :: g in out <==> g.resource in resources && g.verb in verbs && g == proto.(resource := g.resource, verb := g.verb)
  {
    out := [];
    for i := 0 to |resources|
      invariant forall g :: g in out <==>
        g.resource in resources[..i] && g.verb in verbs && g == proto.(resource := g.resource, verb := g.verb)
    {
      assert resources[..i + 1] == resources[..i] + [resources[i]];
      var more := GrantsOfVerbs(proto.(resource := resources[i]), verbs);
      out := out + more;
    }
    assert resources[..|resources|] == resources;
  }

  method GrantsOfRule(rule: Rule) returns (out: seq<Grant>)
    ensures forall g :: g in out <==> Confers(rule, g)
  {
    var names := NamesOf(rule);
    var groups := Groups(rule);
    out := [];
    for i := 0 to |groups|
      invariant forall g :: g in out <==>
        !g.nonResource && g.group in groups[..i] && g.resource in rule.resources && g.verb in rule.verbs && g.names == names
    {
      assert groups[..i + 1] == groups[..i] + [groups[i]];
      var more := GrantsOfResources(Grant(groups[i], "", "", false, names), rule.resources, rule.verbs);
      out := out + more;
    }
    assert groups[..|groups|] == groups;
    var urls := GrantsOfResources(Grant("", "", "", true, Any), rule.nonResourceURLs, rule.verbs);
    out := out + urls;
  }

  /** `rbacGrants`. */
  method RbacGrants(rules: seq<Rule>) returns (out: seq<Grant>)
    ensures forall g :: g in out <==> ConferredBy(rules, g)
  {
    out := [];
    for k := 0 to |rules|
      invariant forall g :: g in out <==> exists j :: 0 <= j < k && Confers(rules[j], g)
    {
      var more := GrantsOfRule(rules[k]);
      out := out + more;
    }
  }

  // ---------------------------------------------------------------- coverage

  /** `rbacCovers`: whether `have` already confers what `want` asks for on the object `name`,
      where the empty name stands for every object. */
  predicate Covers(have: Grant, want: Grant, name: string) {
    && have.nonResource == want.nonResource
    && (have.verb == "*" || have.verb == want.verb)
    && if have.nonResource then CoversUrl(have.resource, want.resource) else
         && (have.group == "*" || have.group == want.group)
         && (have.names == Any || (name != "" && name in have.names.names))
         && CoversResource(have.resource, want.resource)
  }

  predicate CoversUrl(have: string, want: string) {
    have == "*" || have == want || (HasSuffix(have, "*") && HasPrefix(want, have[..|have| - 1]))
  }

  predicate CoversResource(have: string, want: string) {
    have == "*" || have == want || (HasPrefix(have, "*/") && HasSuffix(want, have[1..]))
  }

  predicate Covered(from: seq<Grant>, want: Grant, name: string) {
    exists i :: 0 <= i < |from| && Covers(from[i], want, name)
  }

  /** The objects the diff asks about, for one grant. */
  function Objects(want: Grant): set<string> { if want.names.Any? then {""} else want.names.names }

  function Key(g: Grant, name: string): string {
    g.group + "|" + g.resource + "|" + g.verb + (if name == "" then "" else "|" + name)
  }

  /** A key the diff reports: some grant of `to`, on some object, that `from` does not cover. */
  ghost predicate Reported(from: seq<Grant>, to: seq<Grant>, key: string) {
    exists want, name :: want in to && name in Objects(want) && !Covered(from, want, name) && key == Key(want, name)
  }

  // ---------------------------------------------------------------- the diff

  /** What has been added so far: distinct keys, and the set that guards them. */
  ghost predicate Collected(added: seq<string>, seen: set<string>) {
    Distinct(added) && seen == Elements(added)
  }

  method AddKey(added: seq<string>, seen: set<string>, key: string) returns (added': seq<string>, seen': set<string>)
    requires Collected(added, seen)
    ensures Collected(added', seen') && seen' == seen + {key}
  {
    added', seen' := added, seen;
    if key !in seen {
      added', seen' := added + [key], seen + {key};
    }
  }

  /** The inner loop over a grant's object names, which Go runs in any order. */
  method AddObjects(from: seq<Grant>, want: Grant, added: seq<string>, seen: set<string>)
    returns (added': seq<string>, seen': set<string>)
    requires Collected(added, seen)
    ensures Collected(added', seen')
    ensures forall k :: k in seen' <==> k in seen || exists n :: n in Objects(want) && !Covered(from, want, n) && k == Key(want, n)
  {
    added', seen' := added, seen;
    var todo := Objects(want);
    while todo != {}
      invariant todo <= Objects(want) && Collected(added', seen')
      invariant forall k :: k in seen' <==> k in seen || exists n :: n in Objects(want) - todo && !Covered(from, want, n) && k == Key(want, n)
      decreases todo
    {
      var name :| name in todo;
      if !Covered(from, want, name) {
        added', seen' := AddKey(added', seen', Key(want, name));
      }
      todo := todo - {name};
    }
  }

  /** `RBACDiffExpansions`: the reported keys, sorted and without repeats, whatever the order in
      which names are visited. */
  method RBACDiffExpansions(from: seq<Rule>, to: seq<Rule>) returns (keys: seq<string>, ghost fromGrants: seq<Grant>, ghost toGrants: seq<Grant>)
    ensures forall g :: (g in fromGrants <==> ConferredBy(from, g)) && (g in toGrants <==> ConferredBy(to, g))
    ensures StrictlySorted(keys)
    ensures forall k :: k in keys <==> Reported(fromGrants, toGrants, k)
  {
    var have := RbacGrants(from);
    var wanted := RbacGrants(to);
    fromGrants, toGrants := have, wanted;
    var added: seq<string>, seen: set<string> := [], {};
    for i := 0 to |wanted|
      invariant Collected(added, seen)
      invariant forall k :: k in seen <==> Reported(have, wanted[..i], k)
    {
      assert wanted[..i + 1] == wanted[..i] + [wanted[i]];
      added, seen := AddObjects(have, wanted[i], added, seen);
      assert forall k :: k in seen <==> Reported(have, wanted[..i + 1], k);
    }
    assert wanted[..|wanted|] == wanted;
    var list := new string[|added|](i requires 0 <= i < |added| => added[i]);
    assert list[..] == added;
    SortStrings(list);
    keys := list[..];
    SortedDistinctIsStrict(keys, added);
    forall k ensures k in keys <==> k in seen { assert k in keys <==> k in Elements(keys); }
  }
}
