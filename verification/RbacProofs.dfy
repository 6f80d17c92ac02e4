/** The permission diff against what the API server allows. */
module RbacProofs {
  import opened Text
  import opened Rbac

  // ---------------------------------------------------------------- requests

  /** A concrete request, as the API server authorizes it. An empty subresource or name means
      that the request has none. */
  datatype Request =
    | ResourceRequest(group: string, resource: string, subresource: string, verb: string, name: string)
    | UrlRequest(path: string, verb: string)

  predicate ValidRequest(q: Request) {
    q.ResourceRequest? ==> '/' !in q.resource && '/' !in q.subresource
  }

  function Combined(resource: string, subresource: string): string {
    if subresource == "" then resource else resource + "/" + subresource
  }

  function WithoutStars(u: string): string {
    if u != [] && u[|u| - 1] == '*' then WithoutStars(u[..|u| - 1]) else u
  }

  predicate ResourceMatches(pattern: string, q: Request)
    requires q.ResourceRequest?
  {
    || pattern == "*"
    || pattern == Combined(q.resource, q.subresource)
    || (q.subresource != "" && pattern == "*/" + q.subresource)
  }

  predicate UrlMatches(pattern: string, path: string) {
    pattern == "*" || pattern == path || (HasSuffix(pattern, "*") && HasPrefix(path, WithoutStars(pattern)))
  }

  predicate SomeMatches(patterns: seq<string>, wanted: string) { "*" in patterns || wanted in patterns }

  /** The API server's reading of one rule. */
  predicate RuleAllows(rule: Rule, q: Request) {
    && SomeMatches(rule.verbs, q.verb)
    && match q
       case UrlRequest(path, _) => exists i :: 0 <= i < |rule.nonResourceURLs| && UrlMatches(rule.nonResourceURLs[i], path)
       case ResourceRequest(group, _, _, _, name) =>
         && SomeMatches(Groups(rule), group)
         && (rule.resourceNames == [] || name in rule.resourceNames)
         && exists i :: 0 <= i < |rule.resources| && ResourceMatches(rule.resources[i], q)
  }

  predicate Allows(rules: seq<Rule>, q: Request) {
    exists k :: 0 <= k < |rules| && RuleAllows(rules[k], q)
  }

  /** The same reading, of a single flattened grant. */
  predicate GrantAllows(g: Grant, q: Request) {
    && (g.verb == "*" || g.verb == q.verb)
    && if q.UrlRequest? then g.nonResource && UrlMatches(g.resource, q.path) else
         && !g.nonResource
         && (g.group == "*" || g.group == q.group)
         && (g.names == Any || q.name in g.names.names)
         && ResourceMatches(g.resource, q)
  }

  /** Flattening loses nothing: a rule allows a request exactly when one of its grants does. */
  lemma {:induction false} RuleAllowsThroughGrants(rule: Rule, q: Request)
    ensures RuleAllows(rule, q) <==> exists g :: Confers(rule, g) && GrantAllows(g, q)
  {
    if RuleAllows(rule, q) {
      var verb := if "*" in rule.verbs then "*" else q.verb;
      if q.UrlRequest? {
        var i :| 0 <= i < |rule.nonResourceURLs| && UrlMatches(rule.nonResourceURLs[i], q.path);
        var g := Grant("", rule.nonResourceURLs[i], verb, true, Any);
        assert Confers(rule, g) && GrantAllows(g, q);
      } else {
        var group := if "*" in Groups(rule) then "*" else q.group;
        var i :| 0 <= i < |rule.resources| && ResourceMatches(rule.resources[i], q);
        var g := Grant(group, rule.resources[i], verb, false, NamesOf(rule));
        assert Confers(rule, g) && GrantAllows(g, q);
      }
    }
    forall g | Confers(rule, g) && GrantAllows(g, q) ensures RuleAllows(rule, q) {
      if q.UrlRequest? {
        var i :| 0 <= i < |rule.nonResourceURLs| && rule.nonResourceURLs[i] == g.resource;
        assert UrlMatches(rule.nonResourceURLs[i], q.path);
      } else {
        var i :| 0 <= i < |rule.resources| && rule.resources[i] == g.resource;
        assert ResourceMatches(rule.resources[i], q);
      }
    }
  }

  /** The grants of a rule list. */
  ghost predicate GrantsOf(rules: seq<Rule>, gs: seq<Grant>) {
    forall g :: g in gs <==> ConferredBy(rules, g)
  }

  lemma {:induction false} AllowsThroughGrants(rules: seq<Rule>, gs: seq<Grant>, q: Request)
    requires GrantsOf(rules, gs)
    ensures Allows(rules, q) <==> exists i :: 0 <= i < |gs| && GrantAllows(gs[i], q)
  {
    if Allows(rules, q) {
      var k :| 0 <= k < |rules| && RuleAllows(rules[k], q);
      RuleAllowsThroughGrants(rules[k], q);
      var g :| Confers(rules[k], g) && GrantAllows(g, q);
      assert ConferredBy(rules, g) && g in gs;
      var i :| 0 <= i < |gs| && gs[i] == g;
    }
    forall i | 0 <= i < |gs| && GrantAllows(gs[i], q) ensures Allows(rules, q) {
      assert gs[i] in gs && ConferredBy(rules, gs[i]);
      var k :| 0 <= k < |rules| && Confers(rules[k], gs[i]);
      RuleAllowsThroughGrants(rules[k], q);
    }
  }

  // ---------------------------------------------------------------- well-formed rules

  /** At most one slash, and something after it. */
  predicate ValidResource(r: string) {
    forall i :: 0 <= i < |r| && r[i] == '/' ==> i < |r| - 1 && '/' !in r[..i] && '/' !in r[i + 1..]
  }

  /** A star only at the end. */
  predicate ValidUrl(u: string) { forall i :: 0 <= i < |u| - 1 ==> u[i] != '*' }

  predicate ValidGrant(g: Grant) {
    && (if g.nonResource then ValidUrl(g.resource) else ValidResource(g.resource))
    && (g.names.Only? ==> "" !in g.names.names)
  }

  predicate ValidRule(rule: Rule) {
    && (forall i :: 0 <= i < |rule.resources| ==> ValidResource(rule.resources[i]))
    && (forall i :: 0 <= i < |rule.nonResourceURLs| ==> ValidUrl(rule.nonResourceURLs[i]))
    && "" !in rule.resourceNames
  }

  predicate ValidRules(rules: seq<Rule>) { forall k :: 0 <= k < |rules| ==> ValidRule(rules[k]) }

  lemma {:induction false} GrantsAreValid(rules: seq<Rule>, gs: seq<Grant>)
    requires ValidRules(rules) && GrantsOf(rules, gs)
    ensures forall g :: g in gs ==> ValidGrant(g)
  {
    forall g | g in gs ensures ValidGrant(g) {
      var k :| 0 <= k < |rules| && Confers(rules[k], g);
      assert ValidRule(rules[k]);
    }
  }

  // ---------------------------------------------------------------- soundness of coverage

  lemma {:induction false} ResourceCoverageSound(have: string, want: string, q: Request)
    requires q.ResourceRequest? && ValidRequest(q) && ValidResource(have) && ValidResource(want)
    requires CoversResource(have, want) && ResourceMatches(want, q)
    ensures ResourceMatches(have, q)
  {
    if have != "*" && have != want {
      var sub := have[2..];
      assert have == "*/" + sub;
      assert have[1..] == "/" + sub;
      var k := |want| - |sub| - 1;
      assert want[k..] == "/" + sub && want[k] == want[k..][0] == '/';
      assert want[k + 1..] == sub;
    }
  }

  lemma {:induction false} WithoutStarsOfValid(u: string)
    requires ValidUrl(u) && HasSuffix(u, "*")
    ensures WithoutStars(u) == u[..|u| - 1]
  {
    var t := u[..|u| - 1];
    assert u[|u| - 1..] == "*";
    assert u[|u| - 1] == u[|u| - 1..][0];
    if t != [] { assert t[|t| - 1] == u[|u| - 2]; }
  }

  lemma {:induction false} UrlCoverageSound(have: string, want: string, path: string)
    requires ValidUrl(have) && ValidUrl(want) && CoversUrl(have, want) && UrlMatches(want, path)
    ensures UrlMatches(have, path)
  {
    if have != "*" && have != want {
      WithoutStarsOfValid(have);
      var p := have[..|have| - 1];
      assert forall i :: 0 <= i < |p| ==> have[i] == p[i] == want[..|p|][i] == want[i];
      if want != "*" && want != path {
        WithoutStarsOfValid(want);
        var w := want[..|want| - 1];
        assert want[|w|] == want[|w|..][0] == '*';
        assert path[..|w|] == w;
        assert path[..|p|] == path[..|w|][..|p|];
        assert path[..|p|] == want[..|p|];
      }
    }
  }

  /** Whatever a covered grant allows on the object asked about, the covering grant allows too. */
  lemma {:induction false} CoverageIsSound(have: Grant, want: Grant, name: string, q: Request)
    requires ValidGrant(have) && ValidGrant(want) && ValidRequest(q)
    requires Covers(have, want, name) && GrantAllows(want, q)
    requires q.ResourceRequest? && name != "" ==> q.name == name
    ensures GrantAllows(have, q)
  {
    if q.UrlRequest? {
      UrlCoverageSound(have.resource, want.resource, q.path);
    } else {
      ResourceCoverageSound(have.resource, want.resource, q);
    }
  }

  // ---------------------------------------------------------------- a request that shows the difference

  /** A string longer than all the given ones, without slashes or stars. */
  function Fresh(ss: seq<string>): (f: string)
    ensures forall s :: s in ss ==> |s| < |f|
    ensures f != "" && '/' !in f && '*' !in f
  {
    if ss == [] then "x" else
    var f := Fresh(ss[1..]);
    var longer := seq(|ss[0]|, i => 'x') + f;
    assert forall s :: s in ss ==> s == ss[0] || s in ss[1..];
    longer
  }

  function Spellings(gs: seq<Grant>): seq<string> {
    if gs == [] then [] else [gs[0].group, gs[0].verb, gs[0].resource] + Spellings(gs[1..])
  }

  lemma {:induction false} SpellingsCover(gs: seq<Grant>, i: nat)
    requires i < |gs|
    ensures gs[i].group in Spellings(gs) && gs[i].verb in Spellings(gs) && gs[i].resource in Spellings(gs)
  {
    var own := [gs[0].group, gs[0].verb, gs[0].resource];
    assert own[0] in Spellings(gs) && own[1] in Spellings(gs) && own[2] in Spellings(gs);
    if i > 0 { SpellingsCover(gs[1..], i - 1); }
  }

  /** The position of the slash, or the length. */
  function SlashIndex(r: string): (k: nat)
    ensures k <= |r| && '/' !in r[..k] && (k < |r| ==> r[k] == '/')
  {
    if r == [] then 0 else if r[0] == '/' then 0 else
    var k := 1 + SlashIndex(r[1..]);
    assert r[..k] == [r[0]] + r[1..][..k - 1];
    k
  }

  /** A request that only the wanted grant's own spelling could reach. */
  function Witness(from: seq<Grant>, want: Grant, name: string): Request {
    var f := Fresh(Spellings(from));
    var k := SlashIndex(want.resource);
    var head := want.resource[..k];
    var sub := if k < |want.resource| then want.resource[k + 1..] else "";
    ResourceRequest(if want.group == "*" then f else want.group,
                    if head == "*" then f else head, sub,
                    if want.verb == "*" then f else want.verb, name)
  }

  /** The parts of a resource pattern around its slash. */
  lemma {:induction false} SplitAtSlash(r: string)
    requires ValidResource(r)
    ensures var k := SlashIndex(r);
            && '/' !in r[..k]
            && (k < |r| ==> r == r[..k] + "/" + r[k + 1..] && '/' !in r[k + 1..] && r[k + 1..] != "")
            && (k == |r| ==> r[..k] == r)
            && (HasPrefix(r, "*/") <==> k < |r| && r[..k] == "*")
  {
    var k := SlashIndex(r);
    assert forall i :: 0 <= i < k ==> r[i] == r[..k][i] && r[..k][i] in r[..k];
    assert |r| >= 2 ==> r[..2] == [r[0], r[1]];
    if k < |r| { assert r[k] == '/'; }
  }

  /** How the witness for a pattern is spelled. */
  predicate Spells(q: Request, want: string, f: string)
    requires q.ResourceRequest?
  {
    if want == "*" then q.resource == f && q.subresource == ""
    else if HasPrefix(want, "*/") then q.resource == f && q.subresource != "" && want == "*/" + q.subresource
    else want == Combined(q.resource, q.subresource)
  }

  lemma {:induction false} WitnessSpelling(from: seq<Grant>, want: Grant, name: string)
    requires ValidResource(want.resource)
    ensures ValidRequest(Witness(from, want, name))
    ensures Spells(Witness(from, want, name), want.resource, Fresh(Spellings(from)))
  {
    SplitAtSlash(want.resource);
  }

  lemma {:induction false} WitnessIsRefused(from: seq<Grant>, want: Grant, name: string, i: nat)
    requires i < |from| && ValidGrant(from[i]) && ValidGrant(want) && !want.nonResource && name in Objects(want)
    requires !Covers(from[i], want, name)
    ensures !GrantAllows(from[i], Witness(from, want, name))
  {
    var have, q := from[i], Witness(from, want, name);
    var f := Fresh(Spellings(from));
    SpellingsCover(from, i);
    WitnessSpelling(from, want, name);
    if GrantAllows(have, q) {
      MatchImpliesCoverage(have.resource, want.resource, q, f);
    }
  }

  /** Matching a fresh request for what `want` asks takes a pattern that covers `want`. */
  lemma {:induction false} MatchImpliesCoverage(have: string, want: string, q: Request, f: string)
    requires q.ResourceRequest? && |have| < |f|
    requires Spells(q, want, f) && ResourceMatches(have, q)
    ensures CoversResource(have, want)
  {
    if have != "*" && have != want && have != Combined(q.resource, q.subresource) {
      assert have[..2] == "*/" && have[1..] == "/" + q.subresource;
      assert want[|q.resource|..] == "/" + q.subresource;
    }
  }

  // ---------------------------------------------------------------- URL grants

  /** A character that appears in no URL pattern of `from`. */
  predicate Unused(c: char, from: seq<Grant>) {
    c != '*' && forall i :: 0 <= i < |from| ==> c !in from[i].resource
  }

  function UrlWitness(from: seq<Grant>, want: Grant, c: char): Request {
    var path := if HasSuffix(want.resource, "*") then want.resource[..|want.resource| - 1] + [c] else want.resource;
    UrlRequest(path, if want.verb == "*" then Fresh(Spellings(from)) else want.verb)
  }

  lemma {:induction false} UrlWitnessIsRefused(from: seq<Grant>, want: Grant, c: char, i: nat)
    requires i < |from| && ValidGrant(from[i]) && ValidGrant(want) && want.nonResource && Unused(c, from)
    requires !Covers(from[i], want, "")
    ensures !GrantAllows(from[i], UrlWitness(from, want, c))
  {
    var have, q := from[i], UrlWitness(from, want, c);
    SpellingsCover(from, i);
    if GrantAllows(have, q) {
      UrlMatchImpliesCoverage(have.resource, want.resource, q.path, c);
    }
  }

  lemma {:induction false} UrlMatchImpliesCoverage(have: string, want: string, path: string, c: char)
    requires ValidUrl(have) && c !in have && UrlMatches(have, path)
    requires path == if HasSuffix(want, "*") then want[..|want| - 1] + [c] else want
    ensures CoversUrl(have, want)
  {
    if HasSuffix(have, "*") { WithoutStarsOfValid(have); }
    if HasSuffix(want, "*") {
      var q := want[..|want| - 1];
      assert path[|q|] == c && c in path;
      if have != "*" && have != want {
        var p := have[..|have| - 1];
        assert path[..|p|] == p;
        assert forall j :: 0 <= j < |p| ==> path[j] == p[j] == have[j] && have[j] in have;
        assert path[..|p|] == want[..|p|];
      }
    }
  }

  // ---------------------------------------------------------------- the diff is exact

  /** An empty diff means that every request the new rules allow was allowed before. */
  lemma {:induction false} EmptyDiffIsSound(from: seq<Rule>, to: seq<Rule>, fg: seq<Grant>, tg: seq<Grant>, q: Request)
    requires ValidRules(from) && ValidRules(to) && GrantsOf(from, fg) && GrantsOf(to, tg)
    requires forall k :: !Reported(fg, tg, k)
    requires ValidRequest(q) && Allows(to, q)
    ensures Allows(from, q)
  {
    AllowsThroughGrants(to, tg, q);
    AllowsThroughGrants(from, fg, q);
    GrantsAreValid(from, fg);
    GrantsAreValid(to, tg);
    var i :| 0 <= i < |tg| && GrantAllows(tg[i], q);
    var want := tg[i];
    UrlGrantsAreUnnamed(to, tg, i);
    var name := if want.names.Any? then "" else q.name;
    assert want in tg && name in Objects(want);
    assert !Reported(fg, tg, Key(want, name));
    var j :| 0 <= j < |fg| && Covers(fg[j], want, name);
    CoverageIsSound(fg[j], want, name, q);
  }

  lemma {:induction false} UrlGrantsAreUnnamed(rules: seq<Rule>, gs: seq<Grant>, i: nat)
    requires GrantsOf(rules, gs) && i < |gs|
    ensures gs[i].nonResource ==> gs[i].names == Any
  {
    assert gs[i] in gs && ConferredBy(rules, gs[i]);
  }

  /** Every reported resource permission is new: some request is allowed now and was not before,
      and it is a request the reported grant allows on the reported object. */
  lemma {:induction false} ReportIsComplete(from: seq<Rule>, to: seq<Rule>, fg: seq<Grant>, tg: seq<Grant>, want: Grant, name: string)
    returns (q: Request)
    requires ValidRules(from) && ValidRules(to) && GrantsOf(from, fg) && GrantsOf(to, tg)
    requires want in tg && name in Objects(want) && !Covered(fg, want, name) && !want.nonResource
    ensures ValidRequest(q) && Allows(to, q) && !Allows(from, q)
    ensures q.ResourceRequest? && q.name == name && GrantAllows(want, q)
  {
    GrantsAreValid(from, fg);
    GrantsAreValid(to, tg);
    q := Witness(fg, want, name);
    WitnessSpelling(fg, want, name);
    forall i | 0 <= i < |fg| ensures !GrantAllows(fg[i], q) {
      assert fg[i] in fg;
      WitnessIsRefused(fg, want, name, i);
    }
    AllowsThroughGrants(from, fg, q);
    AllowsThroughGrants(to, tg, q);
    var j :| 0 <= j < |tg| && tg[j] == want;
  }

  /** The same for URL permissions, given a character that the old URL patterns do not use. */
  lemma {:induction false} UrlReportIsComplete(from: seq<Rule>, to: seq<Rule>, fg: seq<Grant>, tg: seq<Grant>, want: Grant, c: char)
    returns (q: Request)
    requires ValidRules(from) && ValidRules(to) && GrantsOf(from, fg) && GrantsOf(to, tg) && Unused(c, fg)
    requires want in tg && !Covered(fg, want, "") && want.nonResource
    ensures ValidRequest(q) && Allows(to, q) && !Allows(from, q) && GrantAllows(want, q)
  {
    GrantsAreValid(from, fg);
    GrantsAreValid(to, tg);
    q := UrlWitness(fg, want, c);
    forall i | 0 <= i < |fg| ensures !GrantAllows(fg[i], q) {
      assert fg[i] in fg;
      UrlWitnessIsRefused(fg, want, c, i);
    }
    if HasSuffix(want.resource, "*") { WithoutStarsOfValid(want.resource); }
    assert GrantAllows(want, q);
    AllowsThroughGrants(from, fg, q);
    AllowsThroughGrants(to, tg, q);
    var j :| 0 <= j < |tg| && tg[j] == want;
  }

  /** The new rules allow nothing that the old ones did not. */
  ghost predicate NothingNew(from: seq<Rule>, to: seq<Rule>) {
    forall q :: ValidRequest(q) && Allows(to, q) ==> Allows(from, q)
  }

  /** The diff is empty exactly when the change adds no permission. */
  lemma {:induction false} DiffIsExact(from: seq<Rule>, to: seq<Rule>, fg: seq<Grant>, tg: seq<Grant>, c: char)
    requires ValidRules(from) && ValidRules(to) && GrantsOf(from, fg) && GrantsOf(to, tg)
    requires Unused(c, fg) || forall g :: g in tg ==> !g.nonResource
    ensures (forall k :: !Reported(fg, tg, k)) <==> NothingNew(from, to)
  {
    if forall k :: !Reported(fg, tg, k) {
      forall q | ValidRequest(q) && Allows(to, q) ensures Allows(from, q) {
        EmptyDiffIsSound(from, to, fg, tg, q);
      }
    } else {
      var k :| Reported(fg, tg, k);
      var want, name :| want in tg && name in Objects(want) && !Covered(fg, want, name) && k == Key(want, name);
      if want.nonResource {
        var i :| 0 <= i < |tg| && tg[i] == want;
        UrlGrantsAreUnnamed(to, tg, i);
        var q := UrlReportIsComplete(from, to, fg, tg, want, c);
      } else {
        var q := ReportIsComplete(from, to, fg, tg, want, name);
      }
    }
  }

  predicate ResourceRulesOnly(rules: seq<Rule>) {
    forall k :: 0 <= k < |rules| ==> rules[k].nonResourceURLs == []
  }

  /** The shipped screen, end to end: for resource rules an empty list means nothing new and a
      non-empty one means something new. */
  method PermissionDiff(from: seq<Rule>, to: seq<Rule>) returns (keys: seq<string>)
    requires ValidRules(from) && ValidRules(to)
    ensures StrictlySorted(keys)
    ensures keys == [] ==> NothingNew(from, to)
    ensures ResourceRulesOnly(to) && NothingNew(from, to) ==> keys == []
  {
    ghost var fg, tg;
    keys, fg, tg := RBACDiffExpansions(from, to);
    assert keys == [] <==> forall k :: !Reported(fg, tg, k) by {
      if keys != [] { assert keys[0] in keys; }
      if k :| Reported(fg, tg, k) { assert k in keys; }
    }
    if keys == [] {
      forall q | ValidRequest(q) && Allows(to, q) ensures Allows(from, q) {
        EmptyDiffIsSound(from, to, fg, tg, q);
      }
    }
    if ResourceRulesOnly(to) {
      forall g | g in tg ensures !g.nonResource {
        assert ConferredBy(to, g);
      }
      DiffIsExact(from, to, fg, tg, ' ');
    }
  }
}
