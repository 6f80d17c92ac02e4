/** Which findings a command gets, said by positions in its token list, and what they make of a
    recursive delete of the root. */
module FindingProofs {
  import opened Text
  import opened CommandRisk
  import opened InvocationProofs
  import OperatorProofs

  // ---------------------------------------------------------------- programs by position

  /** Some program, by its position, has a name with property `ok`. */
  ghost predicate Runs(ts: seq<string>, ok: string -> bool) {
    exists p: nat :: p < |ts| && IsProgram(Skipped, ts, p) && ok(ProgramName(ts[p]))
  }

  /** The same for a program that reads from a pipe. */
  ghost predicate PipedRuns(ts: seq<string>, ok: string -> bool) {
    exists p: nat :: p < |ts| && IsProgram(Skipped, ts, p) && AfterPipe(Skipped, ts, p) && ok(ProgramName(ts[p]))
  }

  predicate IsFetcher(name: string) { name in ["curl", "wget", "fetch"] }

  predicate IsShell(name: string) { name in ["sh", "bash", "zsh", "ash", "dash", "ksh", "fish", "csh", "tcsh"] }

  /** A rule for `mkfs` also matches `mkfs.ext4`. */
  predicate Matches(pattern: string, name: string) { name == pattern || HasPrefix(name, pattern + ".") }

  lemma {:induction false} ProgramOf(ts: seq<string>, k: nat) returns (p: nat)
    requires k < |Invocations(ts)|
    ensures InvokedAt(Skipped, ProgramName, ts, p, Invocations(ts)[k])
  {
    InvocationsByPosition(ts);
    p := Programs(Skipped, ts, 0)[k];
  }

  lemma {:induction false} InvocationOf(ts: seq<string>, p: nat) returns (k: nat)
    requires p < |ts| && IsProgram(Skipped, ts, p)
    ensures k < |Invocations(ts)| && InvokedAt(Skipped, ProgramName, ts, p, Invocations(ts)[k])
  {
    InvocationsByPosition(ts);
    var ps := Programs(Skipped, ts, 0);
    assert p in ps;
    k :| 0 <= k < |ps| && ps[k] == p;
  }

  lemma {:induction false} RunsByInvocation(ts: seq<string>, ok: string -> bool)
    ensures Runs(ts, ok) <==> exists k :: 0 <= k < |Invocations(ts)| && ok(Invocations(ts)[k].program)
    ensures PipedRuns(ts, ok) <==> exists k :: 0 <= k < |Invocations(ts)| && Invocations(ts)[k].pipedInto && ok(Invocations(ts)[k].program)
  {
    var invs := Invocations(ts);
    forall k | 0 <= k < |invs| && ok(invs[k].program) ensures Runs(ts, ok) && (invs[k].pipedInto ==> PipedRuns(ts, ok)) {
      var p := ProgramOf(ts, k);
    }
    forall p: nat | p < |ts| && IsProgram(Skipped, ts, p) && ok(ProgramName(ts[p]))
      ensures exists k :: 0 <= k < |invs| && ok(invs[k].program) && (AfterPipe(Skipped, ts, p) ==> invs[k].pipedInto)
    {
      var k := InvocationOf(ts, p);
    }
  }

  // ---------------------------------------------------------------- destructive programs

  lemma {:induction false} DestructiveExactly(invs: seq<Invocation>, f: Finding)
    ensures f in Destructive(invs) <==> exists k :: 0 <= k < |invs| && Warrants(invs[k], f)
  {
    if invs != [] {
      DestructiveExactly(invs[1..], f);
      WarrantedExactly(invs[0]);
      assert forall k :: 1 <= k < |invs| ==> invs[k] == invs[1..][k - 1];
      assert forall k :: 0 <= k < |invs[1..]| ==> invs[1..][k] == invs[k + 1];
    }
  }

  ghost predicate WarrantedAt(ts: seq<string>, f: Finding, p: nat, inv: Invocation) {
    InvokedAt(Skipped, ProgramName, ts, p, inv) && Warrants(inv, f)
  }

  lemma {:induction false} DestructiveByPosition(ts: seq<string>, f: Finding)
    ensures f in Destructive(Invocations(ts)) <==> exists p, inv :: WarrantedAt(ts, f, p, inv)
  {
    var invs := Invocations(ts);
    DestructiveExactly(invs, f);
    if k :| 0 <= k < |invs| && Warrants(invs[k], f) {
      var p := ProgramOf(ts, k);
      assert WarrantedAt(ts, f, p, invs[k]);
    }
    if p, inv :| WarrantedAt(ts, f, p, inv) {
      var k := InvocationOf(ts, p);
      SameInvocation(ts, p, inv, invs[k]);
    }
  }

  lemma {:induction false} SameInvocation(ts: seq<string>, p: nat, a: Invocation, b: Invocation)
    requires InvokedAt(Skipped, ProgramName, ts, p, a) && InvokedAt(Skipped, ProgramName, ts, p, b)
    ensures a == b
  {
    SameLength(ts[p + 1..], |a.args|, |b.args|);
  }

  // ---------------------------------------------------------------- recursive delete of the root

  predicate RecursiveFlag(arg: string) {
    arg == "--recursive" || (HasPrefix(arg, "-") && !HasPrefix(arg, "--") && 'r' in arg[1..])
  }

  /** `rm` in command position, with a recursive flag and the root among the tokens up to the next
      operator, `-c` or `-lc`. */
  ghost predicate WipesRoot(ts: seq<string>, p: nat, n: nat) {
    && p < |ts| && IsProgram(Skipped, ts, p) && ProgramName(ts[p]) == "rm" && FirstEnd(ts[p + 1..], n)
    && (exists a :: a in ts[p + 1..][..n] && RecursiveFlag(a))
    && (exists a :: a in ts[p + 1..][..n] && IsRootTarget(a))
  }

  const WIPE := Finding("rm -rf /", Critical)

  lemma {:induction false} WipeArguments(args: seq<string>)
    ensures Recursive(args) <==> exists a :: a in args && RecursiveFlag(a)
    ensures NamesRoot(args) <==> exists a :: a in args && IsRootTarget(a)
  {
    if Recursive(args) {
      var i :| 0 <= i < |args| && (args[i] == "--recursive" || (HasPrefix(args[i], "-") && !HasPrefix(args[i], "--") && 'r' in args[i][1..]));
      assert args[i] in args && RecursiveFlag(args[i]);
    }
  }

  lemma {:induction false} WipeWarranted(inv: Invocation)
    ensures Warrants(inv, WIPE) <==> inv.program == "rm" && Recursive(inv.args) && NamesRoot(inv.args)
  {}

  lemma {:induction false} WipeAt(ts: seq<string>, p: nat, inv: Invocation)
    requires InvokedAt(Skipped, ProgramName, ts, p, inv)
    ensures Warrants(inv, WIPE) <==> WipesRoot(ts, p, |inv.args|)
  {
    WipeWarranted(inv);
    WipeArguments(inv.args);
  }

  /** The root wipe is found if and only if some `rm` wipes the root. */
  lemma {:induction false} WipeIsFoundExactlyWhen(ts: seq<string>)
    ensures WIPE in Destructive(Invocations(ts)) <==> exists p, n :: WipesRoot(ts, p, n)
  {
    DestructiveByPosition(ts, WIPE);
    if p, inv :| WarrantedAt(ts, WIPE, p, inv) { WipeAt(ts, p, inv); }
    if p, n :| WipesRoot(ts, p, n) {
      var k := InvocationOf(ts, p);
      var inv := Invocations(ts)[k];
      assert InvokedAt(Skipped, ProgramName, ts, p, inv);
      SameLength(ts[p + 1..], n, |inv.args|);
      WipeAt(ts, p, inv);
      assert WarrantedAt(ts, WIPE, p, inv);
    }
  }

  lemma {:induction false} SameLength(rest: seq<string>, n: nat, m: nat)
    requires FirstEnd(rest, n) && FirstEnd(rest, m)
    ensures n == m
  {
    assert n < |rest| ==> Ends(rest[n]);
    assert m < |rest| ==> Ends(rest[m]);
  }

  lemma {:induction false} MemberRank(fs: seq<Finding>, f: Finding)
    requires f in fs
    ensures MaxRank(fs) >= Rank(f.severity)
  {
    if fs[0] != f {
      assert f in fs[1..];
      MemberRank(fs[1..], f);
    }
  }

  lemma {:induction false} CriticalInside(a: seq<Finding>, d: seq<Finding>, b: seq<Finding>, f: Finding)
    requires f in d && f.severity == Critical
    ensures MaxRank(a + d + b) == 4
  {
    MemberRank(d, f);
    MaxRankConcat(a, d);
    MaxRankConcat(a + d, b);
    MaxRankBounds(a + d + b);
  }

  lemma {:induction false} WipeInFindings(t: Tables, c: string)
    requires WIPE in Destructive(Invocations(Tokens(c)))
    ensures MaxRank(FindingsOn(t, c)) == 4
  {
    var ts := Tokens(c);
    var norm, invs := Join(ts, " "), Invocations(ts);
    CriticalInside(MetacharacterFindings(c, ts, norm, invs), Destructive(invs), TableFindings(t, norm, invs), WIPE);
  }

  lemma {:induction false} NoTokens()
    ensures Tokens("") == []
  {}

  /** A command whose tokens wipe the root is critical, under any tables. */
  lemma {:induction false} WipingRootIsCritical(t: Tables, command: string, p: nat, n: nat)
    requires WipesRoot(Tokens(Normalized(command)), p, n)
    ensures RiskRank(t, command) == 4
  {
    NoTokens();
    WipeIsFoundExactlyWhen(Tokens(Normalized(command)));
    WipeInFindings(t, Normalized(command));
  }

  /** The plainest spelling. */
  lemma {:induction false} PlainWipeIsCritical(t: Tables)
    ensures RiskRank(t, "rm -rf /") == 4
  {
    var ts := ["rm", "-rf", "/"];
    PlainWipeTokens();
    PlainWipePosition();
    WipingRootIsCritical(t, "rm -rf /", 0, 2);
  }

  lemma {:induction false} PlainWipeNormalized()
    ensures Normalized("rm -rf /") == "rm -rf /"
  {
    var c := "rm -rf /";
    TrimSpaceOf("", c, "");
    assert "" + c + "" == c && Lower(c) == c;
  }

  lemma {:induction false} PlainWipeJoined()
    ensures Join(["rm", "-rf", "/"], " ") == "rm -rf /"
  {
    assert ["rm", "-rf", "/"][1..] == ["-rf", "/"] && ["-rf", "/"][1..] == ["/"];
    assert Join(["-rf", "/"], " ") == "-rf" + " " + "/";
  }

  lemma {:induction false} PlainWipeTokens()
    ensures Tokens(Normalized("rm -rf /")) == ["rm", "-rf", "/"]
  {
    PlainWipeNormalized();
    PlainWipeJoined();
    PlainWipeWords();
    OperatorProofs.PlainWordsAreTokens(["rm", "-rf", "/"]);
  }

  lemma {:induction false} PlainWipeWords()
    ensures OperatorProofs.PlainWords(["rm", "-rf", "/"])
  {
    assert OperatorProofs.PlainWord("rm") && OperatorProofs.PlainWord("-rf") && OperatorProofs.PlainWord("/");
  }

  lemma {:induction false} RmIsProgram()
    ensures ProgramName("rm") == "rm" && !Skipped("rm")
  {
    OperatorProofs.DequotePlain("rm");
    assert Base("rm") == "rm";
  }

  lemma {:induction false} WipeFlags()
    ensures RecursiveFlag("-rf") && IsRootTarget("/") && !Ends("-rf") && !Ends("/")
  {
    assert "-rf"[1..] == "rf" && "rf"[0] == 'r';
  }

  lemma {:induction false} PlainWipePosition()
    ensures WipesRoot(["rm", "-rf", "/"], 0, 2)
  {
    var ts := ["rm", "-rf", "/"];
    var rest := ts[1..];
    assert rest[0] == "-rf" && rest[1] == "/" && rest[..2] == rest;
    RmIsProgram();
    WipeFlags();
    assert rest[0] in rest && rest[1] in rest;
  }

  // ---------------------------------------------------------------- letter case

  lemma {:induction false} LowerTwice(s: string)
    ensures Lower(Lower(s)) == Lower(s) && |Lower(s)| == |s|
    ensures forall i :: 0 <= i < |s| ==> (IsSpace(Lower(s)[i]) <==> IsSpace(s[i]))
  {}

  lemma {:induction false} LowerOfTrimmed(s: string)
    ensures TrimSpace(Lower(s)) == Lower(TrimSpace(s))
  {
    var left, right := TrimSpaceSplits(s);
    var core := TrimSpace(s);
    LowerTwice(left);
    LowerTwice(right);
    LowerTwice(core);
    assert Lower(s) == Lower(left) + Lower(core) + Lower(right);
    TrimSpaceOf(Lower(left), Lower(core), Lower(right));
  }

  /** The verdict does not depend on letter case. */
  lemma {:induction false} CaseDoesNotMatter(t: Tables, command: string)
    ensures Findings(t, Lower(command)) == Findings(t, command)
  {
    LowerOfTrimmed(command);
    LowerTwice(TrimSpace(command));
  }

  // ---------------------------------------------------------------- all findings

  /** What a non-blank lower-case command is reported for, signal by signal. */
  ghost predicate Due(t: Tables, c: string, f: Finding) {
    DueByCharacters(c, f) || (exists p, inv :: WarrantedAt(Tokens(c), f, p, inv)) || DueByTables(t, Tokens(c), f)
  }

  ghost predicate FetchedIntoShell(ts: seq<string>) { PipedRuns(ts, IsShell) && Runs(ts, IsFetcher) }

  ghost predicate DueByCharacters(c: string, f: Finding) {
    var ts := Tokens(c);
    || (f == Finding("pipe_to_shell", Critical) && FetchedIntoShell(ts))
    || (f == Finding("pipe", Medium) && "|" in ts && !FetchedIntoShell(ts))
    || (f == Finding("subshell", Medium) && (Contains(c, "$(") || Contains(c, "`")))
    || (f == Finding("chaining", Medium) && ("&&" in ts || "||" in ts || ";" in ts))
    || (f == Finding("redirect_system", High) && (">" in ts || ">>" in ts) && exists path :: SystemPath(path) && Contains(Join(ts, " "), "> " + path))
  }

  predicate SystemPath(path: string) { path in ["/etc/", "/dev/", "/boot/", "/sys/", "/proc/", "/usr/", "/bin/"] }

  lemma {:induction false} SystemPathsExactly(norm: string)
    ensures RedirectsToSystem(norm) <==> exists path :: SystemPath(path) && Contains(norm, "> " + path)
  {
    if k :| 0 <= k < |SYSTEM_PATHS| && Contains(norm, "> " + SYSTEM_PATHS[k]) { assert SystemPath(SYSTEM_PATHS[k]); }
    if path :| SystemPath(path) && Contains(norm, "> " + path) {
      var k :| 0 <= k < |SYSTEM_PATHS| && SYSTEM_PATHS[k] == path;
    }
  }

  ghost predicate DueByTables(t: Tables, ts: seq<string>, f: Finding) {
    || (exists r :: (r in t.criticalPrograms || r in t.mediumPrograms) && RunsMatching(ts, r.pattern) && f == Finding(r.pattern, r.severity))
    || (exists r :: (r in t.criticalPhrases || r in t.highPhrases) && Contains(Join(ts, " "), r.pattern) && f == Finding(TrimSpace(r.pattern), r.severity))
  }

  ghost predicate RunsMatching(ts: seq<string>, pattern: string) { Runs(ts, (n: string) => Matches(pattern, n)) }

  lemma {:induction false} RunsMatchingExactly(ts: seq<string>, pattern: string)
    ensures HasProgram(Invocations(ts), pattern) <==> RunsMatching(ts, pattern)
  {
    RunsByInvocation(ts, (n: string) => Matches(pattern, n));
  }

  lemma {:induction false} ProgramRules(rules: seq<Rule>, invs: seq<Invocation>, f: Finding)
    ensures f in ProgramFindings(rules, invs) <==> exists r :: r in rules && HasProgram(invs, r.pattern) && f == Finding(r.pattern, r.severity)
  {
    if rules != [] {
      ProgramRules(rules[1..], invs, f);
      assert rules == [rules[0]] + rules[1..];
    }
  }

  lemma {:induction false} ProgramFindingsExactly(rules: seq<Rule>, ts: seq<string>, f: Finding)
    ensures f in ProgramFindings(rules, Invocations(ts)) <==> exists r :: r in rules && RunsMatching(ts, r.pattern) && f == Finding(r.pattern, r.severity)
  {
    ProgramRules(rules, Invocations(ts), f);
    forall r: Rule ensures HasProgram(Invocations(ts), r.pattern) <==> RunsMatching(ts, r.pattern) { RunsMatchingExactly(ts, r.pattern); }
  }

  lemma {:induction false} PhraseFindingsExactly(rules: seq<Rule>, norm: string, f: Finding)
    ensures f in PhraseFindings(rules, norm) <==> exists r :: r in rules && Contains(norm, r.pattern) && f == Finding(TrimSpace(r.pattern), r.severity)
  {
    if rules != [] {
      PhraseFindingsExactly(rules[1..], norm, f);
      assert rules == [rules[0]] + rules[1..];
    }
  }

  lemma {:induction false} TableFindingsExactly(t: Tables, ts: seq<string>, f: Finding)
    ensures f in TableFindings(t, Join(ts, " "), Invocations(ts)) <==> DueByTables(t, ts, f)
  {
    ProgramFindingsExactly(t.criticalPrograms, ts, f);
    ProgramFindingsExactly(t.mediumPrograms, ts, f);
    PhraseFindingsExactly(t.criticalPhrases, Join(ts, " "), f);
    PhraseFindingsExactly(t.highPhrases, Join(ts, " "), f);
  }

  lemma {:induction false} PipeFindingsExactly(ts: seq<string>, f: Finding)
    ensures f in PipeFindings(ts, Invocations(ts)) <==>
            (f == Finding("pipe_to_shell", Critical) && FetchedIntoShell(ts)) || (f == Finding("pipe", Medium) && "|" in ts && !FetchedIntoShell(ts))
  {
    RunsByInvocation(ts, IsShell);
    RunsByInvocation(ts, IsFetcher);
    assert PipesIntoShell(Invocations(ts)) <==> PipedRuns(ts, IsShell);
    assert Fetches(Invocations(ts)) <==> Runs(ts, IsFetcher);
  }

  lemma {:induction false} InFour(p: seq<Finding>, s: seq<Finding>, h: seq<Finding>, d: seq<Finding>, f: Finding)
    ensures f in p + s + h + d <==> f in p || f in s || f in h || f in d
  {}

  lemma {:induction false} CharacterFindingsExactly(c: string, f: Finding)
    ensures var ts := Tokens(c); f in MetacharacterFindings(c, ts, Join(ts, " "), Invocations(ts)) <==> DueByCharacters(c, f)
  {
    var ts := Tokens(c);
    PipeFindingsExactly(ts, f);
    SystemPathsExactly(Join(ts, " "));
    InFour(PipeFindings(ts, Invocations(ts)), SubshellFindings(c), ChainFindings(ts), RedirectFindings(ts, Join(ts, " ")), f);
  }

  /** A finding is reported on a non-blank command if and only if it is due. */
  lemma {:induction false} FindingsExactly(t: Tables, command: string, f: Finding)
    requires Normalized(command) != ""
    ensures f in Findings(t, command) <==> Due(t, Normalized(command), f)
  {
    var c := Normalized(command);
    CharacterFindingsExactly(c, f);
    DestructiveByPosition(Tokens(c), f);
    TableFindingsExactly(t, Tokens(c), f);
  }
}
