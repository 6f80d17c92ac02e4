/** How the verdict on `a;b` follows from the verdicts on `a` and `b`. */
module RiskOfSequence {
  import opened Text
  import opened Shell
  import opened CommandRisk

  // ---------------------------------------------------------------- substrings and the separator

  /** A pattern that cannot reach across a separator surrounded by white space. */
  predicate Solid(p: string) {
    p != [] && ';' !in p && !IsSpace(p[0]) && !IsSpace(p[|p| - 1])
  }

  function Around(x: string, padX: string, padY: string, y: string): string { x + padX + ";" + padY + y }

  lemma {:induction false} ContainsAround(x: string, padX: string, padY: string, y: string, p: string)
    requires Solid(p) && AllSpace(padX) && AllSpace(padY)
    ensures Contains(Around(x, padX, padY, y), p) <==> Contains(x, p) || Contains(y, p)
  {
    var s := Around(x, padX, padY, y);
    if Contains(x, p) {
      ContainsInner("", x, padX + ";" + padY + y, p);
      assert "" + x + (padX + ";" + padY + y) == s;
    }
    if Contains(y, p) {
      ContainsInner(x + padX + ";" + padY, y, "", p);
      assert x + padX + ";" + padY + y + "" == s;
    }
    if Contains(s, p) {
      var i :| 0 <= i <= |s| && OccursAt(s, p, i);
      OccurrenceAvoidsSeparator(x, padX, padY, y, p, i);
    }
  }

  lemma {:induction false} OccurrenceAvoidsSeparator(x: string, padX: string, padY: string, y: string, p: string, i: nat)
    requires Solid(p) && AllSpace(padX) && AllSpace(padY)
    requires OccursAt(Around(x, padX, padY, y), p, i)
    ensures Contains(x, p) || Contains(y, p)
  {
    var s := Around(x, padX, padY, y);
    var k, n := |x| + |padX|, |p|;
    assert s[k] == ';';
    assert forall m :: i <= m < i + n ==> s[m] == s[i..i + n][m - i];
    var start := k + 1 + |padY|;
    assert forall m :: i <= m < i + n ==> s[m] != ';';
    assert forall j :: |x| <= j < k ==> s[j] == padX[j - |x|];
    assert forall j :: k < j < start ==> s[j] == padY[j - k - 1];
    assert s[i + n - 1] == p[n - 1] && s[i] == p[0];
    if i + n <= k {
      assert i + n <= |x|;
      assert s == x + (padX + ";" + padY + y);
      SliceOfLeft(x, padX + ";" + padY + y, i, i + n);
      assert OccursAt(x, p, i);
    } else {
      assert start <= i;
      SliceOfRight(x + padX + ";" + padY, y, i, i + n);
      assert OccursAt(y, p, i - start);
    }
  }

  lemma {:induction false} SliceOfLeft(a: string, b: string, i: nat, j: nat)
    requires i <= j <= |a|
    ensures (a + b)[i..j] == a[i..j]
  {}

  lemma {:induction false} SliceOfRight(a: string, b: string, i: nat, j: nat)
    requires |a| <= i <= j <= |a + b|
    ensures (a + b)[i..j] == b[i - |a|..j - |a|]
  {}

  // ---------------------------------------------------------------- the normalized command

  function SpaceAfter(ts: seq<string>): string { if ts == [] then "" else " " }

  lemma {:induction false} JoinOfSequence(a: seq<string>, b: seq<string>)
    ensures Join(a + [";"] + b, " ") == Around(Join(a, " "), SpaceAfter(a), SpaceAfter(b), Join(b, " "))
  {
    var m := [";"] + b;
    assert a + [";"] + b == a + m;
    assert m[1..] == b;
    assert Join(m, " ") == ";" + SpaceAfter(b) + Join(b, " ");
    if a == [] {
      assert a + m == m;
    } else {
      JoinConcat(a, m, " ");
    }
  }

  lemma {:induction false} NormalizedSequence(a: string, b: string) returns (padA: string, padB: string)
    requires TrimSpace(a) != "" && TrimSpace(b) != ""
    ensures AllSpace(padA) && AllSpace(padB)
    ensures Normalized(a + ";" + b) == Around(Normalized(a), padA, padB, Normalized(b))
  {
    var la, ra := TrimSpaceSplits(a);
    var lb, rb := TrimSpaceSplits(b);
    var ta, tb := TrimSpace(a), TrimSpace(b);
    var core := Around(ta, ra, lb, tb);
    assert a + ";" + b == la + core + rb;
    TrimSpaceOf(la, core, rb);
    padA, padB := ra, lb;
    assert core == ta + (ra + (";" + (lb + tb)));
    LowerSpaces(ra);
    LowerSpaces(lb);
    assert Lower(";") == ";";
  }

  lemma {:induction false} TokensOfPaddedSequence(x: string, padX: string, padY: string, y: string)
    requires AllSpace(padX) && AllSpace(padY)
    ensures Tokens(Around(x, padX, padY, y)) == Tokens(x) + [";"] + Tokens(y)
  {
    var left, right := x + padX, padY + y;
    assert Around(x, padX, padY, y) == left + ";" + right;
    TokensOfSequence(left, right);
    TokensPadRight(x, padX);
    TokensPadLeft(padY, y);
  }

  // ---------------------------------------------------------------- `>` only occurs as an operator

  predicate NoArrow(s: string) { '>' !in s }

  predicate ArrowFree(t: string) { NoArrow(t) || t == ">" || t == ">>" }

  predicate ArrowFreeAll(ts: seq<string>) { forall i :: 0 <= i < |ts| ==> ArrowFree(ts[i]) }

  lemma {:induction false} FieldsOfOperator(cur: string, op: string, rest: string)
    requires op != "" && NoSpace(op)
    ensures FieldsFrom(cur, " " + op + " " + rest) == FlushField(cur) + [op] + Fields(rest)
  {
    var s := " " + op + " " + rest;
    assert s[1..] == op + (" " + rest);
    FieldsOfText("", op, " " + rest);
    assert "" + op == op;
    assert (" " + rest)[1..] == rest;
    assert FieldsFrom(op, " " + rest) == [op] + Fields(rest);
  }

  lemma {:induction false} FieldsOfText(cur: string, text: string, rest: string)
    requires NoSpace(text)
    ensures FieldsFrom(cur, text + rest) == FieldsFrom(cur + text, rest)
    decreases |text|
  {
    if text == [] {
      assert text + rest == rest && cur + text == cur;
    } else {
      assert (text + rest)[1..] == text[1..] + rest;
      FieldsOfText(cur + [text[0]], text[1..], rest);
      assert cur + [text[0]] + text[1..] == cur + text;
    }
  }

  lemma {:induction false} FieldsAreArrowFree(cur: string, c: string)
    requires NoArrow(cur)
    ensures ArrowFreeAll(FieldsFrom(cur, Spaced(c)))
    decreases |c|
  {
    if c != [] {
      var n := Consumed(c);
      var rest := Spaced(c[n..]);
      if OperatorLength(c) == 0 {
        assert Spaced(c) == [c[0]] + rest;
        assert ([c[0]] + rest)[1..] == rest;
        FieldsAreArrowFree("", c[1..]);
        FieldsAreArrowFree(if c[0] == '>' then "" else cur + [c[0]], c[1..]);
      } else {
        var op := c[..n];
        FieldsOfOperator(cur, op, rest);
        FieldsAreArrowFree("", c[n..]);
      }
    }
  }

  lemma {:induction false} ScanKeepsArrowFree(s: string, q: Quote, cur: Option<string>)
    requires NoArrow(s) && (cur.Some? ==> NoArrow(cur.value))
    ensures forall i :: 0 <= i < |Scan(s, q, cur).words| ==> NoArrow(Scan(s, q, cur).words[i])
    decreases |s|
  {
    if s != [] {
      assert NoArrow([s[0]]);
      ScanKeepsArrowFree(s[1..], InSingle, Extend(cur, [s[0]]));
      ScanKeepsArrowFree(s[1..], InSingle, Extend(cur, ""));
      ScanKeepsArrowFree(s[1..], InDouble, Extend(cur, [s[0]]));
      ScanKeepsArrowFree(s[1..], InDouble, Extend(cur, ""));
      ScanKeepsArrowFree(s[1..], Unquoted, Extend(cur, [s[0]]));
      ScanKeepsArrowFree(s[1..], Unquoted, cur);
      ScanKeepsArrowFree(s[1..], Unquoted, None);
      if |s| > 1 {
        assert NoArrow([s[1]]);
        ScanKeepsArrowFree(s[2..], InDouble, Extend(cur, [s[1]]));
        ScanKeepsArrowFree(s[2..], Unquoted, Extend(cur, [s[1]]));
      }
    }
  }

  lemma {:induction false} ConcatNoArrow(ws: seq<string>)
    requires forall i :: 0 <= i < |ws| ==> NoArrow(ws[i])
    ensures NoArrow(Concat(ws))
  {
    if ws != [] { ConcatNoArrow(ws[1..]); }
  }

  lemma {:induction false} DequoteIsArrowFree(field: string)
    requires ArrowFree(field)
    ensures ArrowFree(Dequote(field))
  {
    if NoArrow(field) {
      ScanKeepsArrowFree(field, Unquoted, None);
      ConcatNoArrow(ScanLine(field).words);
    } else {
      DequoteArrows();
    }
  }

  lemma {:induction false} DequoteArrows()
    ensures Dequote(">") == ">" && Dequote(">>") == ">>"
  {
    assert ">"[1..] == "" && ">>"[1..] == ">";
    assert "" + ">" == ">" && ">" + ">" == ">>";
    assert Extend(Some(">"), [">"[0]]).value == ">>";
    assert Scan("", Unquoted, Some(">")) == Scanned([">"], false);
    assert Scan("", Unquoted, Some(">>")) == Scanned([">>"], false);
    assert Scan(">", Unquoted, Some(">")) == Scanned([">>"], false);
    assert Scan(">", Unquoted, None) == Scanned([">"], false);
    assert Scan(">>", Unquoted, None) == Scanned([">>"], false);
    assert Concat([">"]) == ">" + Concat([]) && Concat([">>"]) == ">>" + Concat([]);
  }

  lemma {:induction false} KeepArrowFree(f: string -> string, parts: seq<string>)
    requires forall t :: ArrowFree(t) ==> ArrowFree(f(t))
    requires ArrowFreeAll(parts)
    ensures ArrowFreeAll(KeepNonEmpty(f, parts))
  {
    if parts != [] { KeepArrowFree(f, parts[1..]); }
  }

  lemma {:induction false} TokensAreArrowFree(c: string)
    ensures ArrowFreeAll(Tokens(c))
  {
    FieldsAreArrowFree("", c);
    forall t | ArrowFree(t) ensures ArrowFree(Dequote(t)) { DequoteIsArrowFree(t); }
    KeepArrowFree(Dequote, Fields(Spaced(c)));
  }

  lemma {:induction false} JoinNoArrow(ts: seq<string>)
    requires forall i :: 0 <= i < |ts| ==> NoArrow(ts[i])
    ensures NoArrow(Join(ts, " "))
  {
    if |ts| > 1 { JoinNoArrow(ts[1..]); }
  }

  /** A redirect phrase can only come from a redirect operator. */
  lemma {:induction false} RedirectPhraseNeedsOperator(c: string)
    requires RedirectsToSystem(Join(Tokens(c), " "))
    ensures HasRedirect(Tokens(c))
  {
    var ts := Tokens(c);
    var norm := Join(ts, " ");
    var k :| 0 <= k < |SYSTEM_PATHS| && Contains(norm, "> " + SYSTEM_PATHS[k]);
    var p := "> " + SYSTEM_PATHS[k];
    var i :| 0 <= i <= |norm| && OccursAt(norm, p, i);
    assert norm[i] == norm[i..i + |p|][0] == '>';
    TokensAreArrowFree(c);
    if !HasRedirect(ts) {
      assert forall i :: 0 <= i < |ts| ==> ts[i] in ts && NoArrow(ts[i]);
      JoinNoArrow(ts);
    }
  }

  // ---------------------------------------------------------------- one check at a time

  lemma {:induction false} SubshellOfSequence(x: string, padX: string, padY: string, y: string)
    requires AllSpace(padX) && AllSpace(padY)
    ensures MaxRank(SubshellFindings(Around(x, padX, padY, y))) == Max(MaxRank(SubshellFindings(x)), MaxRank(SubshellFindings(y)))
  {
    ContainsAround(x, padX, padY, y, "$(");
    ContainsAround(x, padX, padY, y, "`");
  }

  lemma {:induction false} DestructiveConcat(a: seq<Invocation>, b: seq<Invocation>)
    ensures Destructive(a + b) == Destructive(a) + Destructive(b)
  {
    if a == [] {
      assert a + b == b;
    } else {
      assert (a + b)[1..] == a[1..] + b;
      DestructiveConcat(a[1..], b);
      ConcatAssociative(DestructiveOf(a[0]), Destructive(a[1..]), Destructive(b));
    }
  }

  lemma {:induction false} HasProgramConcat(a: seq<Invocation>, b: seq<Invocation>, name: string)
    ensures HasProgram(a + b, name) <==> HasProgram(a, name) || HasProgram(b, name)
  {
    if HasProgram(a, name) {
      var i :| 0 <= i < |a| && (a[i].program == name || HasPrefix(a[i].program, name + "."));
      assert (a + b)[i] == a[i];
    }
    if HasProgram(b, name) {
      var i :| 0 <= i < |b| && (b[i].program == name || HasPrefix(b[i].program, name + "."));
      assert (a + b)[|a| + i] == b[i];
    }
  }

  lemma {:induction false} ProgramsOfSequence(rules: seq<Rule>, a: seq<Invocation>, b: seq<Invocation>)
    ensures MaxRank(ProgramFindings(rules, a + b)) == Max(MaxRank(ProgramFindings(rules, a)), MaxRank(ProgramFindings(rules, b)))
  {
    if rules != [] {
      HasProgramConcat(a, b, rules[0].pattern);
      ProgramsOfSequence(rules[1..], a, b);
      var hit := [Finding(rules[0].pattern, rules[0].severity)];
      MaxRankConcat(hit, ProgramFindings(rules[1..], a + b));
      MaxRankConcat(hit, ProgramFindings(rules[1..], a));
      MaxRankConcat(hit, ProgramFindings(rules[1..], b));
      NoFinding(ProgramFindings(rules[1..], a + b));
      NoFinding(ProgramFindings(rules[1..], a));
      NoFinding(ProgramFindings(rules[1..], b));
    }
  }

  lemma {:induction false} NoFinding(fs: seq<Finding>)
    ensures [] + fs == fs
  {}

  predicate SolidRules(rules: seq<Rule>) { forall i :: 0 <= i < |rules| ==> Solid(rules[i].pattern) }

  function RuleRank(rule: Rule, norm: string): int { if Contains(norm, rule.pattern) then Rank(rule.severity) else 1 }

  lemma {:induction false} PhraseStep(rules: seq<Rule>, norm: string)
    requires rules != []
    ensures MaxRank(PhraseFindings(rules, norm)) == Max(RuleRank(rules[0], norm), MaxRank(PhraseFindings(rules[1..], norm)))
  {
    var hit, rest := [Finding(TrimSpace(rules[0].pattern), rules[0].severity)], PhraseFindings(rules[1..], norm);
    MaxRankConcat(hit, rest);
    assert hit[1..] == [] && MaxRank(hit) == Max(Rank(rules[0].severity), 1);
    MaxRankBounds(rest);
    assert [] + rest == rest;
  }

  lemma {:induction false} PhrasesOfSequence(rules: seq<Rule>, x: string, padX: string, padY: string, y: string)
    requires SolidRules(rules) && AllSpace(padX) && AllSpace(padY)
    ensures MaxRank(PhraseFindings(rules, Around(x, padX, padY, y))) == Max(MaxRank(PhraseFindings(rules, x)), MaxRank(PhraseFindings(rules, y)))
  {
    if rules != [] {
      ContainsAround(x, padX, padY, y, rules[0].pattern);
      PhrasesOfSequence(rules[1..], x, padX, padY, y);
      PhraseStep(rules, Around(x, padX, padY, y));
      PhraseStep(rules, x);
      PhraseStep(rules, y);
    }
  }

  lemma {:induction false} RedirectOfSequence(x: string, padX: string, padY: string, y: string)
    requires AllSpace(padX) && AllSpace(padY)
    ensures RedirectsToSystem(Around(x, padX, padY, y)) <==> RedirectsToSystem(x) || RedirectsToSystem(y)
  {
    forall k | 0 <= k < |SYSTEM_PATHS|
      ensures Contains(Around(x, padX, padY, y), "> " + SYSTEM_PATHS[k]) <==>
              Contains(x, "> " + SYSTEM_PATHS[k]) || Contains(y, "> " + SYSTEM_PATHS[k])
    {
      ContainsAround(x, padX, padY, y, "> " + SYSTEM_PATHS[k]);
    }
  }

  /** Tables whose phrases cannot reach across a separator. */
  predicate SolidTables(t: Tables) { SolidRules(t.criticalPhrases) && SolidRules(t.highPhrases) }

  /** The shipped tables qualify. */
  lemma {:induction false} ShippedRulesAreSolid()
    ensures SolidTables(RULES)
  {
    CriticalPhrasesAreSolid();
    HighPhrasesAreSolid();
  }

  lemma {:induction false} CriticalPhrasesAreSolid()
    ensures SolidRules(RULES.criticalPhrases)
  {
    assert Solid("dd if=") && Solid("dd of=");
    assert Solid(":(){") && Solid("> /dev/sda");
  }

  lemma {:induction false} InstallersAreSolid()
    ensures Solid("apt-get install") && Solid("apt install") && Solid("yum install")
  {}

  lemma {:induction false} OtherInstallersAreSolid()
    ensures Solid("dnf install") && Solid("apk add") && Solid("pip install") && Solid("kubectl delete")
  {}

  lemma {:induction false} HighPhrasesAreSolid()
    ensures SolidRules(RULES.highPhrases)
  {
    InstallersAreSolid();
    OtherInstallersAreSolid();
    var late := [Rule("dnf install", High), Rule("apk add", High), Rule("pip install", High)];
    var mid := [Rule("yum install", High)] + late;
    assert RULES.highPhrases == [Rule("kubectl delete", High)] + ([Rule("apt-get install", High)] + ([Rule("apt install", High)] + mid));
  }

  // ---------------------------------------------------------------- the verdict on `a;b`

  /** What the checks see of a command. */
  datatype Reading = Reading(text: string, tokens: seq<string>, norm: string, invs: seq<Invocation>)

  function Read(c: string): Reading {
    var ts := Tokens(c);
    Reading(c, ts, Join(ts, " "), Invocations(ts))
  }

  /** The rank of the checks that look at one stretch of the command at a time. */
  function LocalRank(t: Tables, r: Reading): int {
    Max(MaxRank(SubshellFindings(r.text)),
    Max(RedirectRank(r),
    Max(MaxRank(Destructive(r.invs)),
        TableRank(t, r.norm, r.invs))))
  }

  function TableRank(t: Tables, norm: string, invs: seq<Invocation>): int {
    Max(MaxRank(ProgramFindings(t.criticalPrograms, invs)),
    Max(MaxRank(PhraseFindings(t.criticalPhrases, norm)),
    Max(MaxRank(PhraseFindings(t.highPhrases, norm)),
        MaxRank(ProgramFindings(t.mediumPrograms, invs)))))
  }

  function PipeRank(r: Reading): int { MaxRank(PipeFindings(r.tokens, r.invs)) }

  function ChainRank(r: Reading): int { MaxRank(ChainFindings(r.tokens)) }

  lemma {:induction false} TableRankIsMax(t: Tables, norm: string, invs: seq<Invocation>)
    ensures MaxRank(TableFindings(t, norm, invs)) == TableRank(t, norm, invs)
  {
    var a, b := ProgramFindings(t.criticalPrograms, invs), PhraseFindings(t.criticalPhrases, norm);
    var c, d := PhraseFindings(t.highPhrases, norm), ProgramFindings(t.mediumPrograms, invs);
    MaxRankConcat(a, b);
    MaxRankConcat(a + b, c);
    MaxRankConcat(a + b + c, d);
  }

  lemma {:induction false} MaxRankOfSix(p: seq<Finding>, s: seq<Finding>, h: seq<Finding>, d: seq<Finding>, x: seq<Finding>, y: seq<Finding>)
    ensures MaxRank(p + s + h + d + x + y) ==
            Max(Max(MaxRank(p), MaxRank(h)), Max(MaxRank(s), Max(MaxRank(d), Max(MaxRank(x), MaxRank(y)))))
  {
    MaxRankConcat(p, s);
    MaxRankConcat(p + s, h);
    MaxRankConcat(p + s + h, d);
    MaxRankConcat(p + s + h + d, x);
    MaxRankConcat(p + s + h + d + x, y);
  }

  lemma {:induction false} RankOfReading(t: Tables, c: string)
    ensures MaxRank(FindingsOn(t, c)) == TotalRank(t, Read(c))
  {
    var r := Read(c);
    TableRankIsMax(t, r.norm, r.invs);
    MaxRankOfSix(PipeFindings(r.tokens, r.invs), SubshellFindings(r.text), ChainFindings(r.tokens), RedirectFindings(r.tokens, r.norm),
      Destructive(r.invs), TableFindings(t, r.norm, r.invs));
  }

  /** The parts of a sequence are read independently of each other. */
  predicate Composes(a: Reading, b: Reading, ab: Reading) {
    && ab.tokens == a.tokens + [";"] + b.tokens
    && ab.invs == a.invs + b.invs
    && ab.norm == Around(a.norm, SpaceAfter(a.tokens), SpaceAfter(b.tokens), b.norm)
  }

  lemma {:induction false} ReadingOfSequence(x: string, padX: string, padY: string, y: string)
    requires AllSpace(padX) && AllSpace(padY)
    ensures Composes(Read(x), Read(y), Read(Around(x, padX, padY, y)))
  {
    TokensOfPaddedSequence(x, padX, padY, y);
    InvocationsOfSequence(Tokens(x), Tokens(y));
    JoinOfSequence(Tokens(x), Tokens(y));
  }

  /** Taking the worst of four checks and taking the worst of two parts commute. */
  lemma {:induction false} WorstOfFour(p: int, q: int, r: int, s: int, p': int, q': int, r': int, s': int)
    ensures Max(Max(p, p'), Max(Max(q, q'), Max(Max(r, r'), Max(s, s')))) ==
            Max(Max(p, Max(q, Max(r, s))), Max(p', Max(q', Max(r', s'))))
  {}

  lemma {:induction false} TableRankOfSequence(t: Tables, a: Reading, b: Reading, ab: Reading)
    requires Composes(a, b, ab) && SolidTables(t)
    ensures TableRank(t, ab.norm, ab.invs) == Max(TableRank(t, a.norm, a.invs), TableRank(t, b.norm, b.invs))
  {
    ProgramsOfSequence(t.criticalPrograms, a.invs, b.invs);
    ProgramsOfSequence(t.mediumPrograms, a.invs, b.invs);
    PhrasesOfSequence(t.criticalPhrases, a.norm, SpaceAfter(a.tokens), SpaceAfter(b.tokens), b.norm);
    PhrasesOfSequence(t.highPhrases, a.norm, SpaceAfter(a.tokens), SpaceAfter(b.tokens), b.norm);
    WorstOfFour(
      MaxRank(ProgramFindings(t.criticalPrograms, a.invs)), MaxRank(PhraseFindings(t.criticalPhrases, a.norm)),
      MaxRank(PhraseFindings(t.highPhrases, a.norm)), MaxRank(ProgramFindings(t.mediumPrograms, a.invs)),
      MaxRank(ProgramFindings(t.criticalPrograms, b.invs)), MaxRank(PhraseFindings(t.criticalPhrases, b.norm)),
      MaxRank(PhraseFindings(t.highPhrases, b.norm)), MaxRank(ProgramFindings(t.mediumPrograms, b.invs)));
  }

  /** A redirect check that reads a normal form its own tokens produced. */
  predicate RedirectSound(r: Reading) { RedirectsToSystem(r.norm) ==> HasRedirect(r.tokens) }

  lemma {:induction false} LocalRankOfSequence(t: Tables, a: Reading, b: Reading, ab: Reading, padA: string, padB: string)
    requires Composes(a, b, ab) && AllSpace(padA) && AllSpace(padB) && ab.text == Around(a.text, padA, padB, b.text)
    requires RedirectSound(a) && RedirectSound(b)
    requires SolidTables(t)
    ensures LocalRank(t, ab) == Max(LocalRank(t, a), LocalRank(t, b))
  {
    SubshellOfSequence(a.text, padA, padB, b.text);
    RedirectRankOfSequence(a, b, ab);
    DestructiveConcat(a.invs, b.invs);
    MaxRankConcat(Destructive(a.invs), Destructive(b.invs));
    TableRankOfSequence(t, a, b, ab);
    WorstOfFour(
      MaxRank(SubshellFindings(a.text)), RedirectRank(a), MaxRank(Destructive(a.invs)), TableRank(t, a.norm, a.invs),
      MaxRank(SubshellFindings(b.text)), RedirectRank(b), MaxRank(Destructive(b.invs)), TableRank(t, b.norm, b.invs));
  }

  function RedirectRank(r: Reading): int { MaxRank(RedirectFindings(r.tokens, r.norm)) }

  lemma {:induction false} RankOfOne(signal: string, severity: Severity)
    ensures MaxRank([Finding(signal, severity)]) == Rank(severity) && MaxRank([]) == 1
  {}

  lemma {:induction false} RedirectRankOfSequence(a: Reading, b: Reading, ab: Reading)
    requires Composes(a, b, ab) && RedirectSound(a) && RedirectSound(b)
    ensures RedirectRank(ab) == Max(RedirectRank(a), RedirectRank(b))
  {
    RedirectOfSequence(a.norm, SpaceAfter(a.tokens), SpaceAfter(b.tokens), b.norm);
    RankOfOne("redirect_system", High);
    assert forall x :: x in ab.tokens <==> x in a.tokens || x == ";" || x in b.tokens;
  }

  /** A remote fetch and a pipe into a shell, possibly on different sides of the separator. */
  predicate FetchedIntoShell(a: Reading, b: Reading) {
    (PipesIntoShell(a.invs) || PipesIntoShell(b.invs)) && (Fetches(a.invs) || Fetches(b.invs))
  }

  lemma {:induction false} FetchedIntoShellConcat(a: seq<Invocation>, b: seq<Invocation>)
    ensures PipesIntoShell(a + b) <==> PipesIntoShell(a) || PipesIntoShell(b)
    ensures Fetches(a + b) <==> Fetches(a) || Fetches(b)
  {
    forall i | 0 <= i < |a| ensures (a + b)[i] == a[i] {}
    forall i | 0 <= i < |b| ensures (a + b)[|a| + i] == b[i] {}
    if PipesIntoShell(b) {
      var i :| 0 <= i < |b| && b[i].pipedInto && b[i].program in SHELL_NAMES;
      assert (a + b)[|a| + i] == b[i];
    }
    if Fetches(b) {
      var i :| 0 <= i < |b| && b[i].program in FETCH_PROGRAMS;
      assert (a + b)[|a| + i] == b[i];
    }
  }

  lemma {:induction false} PipeAndChain(a: Reading, b: Reading, ab: Reading)
    requires Composes(a, b, ab)
    ensures ChainRank(ab) == 2 && 1 <= ChainRank(a) <= 2 && 1 <= ChainRank(b) <= 2
    ensures FetchedIntoShell(a, b) ==> PipeRank(ab) == 4
    ensures !FetchedIntoShell(a, b) ==> 1 <= PipeRank(ab) <= 2 && 1 <= PipeRank(a) <= 2 && 1 <= PipeRank(b) <= 2
  {
    FetchedIntoShellConcat(a.invs, b.invs);
    assert ab.tokens[|a.tokens|] == ";";
    RankOfOne("chaining", Medium);
    RankOfOne("pipe", Medium);
    RankOfOne("pipe_to_shell", Critical);
  }

  function TotalRank(t: Tables, r: Reading): int { Max(Max(PipeRank(r), ChainRank(r)), LocalRank(t, r)) }

  lemma {:induction false} TotalRankOfSequence(t: Tables, a: Reading, b: Reading, ab: Reading)
    requires Composes(a, b, ab)
    requires LocalRank(t, ab) == Max(LocalRank(t, a), LocalRank(t, b))
    requires TotalRank(t, ab) <= 4
    ensures TotalRank(t, ab) == SequenceRank(FetchedIntoShell(a, b), TotalRank(t, a), TotalRank(t, b))
  {
    PipeAndChain(a, b, ab);
    TotalOfRanks(PipeRank(a), ChainRank(a), LocalRank(t, a), PipeRank(b), ChainRank(b), LocalRank(t, b), PipeRank(ab), ChainRank(ab));
  }

  /** Below critical, only the local checks and the chaining decide. */
  lemma {:induction false} TotalOfRanks(pa: int, ca: int, la: int, pb: int, cb: int, lb: int, p: int, c: int)
    ensures c == 2 && ca <= 2 && cb <= 2 && p <= 2 && pa <= 2 && pb <= 2 ==>
      Max(Max(p, c), Max(la, lb)) == Max(2, Max(Max(Max(pa, ca), la), Max(Max(pb, cb), lb)))
    ensures p == 4 && Max(Max(p, c), Max(la, lb)) <= 4 ==> Max(Max(p, c), Max(la, lb)) == 4
  {}

  lemma {:induction false} RankOfNonBlank(t: Tables, command: string)
    requires Normalized(command) != ""
    ensures RiskRank(t, command) == MaxRank(FindingsOn(t, Normalized(command)))
  {}

  lemma {:induction false} NonBlank(command: string)
    requires TrimSpace(command) != ""
    ensures Normalized(command) != ""
  {}

  /** What sequencing two parts of ranks `ra` and `rb` yields. */
  function SequenceRank(fetchedIntoShell: bool, ra: int, rb: int): int {
    if fetchedIntoShell then Rank(Critical) else Max(Rank(Medium), Max(ra, rb))
  }

  lemma {:induction false} SequenceRankBounds(fetchedIntoShell: bool, ra: int, rb: int)
    requires ra <= 4 && rb <= 4
    ensures SequenceRank(fetchedIntoShell, ra, rb) >= Max(ra, Max(rb, 2))
  {}

  /** The verdict on a sequence, exactly: critical when a fetch and a pipe into a shell meet, and
      otherwise the worst of the two parts and the chaining itself. */
  lemma {:induction false} RankOfSequence(t: Tables, a: string, b: string)
    requires TrimSpace(a) != "" && TrimSpace(b) != "" && SolidTables(t)
    ensures RiskRank(t, a + ";" + b) ==
            SequenceRank(FetchedIntoShell(Read(Normalized(a)), Read(Normalized(b))), RiskRank(t, a), RiskRank(t, b))
  {
    NonBlank(a);
    NonBlank(b);
    var padA, padB := NormalizedSequence(a, b);
    RankOfNonBlank(t, a);
    RankOfNonBlank(t, b);
    RankOfNonBlank(t, a + ";" + b);
    SequenceOfNormalized(t, Normalized(a), padA, padB, Normalized(b));
  }

  lemma {:induction false} SequenceOfNormalized(t: Tables, ca: string, padA: string, padB: string, cb: string)
    requires AllSpace(padA) && AllSpace(padB) && SolidTables(t)
    ensures MaxRank(FindingsOn(t, Around(ca, padA, padB, cb))) ==
            SequenceRank(FetchedIntoShell(Read(ca), Read(cb)), MaxRank(FindingsOn(t, ca)), MaxRank(FindingsOn(t, cb)))
  {
    var cab := Around(ca, padA, padB, cb);
    ReadingOfSequence(ca, padA, padB, cb);
    ReadingIsRedirectSound(ca);
    ReadingIsRedirectSound(cb);
    LocalRankOfSequence(t, Read(ca), Read(cb), Read(cab), padA, padB);
    RankOfReading(t, ca);
    RankOfReading(t, cb);
    RankOfReading(t, cab);
    MaxRankBounds(FindingsOn(t, cab));
    TotalRankOfSequence(t, Read(ca), Read(cb), Read(cab));
  }

  lemma {:induction false} ReadingIsRedirectSound(c: string)
    ensures RedirectSound(Read(c))
  {
    if RedirectsToSystem(Join(Tokens(c), " ")) { RedirectPhraseNeedsOperator(c); }
  }

  lemma {:induction false} RankOfSequenceWitness(t: Tables, a: string, b: string) returns (fetchedIntoShell: bool)
    requires TrimSpace(a) != "" && TrimSpace(b) != "" && SolidTables(t)
    ensures RiskRank(t, a + ";" + b) == SequenceRank(fetchedIntoShell, RiskRank(t, a), RiskRank(t, b))
  {
    fetchedIntoShell := FetchedIntoShell(Read(Normalized(a)), Read(Normalized(b)));
    RankOfSequence(t, a, b);
  }

  /** Sequencing never lowers the verdict on either part. */
  lemma {:induction false} SequencingIsMonotone(t: Tables, a: string, b: string)
    requires TrimSpace(a) != "" && TrimSpace(b) != "" && SolidTables(t)
    ensures RiskRank(t, a + ";" + b) >= Max(RiskRank(t, a), Max(RiskRank(t, b), Rank(Medium)))
  {
    var x := RankOfSequenceWitness(t, a, b);
    MaxRankBounds(Findings(t, a));
    MaxRankBounds(Findings(t, b));
    SequenceRankBounds(x, RiskRank(t, a), RiskRank(t, b));
  }

  // ---------------------------------------------------------------- blank parts

  /** The command `""`: not blank, but without any token. */
  const EMPTY_WORD: string := ['"', '"']

  lemma {:induction false} TokensOfEmptyWord()
    ensures Tokens(EMPTY_WORD) == [] && Tokens("") == []
  {
    var w := EMPTY_WORD;
    assert w[1..] == ['"'] && w[1..][1..] == [];
    assert Spaced(['"']) == ['"'] + Spaced([]);
    assert Spaced(w) == ['"'] + Spaced(['"']) == w;
    FieldsOfText("", w, "");
    assert w + "" == w && "" + w == w;
    assert Fields(w) == [w];
    ScanSingleEmptyWord();
    OneField(Dequote, w);
  }

  lemma {:induction false} ScanSingleEmptyWord()
    ensures Dequote(EMPTY_WORD) == ""
  {
    ScanDoublePiece([], [], None);
    assert ['"'] + PrintItems([]) + ['"'] + [] == EMPTY_WORD;
    assert "" + "" == "";
    assert ScanLine(EMPTY_WORD) == Scanned([""], false);
    assert Concat([""]) == "" + Concat([]);
  }

  lemma {:induction false} ReadingOfSeparator()
    ensures Read(";" + EMPTY_WORD) == Reading(";" + EMPTY_WORD, [";"], ";", [])
  {
    var c := ";" + EMPTY_WORD;
    assert "" + ";" + EMPTY_WORD == c;
    TokensOfSequence("", EMPTY_WORD);
    TokensOfEmptyWord();
    assert [] + [";"] + [] == [";"];
    InvocationsOfSequence([], []);
    assert InvocationsBy(Skipped, ProgramName, [], false) == [];
  }

  lemma {:induction false} OneCharacterCannotOccur(s: string, p: string)
    requires p != "" && p[0] !in s
    ensures !Contains(s, p)
  {
    forall i | 0 <= i <= |s| ensures !OccursAt(s, p, i) {
      if i + |p| <= |s| { assert s[i..i + |p|][0] == s[i]; }
    }
  }

  lemma {:induction false} NoPhrase(rules: seq<Rule>)
    requires SolidRules(rules)
    ensures PhraseFindings(rules, ";") == []
  {
    if rules != [] {
      assert rules[0].pattern[0] in rules[0].pattern;
      OneCharacterCannotOccur(";", rules[0].pattern);
      NoPhrase(rules[1..]);
    }
  }

  lemma {:induction false} NoProgram(rules: seq<Rule>)
    ensures ProgramFindings(rules, []) == []
  {
    if rules != [] { NoProgram(rules[1..]); }
  }

  lemma {:induction false} SeparatorIsHarmless(t: Tables, r: Reading)
    requires SolidTables(t) && r == Reading(";" + EMPTY_WORD, [";"], ";", [])
    ensures PipeRank(r) == 1 && ChainRank(r) == 2 && LocalRank(t, r) == 1
  {
    NoPhrase(t.criticalPhrases);
    NoPhrase(t.highPhrases);
    NoProgram(t.criticalPrograms);
    NoProgram(t.mediumPrograms);
    OneCharacterCannotOccur(r.text, "$(");
    OneCharacterCannotOccur(r.text, "`");
    RankOfOne("chaining", Medium);
    assert r.tokens[0] == ";";
  }

  /** A blank part is itself rated High, so sequencing can lower that verdict. */
  lemma {:induction false} BlankPart(t: Tables, x: string)
    requires TrimSpace(x) == "" && SolidTables(t)
    ensures RiskRank(t, x) == Rank(High) && RiskRank(t, x + (";" + EMPTY_WORD)) == Rank(Medium)
  {
    RankOfOne("empty", High);
    var c := ";" + EMPTY_WORD;
    var left, right := TrimSpaceSplits(x);
    assert AllSpace(x);
    TrimSpaceOf(x, c, "");
    assert x + c + "" == x + c;
    assert Lower(c) == c;
    assert Normalized(x + c) == c;
    RankOfNonBlank(t, x + c);
    RankOfReading(t, c);
    ReadingOfSeparator();
    SeparatorIsHarmless(t, Read(c));
  }

  lemma {:induction false} BlankPartLosesRank(t: Tables, a: string) returns (b: string)
    requires TrimSpace(a) == "" && SolidTables(t)
    ensures TrimSpace(b) != "" && RiskRank(t, a + ";" + b) < RiskRank(t, a)
  {
    b := EMPTY_WORD;
    BlankPart(t, a);
    ConcatAssociative(a, ";", b);
    EmptyWordIsNotBlank();
  }

  lemma {:induction false} EmptyWordIsNotBlank()
    ensures TrimSpace(EMPTY_WORD) != ""
  {
    TrimSpaceOf("", EMPTY_WORD, "");
    assert "" + EMPTY_WORD + "" == EMPTY_WORD;
  }

  /** Sequencing with any command keeps the verdict on `a` exactly when `a` is not blank. */
  lemma {:induction false} MonotoneExactlyWhenNonBlank(t: Tables, a: string)
    requires SolidTables(t)
    ensures TrimSpace(a) != "" <==> forall b :: TrimSpace(b) != "" ==> RiskRank(t, a + ";" + b) >= RiskRank(t, a)
  {
    if TrimSpace(a) != "" {
      forall b | TrimSpace(b) != "" ensures RiskRank(t, a + ";" + b) >= RiskRank(t, a) {
        SequencingIsMonotone(t, a, b);
      }
    } else {
      var b := BlankPartLosesRank(t, a);
    }
  }
}
