/** The command risk parser: tokens, invocations, findings and the verdict. */
module CommandRisk {
  import opened Text
  import opened Shell

  // ---------------------------------------------------------------- tables

  datatype Severity = Low | Medium | High | Critical

  function Rank(s: Severity): int {
    match s case Critical => 4 case High => 3 case Medium => 2 case Low => 1
  }

  datatype Rule = Rule(pattern: string, severity: Severity)
  datatype Finding = Finding(signal: string, severity: Severity)
  datatype Verdict = Verdict(risk: Severity, findings: seq<Finding>)

  /** The ordered rule tables: program names match in command position, phrases match as
      substrings of the normalized command. */
  datatype Tables = Tables(criticalPrograms: seq<Rule>, criticalPhrases: seq<Rule>, highPhrases: seq<Rule>, mediumPrograms: seq<Rule>)

  /** The tables the package ships. */
  const RULES := Tables(
    [Rule("mkfs", Critical), Rule("shutdown", Critical), Rule("reboot", Critical), Rule("halt", Critical)],
    [Rule("dd if=", Critical), Rule("dd of=", Critical), Rule(":(){", Critical), Rule("> /dev/sda", Critical)],
    [Rule("kubectl delete", High), Rule("apt-get install", High), Rule("apt install", High), Rule("yum install", High),
     Rule("dnf install", High), Rule("apk add", High), Rule("pip install", High)],
    [Rule("kill", Medium), Rule("killall", Medium), Rule("pkill", Medium), Rule("chmod", Medium), Rule("chown", Medium),
     Rule("curl", Medium), Rule("wget", Medium), Rule("nc", Medium), Rule("netcat", Medium), Rule("ssh", Medium),
     Rule("scp", Medium), Rule("tar", Medium), Rule("base64", Medium), Rule("mv", Medium), Rule("cp", Medium)])

  const SYSTEM_PATHS := ["/etc/", "/dev/", "/boot/", "/sys/", "/proc/", "/usr/", "/bin/"]

  const FETCH_PROGRAMS := ["curl", "wget", "fetch"]
  const SHELL_NAMES := ["sh", "bash", "zsh", "ash", "dash", "ksh", "fish", "csh", "tcsh"]
  const WRAPPERS := ["sudo", "env", "nohup", "exec", "time", "busybox", "xargs"]

  // ---------------------------------------------------------------- tokens

  predicate Doubles(c: char) { c == '&' || c == '|' || c == '>' }

  predicate StandsAlone(c: char) { c == '|' || c == ';' || c == '>' || c == '<' }

  /** The length of the operator a text starts with, longest first (`&&` `||` `>>`, then `|` `;` `>` `<`);
      0 when there is none, so a bare `&` is left alone. */
  function OperatorLength(s: string): (n: nat)
    ensures n <= |s|
  {
    if |s| >= 2 && s[0] == s[1] && Doubles(s[0]) then 2 else
    if |s| >= 1 && StandsAlone(s[0]) then 1 else 0
  }

  predicate IsOperator(t: string) {
    t == "&&" || t == "||" || t == ">>" || t == "|" || t == ";" || t == ">" || t == "<"
  }

  /** How much of a text one step of the padding loop reads, and what it writes. */
  function Consumed(s: string): (n: nat)
    requires s != []
    ensures 1 <= n <= |s|
  {
    if OperatorLength(s) == 0 then 1 else OperatorLength(s)
  }

  function Emitted(s: string): string
    requires s != []
  {
    var op := s[..OperatorLength(s)];
    if op == "" then [s[0]] else " " + op + " "
  }

  /** The text with every operator set off by spaces, quoted or not. */
  function Spaced(s: string): string
    decreases |s|
  {
    if s == [] then "" else Emitted(s) + Spaced(s[Consumed(s)..])
  }

  function FlushField(cur: string): seq<string> { if cur == "" then [] else [cur] }

  function FieldsFrom(cur: string, s: string): seq<string>
    decreases |s|
  {
    if s == [] then FlushField(cur) else
    if IsSpace(s[0]) then FlushField(cur) + FieldsFrom("", s[1..]) else
    FieldsFrom(cur + [s[0]], s[1..])
  }

  /** `strings.Fields`. */
  function Fields(s: string): seq<string> { FieldsFrom("", s) }

  /** `shellDequote`: the words of one field, concatenated, open quote or not. */
  function Dequote(field: string): string { Concat(ScanLine(field).words) }

  /** The images of the parts under `f`, without the empty ones. */
  function KeepNonEmpty(f: string -> string, parts: seq<string>): seq<string> {
    if parts == [] then [] else FlushField(f(parts[0])) + KeepNonEmpty(f, parts[1..])
  }

  function Tokens(c: string): seq<string> { KeepNonEmpty(Dequote, Fields(Spaced(c))) }

  lemma {:induction false} KeepNonEmptyConcat(f: string -> string, a: seq<string>, b: seq<string>)
    ensures KeepNonEmpty(f, a + b) == KeepNonEmpty(f, a) + KeepNonEmpty(f, b)
  {
    if a == [] {
      assert a + b == b;
    } else {
      assert (a + b)[1..] == a[1..] + b;
      KeepNonEmptyConcat(f, a[1..], b);
    }
  }

  lemma {:induction false} OneField(f: string -> string, s: string)
    ensures KeepNonEmpty(f, [s]) == FlushField(f(s))
  {
    assert [s][1..] == [];
  }

  lemma {:induction false} SpacedStep(c: string, i: nat)
    requires i < |c|
    ensures Spaced(c[i..]) == Emitted(c[i..]) + Spaced(c[i + Consumed(c[i..])..])
  {
    var n := Consumed(c[i..]);
    assert c[i..][n..] == c[i + n..];
  }

  method PadStep(c: string, i: nat) returns (text: string, n: nat)
    requires i < |c|
    ensures text == Emitted(c[i..]) && n == Consumed(c[i..])
  {
    n := OperatorLength(c[i..]);
    if n == 0 {
      text, n := [c[i]], 1;
    } else {
      text := " " + c[i..][..n] + " ";
    }
  }

  method SetOffOperators(c: string) returns (b: string)
    ensures b == Spaced(c)
  {
    b := "";
    var i := 0;
    while i < |c|
      invariant 0 <= i <= |c|
      invariant Spaced(c) == b + Spaced(c[i..])
    {
      SpacedStep(c, i);
      var text, n := PadStep(c, i);
      ConcatAssociative(b, text, Spaced(c[i + n..]));
      b, i := b + text, i + n;
    }
  }

  /** `shellDequote`. */
  method ShellDequote(field: string) returns (t: string)
    ensures t == Dequote(field)
  {
    var words, _ := ShellWords(field);
    t := Concat(words);
  }

  method CommandTokens(c: string) returns (out: seq<string>)
    ensures out == Tokens(c)
  {
    var b := SetOffOperators(c);
    var fields := Fields(b);
    out := [];
    var k := 0;
    while k < |fields|
      invariant 0 <= k <= |fields|
      invariant KeepNonEmpty(Dequote, fields) == out + KeepNonEmpty(Dequote, fields[k..])
    {
      out := AppendToken(out, fields, k);
      k := k + 1;
    }
  }

  method AppendToken(out: seq<string>, fields: seq<string>, k: nat) returns (r: seq<string>)
    requires k < |fields|
    ensures out + KeepNonEmpty(Dequote, fields[k..]) == r + KeepNonEmpty(Dequote, fields[k + 1..])
  {
    var t := ShellDequote(fields[k]);
    r := if t != "" then out + [t] else out;
    ConcatAssociative(out, FlushField(t), KeepNonEmpty(Dequote, fields[k + 1..]));
  }

  // ---------------------------------------------------------------- tokens of `a;b`

  lemma {:induction false} StepBeforeSeparator(a: string, b: string)
    requires a != []
    ensures Emitted(a + ";" + b) == Emitted(a) && Consumed(a + ";" + b) == Consumed(a)
  {
    assert OperatorLength(a + ";" + b) == OperatorLength(a);
  }

  lemma {:induction false} SpacedSeparator(b: string)
    ensures Spaced("" + ";" + b) == " ; " + Spaced(b)
  {
    var s := "" + ";" + b;
    assert s[1..] == b;
    assert Emitted(s) == " ; " && Consumed(s) == 1;
  }

  lemma {:induction false} DropBefore(a: string, sep: string, b: string, n: nat)
    requires n <= |a|
    ensures (a + sep + b)[n..] == a[n..] + sep + b
  {}

  lemma {:induction false} SpacedBefore(f: string -> string, a: string, b: string)
    requires f == Spaced && a != []
    ensures f(a + ";" + b) == Emitted(a) + f(a[Consumed(a)..] + ";" + b)
  {
    StepBeforeSeparator(a, b);
    DropBefore(a, ";", b, Consumed(a));
  }

  lemma {:induction false} SpacedSequence(a: string, b: string)
    ensures Spaced(a + ";" + b) == Spaced(a) + " ; " + Spaced(b)
    decreases |a|
  {
    SpacedSequenceBy(Spaced, a, b);
  }

  lemma {:induction false} SpacedSequenceBy(f: string -> string, a: string, b: string)
    requires f == Spaced
    ensures f(a + ";" + b) == f(a) + " ; " + f(b)
    decreases |a|
  {
    if a == [] {
      SpacedSeparator(b);
      assert f(a) == "" && f(a) + " ; " == " ; ";
      assert a == "";
    } else {
      var e, rest := Emitted(a), a[Consumed(a)..];
      SpacedSequenceBy(f, rest, b);
      SpacedBefore(f, a, b);
      Regroup(f(a + ";" + b), f(a), e, f(rest), " ; ", f(b));
    }
  }

  lemma {:induction false} Regroup(whole: string, left: string, e: string, rest: string, sep: string, right: string)
    requires whole == e + (rest + sep + right) && left == e + rest
    ensures whole == left + sep + right
  {
    ConcatAssociative(e, rest + sep, right);
    ConcatAssociative(e, rest, sep);
  }

  lemma {:induction false} FieldsSequence(cur: string, a: string, b: string)
    ensures FieldsFrom(cur, a + " ; " + b) == FieldsFrom(cur, a) + [";"] + Fields(b)
    decreases |a|
  {
    var s := a + " ; " + b;
    if a == [] {
      var t := "; " + b;
      assert s[1..] == t;
      assert t[1..] == " " + b;
      assert (" " + b)[1..] == b;
      assert "" + ";" == ";";
      assert FieldsFrom("", t) == FieldsFrom(";", " " + b) == [";"] + Fields(b);
    } else {
      assert s[1..] == a[1..] + " ; " + b;
      if IsSpace(a[0]) {
        FieldsSequence("", a[1..], b);
      } else {
        FieldsSequence(cur + [a[0]], a[1..], b);
      }
    }
  }

  /** The tokens of `a;b` are those of `a`, the separator, and those of `b`, whatever is quoted. */
  lemma {:induction false} TokensOfSequence(a: string, b: string)
    ensures Tokens(a + ";" + b) == Tokens(a) + [";"] + Tokens(b)
  {
    var f: string -> string := Dequote;
    var fa, fb := Fields(Spaced(a)), Fields(Spaced(b));
    SpacedSequence(a, b);
    FieldsSequence("", Spaced(a), Spaced(b));
    KeepNonEmptyAround(f, fa, ";", fb);
  }

  lemma {:induction false} KeepNonEmptyAround(f: string -> string, a: seq<string>, mid: string, b: seq<string>)
    requires f(mid) == mid != ""
    ensures KeepNonEmpty(f, a + [mid] + b) == KeepNonEmpty(f, a) + [mid] + KeepNonEmpty(f, b)
  {
    KeepNonEmptyConcat(f, a + [mid], b);
    KeepNonEmptyConcat(f, a, [mid]);
    assert KeepNonEmpty(f, [mid]) == FlushField(mid) + KeepNonEmpty(f, []);
  }

  lemma {:induction false} StepOnSpace(s: string)
    requires s != [] && IsSpace(s[0])
    ensures Emitted(s) == [s[0]] && Consumed(s) == 1
  {}

  lemma {:induction false} StepBeforeSpaces(s: string, pad: string)
    requires s != [] && AllSpace(pad)
    ensures Emitted(s + pad) == Emitted(s) && Consumed(s + pad) == Consumed(s)
  {
    assert OperatorLength(s + pad) == OperatorLength(s);
  }

  lemma {:induction false} SpacedPadLeft(pad: string, s: string)
    requires AllSpace(pad)
    ensures Spaced(pad + s) == pad + Spaced(s)
  {
    if pad == [] {
      assert pad + s == s;
    } else {
      assert (pad + s)[1..] == pad[1..] + s;
      StepOnSpace(pad + s);
      SpacedPadLeft(pad[1..], s);
      ConcatAssociative([pad[0]], pad[1..], Spaced(s));
      assert [pad[0]] + pad[1..] == pad;
    }
  }

  lemma {:induction false} FieldsPadLeft(pad: string, s: string)
    requires AllSpace(pad)
    ensures Fields(pad + s) == Fields(s)
  {
    if pad == [] {
      assert pad + s == s;
    } else {
      assert (pad + s)[1..] == pad[1..] + s;
      FieldsPadLeft(pad[1..], s);
    }
  }

  lemma {:induction false} SpacedPadRight(s: string, pad: string)
    requires AllSpace(pad)
    ensures Spaced(s + pad) == Spaced(s) + pad
    decreases |s|
  {
    if s == [] {
      SpacedPadLeft(pad, "");
      assert s + pad == pad + "" == pad;
    } else {
      StepBeforeSpaces(s, pad);
      var n := Consumed(s);
      assert (s + pad)[n..] == s[n..] + pad;
      SpacedPadRight(s[n..], pad);
    }
  }

  lemma {:induction false} FieldsPadRight(cur: string, s: string, pad: string)
    requires AllSpace(pad)
    ensures FieldsFrom(cur, s + pad) == FieldsFrom(cur, s)
    decreases |s|
  {
    if s == [] {
      assert s + pad == pad;
      if pad != [] {
        FieldsPadLeft(pad[1..], "");
        assert pad[1..] + "" == pad[1..];
      }
    } else {
      assert (s + pad)[1..] == s[1..] + pad;
      FieldsPadRight(if IsSpace(s[0]) then "" else cur + [s[0]], s[1..], pad);
    }
  }

  lemma {:induction false} TokensPadLeft(pad: string, s: string)
    requires AllSpace(pad)
    ensures Tokens(pad + s) == Tokens(s)
  {
    SpacedPadLeft(pad, s);
    FieldsPadLeft(pad, Spaced(s));
  }

  lemma {:induction false} TokensPadRight(s: string, pad: string)
    requires AllSpace(pad)
    ensures Tokens(s + pad) == Tokens(s)
  {
    SpacedPadRight(s, pad);
    FieldsPadRight("", Spaced(s), pad);
  }

  // ---------------------------------------------------------------- invocations

  datatype Invocation = Invocation(program: string, args: seq<string>, pipedInto: bool)

  /** `shellBase`: what follows the last slash. */
  function Base(t: string): string {
    if exists i :: 0 <= i < |t| && t[i] == '/' then Base(t[1..]) else t
  }

  predicate IsAssignment(t: string) {
    exists n :: 1 <= n < |t| && t[n] == '=' && forall i :: 0 <= i < n ==>
      (t[i] == '_' || 'a' <= t[i] <= 'z' || 'A' <= t[i] <= 'Z' || (i > 0 && '0' <= t[i] <= '9'))
  }

  predicate Skipped(t: string) { IsOperator(t) || IsAssignment(t) || Base(t) in WRAPPERS }

  function ProgramName(t: string): string { Base(Dequote(t)) }

  predicate StartsCommand(t: string) { t == "-c" || t == "-lc" }

  /** Arguments run to the next operator, or to a `-c` whose operand is a command again. */
  function ArgsOf(ts: seq<string>): seq<string> {
    if ts == [] || IsOperator(ts[0]) || StartsCommand(ts[0]) then [] else [ts[0]] + ArgsOf(ts[1..])
  }

  function AfterArgs(ts: seq<string>): seq<string>
    ensures |AfterArgs(ts)| <= |ts|
  {
    if ts == [] || IsOperator(ts[0]) then ts else
    if StartsCommand(ts[0]) then ts[1..] else AfterArgs(ts[1..])
  }

  function PipedAfter(t: string, piped: bool): bool { t == "|" || (piped && !IsOperator(t)) }

  /** The invocations of a token list, given which tokens are skipped in command position and
      how a program token names its program. */
  function InvocationsBy(skip: string -> bool, name: string -> string, ts: seq<string>, piped: bool): seq<Invocation>
    decreases |ts|
  {
    if ts == [] then [] else
    if skip(ts[0]) then InvocationsBy(skip, name, ts[1..], PipedAfter(ts[0], piped)) else
    [Invocation(name(ts[0]), ArgsOf(ts[1..]), piped)] + InvocationsBy(skip, name, AfterArgs(ts[1..]), false)
  }

  function Invocations(ts: seq<string>): seq<Invocation> { InvocationsBy(Skipped, ProgramName, ts, false) }

  method SkipPrefix(skip: string -> bool, ghost name: string -> string, tokens: seq<string>, from: nat, wasPiped: bool)
    returns (i: nat, piped: bool)
    requires from <= |tokens|
    ensures from <= i <= |tokens| && (i < |tokens| ==> !skip(tokens[i]))
    ensures InvocationsBy(skip, name, tokens[from..], wasPiped) == InvocationsBy(skip, name, tokens[i..], piped)
  {
    i, piped := from, wasPiped;
    while i < |tokens| && skip(tokens[i])
      invariant from <= i <= |tokens|
      invariant InvocationsBy(skip, name, tokens[from..], wasPiped) == InvocationsBy(skip, name, tokens[i..], piped)
    {
      assert tokens[i..][1..] == tokens[i + 1..];
      if tokens[i] == "|" {
        piped := true;
      } else if IsOperator(tokens[i]) {
        piped := false;
      }
      i := i + 1;
    }
  }

  method TakeArgs(tokens: seq<string>, from: nat) returns (args: seq<string>, i: nat)
    requires from <= |tokens|
    ensures from <= i <= |tokens|
    ensures args == ArgsOf(tokens[from..]) && tokens[i..] == AfterArgs(tokens[from..])
  {
    args, i := [], from;
    while i < |tokens| && !IsOperator(tokens[i])
      invariant from <= i <= |tokens|
      invariant ArgsOf(tokens[from..]) == args + ArgsOf(tokens[i..])
      invariant AfterArgs(tokens[from..]) == AfterArgs(tokens[i..])
    {
      assert tokens[i..][1..] == tokens[i + 1..];
      if StartsCommand(tokens[i]) {
        i := i + 1;
        return;
      }
      args := args + [tokens[i]];
      i := i + 1;
    }
  }

  method ParseInvocations(skip: string -> bool, name: string -> string, tokens: seq<string>) returns (out: seq<Invocation>)
    ensures out == InvocationsBy(skip, name, tokens, false)
  {
    out := [];
    var i := 0;
    var piped := false;
    while i < |tokens|
      invariant 0 <= i <= |tokens|
      invariant InvocationsBy(skip, name, tokens, false) == out + InvocationsBy(skip, name, tokens[i..], piped)
    {
      i, piped := SkipPrefix(skip, name, tokens, i, piped);
      if i >= |tokens| { break; }
      InvocationStep(skip, name, tokens, i, piped);
      var program, into := name(tokens[i]), piped;
      piped := false;
      var args;
      args, i := TakeArgs(tokens, i + 1);
      ConcatAssociative(out, [Invocation(program, args, into)], InvocationsBy(skip, name, tokens[i..], false));
      out := out + [Invocation(program, args, into)];
    }
  }

  lemma {:induction false} InvocationStep(skip: string -> bool, name: string -> string, tokens: seq<string>, i: nat, piped: bool)
    requires i < |tokens| && !skip(tokens[i])
    ensures var rest := tokens[i + 1..];
            InvocationsBy(skip, name, tokens[i..], piped) ==
            [Invocation(name(tokens[i]), ArgsOf(rest), piped)] + InvocationsBy(skip, name, AfterArgs(rest), false)
  {
    assert tokens[i..][1..] == tokens[i + 1..];
  }

  /** `commandInvocations`. */
  method CommandInvocations(tokens: seq<string>) returns (out: seq<Invocation>)
    ensures out == Invocations(tokens)
  {
    out := ParseInvocations(Skipped, ProgramName, tokens);
  }

  lemma {:induction false} ArgsBeforeSeparator(a: seq<string>, b: seq<string>)
    ensures ArgsOf(a + [";"] + b) == ArgsOf(a)
    ensures AfterArgs(a + [";"] + b) == AfterArgs(a) + [";"] + b
  {
    var s := a + [";"] + b;
    if a != [] {
      assert s[1..] == a[1..] + [";"] + b;
      ArgsBeforeSeparator(a[1..], b);
    }
  }

  /** A `;` resets the parser: the invocations on its two sides do not influence each other. */
  lemma {:induction false} InvocationsAround(skip: string -> bool, name: string -> string, a: seq<string>, b: seq<string>, piped: bool)
    requires skip(";")
    ensures InvocationsBy(skip, name, a + [";"] + b, piped) == InvocationsBy(skip, name, a, piped) + InvocationsBy(skip, name, b, false)
    decreases |a|
  {
    var s := a + [";"] + b;
    if a == [] {
      assert s == [";"] + b;
      assert s[1..] == b;
    } else {
      assert s[1..] == a[1..] + [";"] + b;
      if skip(a[0]) {
        InvocationsAround(skip, name, a[1..], b, PipedAfter(a[0], piped));
      } else {
        ArgsBeforeSeparator(a[1..], b);
        InvocationsAround(skip, name, AfterArgs(a[1..]), b, false);
      }
    }
  }

  lemma {:induction false} InvocationsOfSequence(a: seq<string>, b: seq<string>)
    ensures Invocations(a + [";"] + b) == Invocations(a) + Invocations(b)
  {
    InvocationsAround(Skipped, ProgramName, a, b, false);
  }

  // ---------------------------------------------------------------- findings

  predicate HasProgram(invs: seq<Invocation>, name: string) {
    exists i :: 0 <= i < |invs| && (invs[i].program == name || HasPrefix(invs[i].program, name + "."))
  }

  predicate Fetches(invs: seq<Invocation>) {
    exists i :: 0 <= i < |invs| && invs[i].program in FETCH_PROGRAMS
  }

  predicate PipesIntoShell(invs: seq<Invocation>) {
    exists i :: 0 <= i < |invs| && invs[i].pipedInto && invs[i].program in SHELL_NAMES
  }

  predicate HasFlag(args: seq<string>, letter: char, long: string) {
    exists i :: 0 <= i < |args| && (args[i] == long || (HasPrefix(args[i], "-") && !HasPrefix(args[i], "--") && letter in args[i][1..]))
  }

  predicate Recursive(args: seq<string>) { HasFlag(args, 'r', "--recursive") }

  predicate IsRootTarget(arg: string) { arg in ["/", "//", "/*", "/.", "/./"] }

  predicate IsOption(arg: string) { HasPrefix(arg, "-") }

  function Without(opt: string -> bool, args: seq<string>): seq<string> {
    if args == [] then [] else (if opt(args[0]) then [] else [args[0]]) + Without(opt, args[1..])
  }

  function Targets(args: seq<string>): seq<string> { Without(IsOption, args) }

  predicate IsOpenPermission(mode: string) { mode == "777" || mode == "0777" || mode == "a+rwx" }

  /** What `destructiveInvocationFindings` reports, signal by signal: for which invocations. */
  ghost predicate Warrants(inv: Invocation, f: Finding) {
    var args := inv.args;
    || (f == Finding("rm -rf /", Critical) && inv.program == "rm" && Recursive(args) && NamesRoot(args))
    || (f == Finding("rm -rf", High) && inv.program == "rm" && Recursive(args) && !NamesRoot(args) && HasFlag(args, 'f', "--force"))
    || (f == Finding("rm -r", High) && inv.program == "rm" && Recursive(args) && !NamesRoot(args) && !HasFlag(args, 'f', "--force"))
    || (f == Finding("chmod 777 /", Critical) && inv.program == "chmod" && OpensRoot(args))
    || (f == Finding("chmod -r", High) && inv.program == "chmod" && Recursive(args))
    || (f == Finding("chown -r", High) && inv.program == "chown" && Recursive(args))
  }

  /** Some argument is the file system root. */
  predicate NamesRoot(args: seq<string>) { exists a :: a in args && IsRootTarget(a) }

  /** The first two arguments that are not options are an open mode and the root. */
  ghost predicate OpensRoot(args: seq<string>) { LeadTwo(IsOption, IsOpenPermission, IsRootTarget, args) }

  /** Only options come before some argument with property `root`. */
  predicate Leads(opt: string -> bool, root: string -> bool, args: seq<string>) {
    exists j :: 0 <= j < |args| && root(args[j]) && forall k :: 0 <= k < j ==> opt(args[k])
  }

  predicate LeadAt(opt: string -> bool, open: string -> bool, root: string -> bool, args: seq<string>, i: int, j: int) {
    0 <= i < j < |args| && open(args[i]) && root(args[j]) && forall k :: 0 <= k < j && k != i ==> opt(args[k])
  }

  ghost predicate LeadTwo(opt: string -> bool, open: string -> bool, root: string -> bool, args: seq<string>) {
    exists i, j :: LeadAt(opt, open, root, args, i, j)
  }

  function DestructiveOf(inv: Invocation): seq<Finding> {
    var targets := Targets(inv.args);
    if inv.program == "rm" then
      if !Recursive(inv.args) then [] else
      if exists t :: t in targets && IsRootTarget(t) then [Finding("rm -rf /", Critical)] else
      if HasFlag(inv.args, 'f', "--force") then [Finding("rm -rf", High)] else [Finding("rm -r", High)]
    else if inv.program == "chmod" then
      (if |targets| >= 2 && IsOpenPermission(targets[0]) && IsRootTarget(targets[1]) then [Finding("chmod 777 /", Critical)] else []) +
      (if Recursive(inv.args) then [Finding("chmod -r", High)] else [])
    else if inv.program == "chown" then
      if Recursive(inv.args) then [Finding("chown -r", High)] else []
    else []
  }

  function Destructive(invs: seq<Invocation>): seq<Finding> {
    if invs == [] then [] else DestructiveOf(invs[0]) + Destructive(invs[1..])
  }

  function PipeFindings(ts: seq<string>, invs: seq<Invocation>): seq<Finding> {
    if PipesIntoShell(invs) && Fetches(invs) then [Finding("pipe_to_shell", Critical)] else
    if "|" in ts then [Finding("pipe", Medium)] else []
  }

  function SubshellFindings(c: string): seq<Finding> {
    if Contains(c, "$(") || Contains(c, "`") then [Finding("subshell", Medium)] else []
  }

  function ChainFindings(ts: seq<string>): seq<Finding> {
    if "&&" in ts || "||" in ts || ";" in ts then [Finding("chaining", Medium)] else []
  }

  predicate HasRedirect(ts: seq<string>) { ">" in ts || ">>" in ts }

  predicate RedirectsToSystem(norm: string) {
    exists k :: 0 <= k < |SYSTEM_PATHS| && Contains(norm, "> " + SYSTEM_PATHS[k])
  }

  function RedirectFindings(ts: seq<string>, norm: string): seq<Finding> {
    if HasRedirect(ts) && RedirectsToSystem(norm) then [Finding("redirect_system", High)] else []
  }

  function ProgramFindings(rules: seq<Rule>, invs: seq<Invocation>): seq<Finding> {
    if rules == [] then [] else
    (if HasProgram(invs, rules[0].pattern) then [Finding(rules[0].pattern, rules[0].severity)] else []) + ProgramFindings(rules[1..], invs)
  }

  function PhraseFindings(rules: seq<Rule>, norm: string): seq<Finding> {
    if rules == [] then [] else
    (if Contains(norm, rules[0].pattern) then [Finding(TrimSpace(rules[0].pattern), rules[0].severity)] else []) + PhraseFindings(rules[1..], norm)
  }

  function MetacharacterFindings(c: string, ts: seq<string>, norm: string, invs: seq<Invocation>): seq<Finding> {
    PipeFindings(ts, invs) + SubshellFindings(c) + ChainFindings(ts) + RedirectFindings(ts, norm)
  }

  function TableFindings(t: Tables, norm: string, invs: seq<Invocation>): seq<Finding> {
    ProgramFindings(t.criticalPrograms, invs) + PhraseFindings(t.criticalPhrases, norm) +
    PhraseFindings(t.highPhrases, norm) + ProgramFindings(t.mediumPrograms, invs)
  }

  /** The findings on a non-blank lower-case command, in the order the parser adds them. */
  function FindingsOn(t: Tables, c: string): seq<Finding> {
    var ts := Tokens(c);
    var norm := Join(ts, " ");
    var invs := Invocations(ts);
    MetacharacterFindings(c, ts, norm, invs) + Destructive(invs) + TableFindings(t, norm, invs)
  }

  function Normalized(command: string): string { Lower(TrimSpace(command)) }

  function Findings(t: Tables, command: string): seq<Finding> {
    var c := Normalized(command);
    if c == "" then [Finding("empty", High)] else FindingsOn(t, c)
  }

  function MaxRank(fs: seq<Finding>): int {
    if fs == [] then 1 else
    var r := MaxRank(fs[1..]);
    if Rank(fs[0].severity) > r then Rank(fs[0].severity) else r
  }

  /** The rank of the verdict on a command, under the given rule tables. */
  function RiskRank(t: Tables, command: string): int { MaxRank(Findings(t, command)) }

  function Max(a: int, b: int): int { if a > b then a else b }

  lemma {:induction false} MaxRankConcat(a: seq<Finding>, b: seq<Finding>)
    ensures MaxRank(a + b) == Max(MaxRank(a), MaxRank(b))
    ensures 1 <= MaxRank(a) <= 4
  {
    if a == [] {
      assert a + b == b;
      MaxRankBounds(b);
    } else {
      assert (a + b)[1..] == a[1..] + b;
      MaxRankConcat(a[1..], b);
    }
  }

  lemma {:induction false} MaxRankBounds(a: seq<Finding>)
    ensures 1 <= MaxRank(a) <= 4
  {
    if a != [] { MaxRankBounds(a[1..]); }
  }

  // ---------------------------------------------------------------- the parser's loops

  /** `destructiveInvocationFindings`: exactly the warranted findings, invocation by invocation. */
  method DestructiveInvocationFindings(invs: seq<Invocation>) returns (out: seq<Finding>)
    ensures forall f :: f in out <==> exists k :: 0 <= k < |invs| && Warrants(invs[k], f)
    ensures out == Destructive(invs)
  {
    out := [];
    for k := 0 to |invs|
      invariant Destructive(invs) == out + Destructive(invs[k..])
      invariant forall f :: f in out <==> exists j :: 0 <= j < k && Warrants(invs[j], f)
    {
      assert invs[k..][1..] == invs[k + 1..];
      WarrantedExactly(invs[k]);
      var found := FindingsOf(invs[k]);
      ConcatAssociative(out, found, Destructive(invs[k + 1..]));
      out := out + found;
    }
  }

  method TargetArgs(args: seq<string>) returns (out: seq<string>)
    ensures out == Targets(args)
  {
    out := [];
    for k := 0 to |args|
      invariant Targets(args) == out + Without(IsOption, args[k..])
    {
      WithoutStep(IsOption, args, k);
      ConcatAssociative(out, [args[k]], Without(IsOption, args[k + 1..]));
      if !IsOption(args[k]) { out := out + [args[k]]; }
    }
  }

  lemma {:induction false} WithoutStep(opt: string -> bool, args: seq<string>, k: nat)
    requires k < |args|
    ensures Without(opt, args[k..]) == if opt(args[k]) then Without(opt, args[k + 1..]) else [args[k]] + Without(opt, args[k + 1..])
  {
    assert args[k..][1..] == args[k + 1..];
    assert [] + Without(opt, args[k + 1..]) == Without(opt, args[k + 1..]);
  }

  method FindingsOf(inv: Invocation) returns (out: seq<Finding>)
    ensures out == DestructiveOf(inv)
  {
    out := [];
    var targets := TargetArgs(inv.args);
    if inv.program == "rm" && Recursive(inv.args) {
      for k := 0 to |targets|
        invariant forall j :: 0 <= j < k ==> !IsRootTarget(targets[j])
      {
        if IsRootTarget(targets[k]) { return [Finding("rm -rf /", Critical)]; }
      }
      if HasFlag(inv.args, 'f', "--force") {
        out := [Finding("rm -rf", High)];
      } else {
        out := [Finding("rm -r", High)];
      }
    } else if inv.program == "chmod" {
      if |targets| >= 2 && IsOpenPermission(targets[0]) && IsRootTarget(targets[1]) { out := out + [Finding("chmod 777 /", Critical)]; }
      if Recursive(inv.args) { out := out + [Finding("chmod -r", High)]; }
    } else if inv.program == "chown" && Recursive(inv.args) {
      out := [Finding("chown -r", High)];
    }
  }

  lemma {:induction false} RootAmongTargets(opt: string -> bool, root: string -> bool, args: seq<string>)
    requires forall a :: root(a) ==> !opt(a)
    ensures (exists t :: t in Without(opt, args) && root(t)) <==> exists a :: a in args && root(a)
  {
    if args != [] {
      RootAmongTargets(opt, root, args[1..]);
      assert args == [args[0]] + args[1..];
    }
  }

  /** The first target is the first argument that is not an option. */
  lemma {:induction false} FirstTarget(opt: string -> bool, root: string -> bool, args: seq<string>)
    requires forall a :: root(a) ==> !opt(a)
    ensures |Without(opt, args)| >= 1 && root(Without(opt, args)[0]) <==> Leads(opt, root, args)
  {
    if args != [] {
      FirstTarget(opt, root, args[1..]);
      LeadsShift(opt, root, args);
    }
  }

  lemma {:induction false} LeadsShift(opt: string -> bool, root: string -> bool, args: seq<string>)
    requires args != [] && forall a :: root(a) ==> !opt(a)
    ensures Leads(opt, root, args) <==> if opt(args[0]) then Leads(opt, root, args[1..]) else root(args[0])
  {
    var rest := args[1..];
    assert forall i :: 0 <= i < |rest| ==> rest[i] == args[i + 1];
    assert forall i :: 1 <= i < |args| ==> args[i] == rest[i - 1];
    if j :| 0 <= j < |args| && root(args[j]) && forall k :: 0 <= k < j ==> opt(args[k]) {
      if opt(args[0]) { assert root(rest[j - 1]) && forall k :: 0 <= k < j - 1 ==> opt(rest[k]); }
    }
    if opt(args[0]) && Leads(opt, root, rest) {
      var j :| 0 <= j < |rest| && root(rest[j]) && forall k :: 0 <= k < j ==> opt(rest[k]);
      assert root(args[j + 1]);
    }
  }

  lemma {:induction false} FirstTwoTargets(opt: string -> bool, open: string -> bool, root: string -> bool, args: seq<string>)
    requires forall a :: root(a) || open(a) ==> !opt(a)
    ensures |Without(opt, args)| >= 2 && open(Without(opt, args)[0]) && root(Without(opt, args)[1]) <==> LeadTwo(opt, open, root, args)
  {
    if args != [] {
      FirstTwoTargets(opt, open, root, args[1..]);
      FirstTarget(opt, root, args[1..]);
      LeadTwoShift(opt, open, root, args);
    }
  }

  lemma {:induction false} LeadTwoDown(opt: string -> bool, open: string -> bool, root: string -> bool, args: seq<string>, i: int, j: int)
    requires LeadAt(opt, open, root, args, i, j) && forall a :: root(a) || open(a) ==> !opt(a)
    ensures if i == 0 then Leads(opt, root, args[1..]) else opt(args[0]) && LeadAt(opt, open, root, args[1..], i - 1, j - 1)
  {
    assert root(args[1..][j - 1]);
  }

  lemma {:induction false} LeadTwoUp(opt: string -> bool, open: string -> bool, root: string -> bool, args: seq<string>, i: int, j: int)
    requires args != [] && opt(args[0]) && LeadAt(opt, open, root, args[1..], i, j)
    ensures LeadAt(opt, open, root, args, i + 1, j + 1)
  {
    forall k | 0 <= k < j + 1 && k != i + 1 ensures opt(args[k]) {
      if k > 0 { assert args[1..][k - 1] == args[k]; }
    }
  }

  lemma {:induction false} LeadTwoStart(opt: string -> bool, open: string -> bool, root: string -> bool, args: seq<string>, j: int)
    requires args != [] && open(args[0]) && 0 <= j < |args| - 1 && root(args[1..][j]) && forall k :: 0 <= k < j ==> opt(args[1..][k])
    ensures LeadAt(opt, open, root, args, 0, j + 1)
  {
    forall k | 0 < k < j + 1 ensures opt(args[k]) { assert args[1..][k - 1] == args[k]; }
  }

  lemma {:induction false} LeadTwoShift(opt: string -> bool, open: string -> bool, root: string -> bool, args: seq<string>)
    requires args != [] && forall a :: root(a) || open(a) ==> !opt(a)
    ensures LeadTwo(opt, open, root, args) <==>
            if opt(args[0]) then LeadTwo(opt, open, root, args[1..]) else open(args[0]) && Leads(opt, root, args[1..])
  {
    if i, j :| LeadAt(opt, open, root, args, i, j) { LeadTwoDown(opt, open, root, args, i, j); }
    if opt(args[0]) {
      if i, j :| LeadAt(opt, open, root, args[1..], i, j) { LeadTwoUp(opt, open, root, args, i, j); }
    } else if open(args[0]) && Leads(opt, root, args[1..]) {
      var rest := args[1..];
      var j :| 0 <= j < |rest| && root(rest[j]) && forall k :: 0 <= k < j ==> opt(rest[k]);
      LeadTwoStart(opt, open, root, args, j);
    }
  }

  lemma {:induction false} TargetsAreNoOptions(a: string)
    ensures IsRootTarget(a) || IsOpenPermission(a) ==> !IsOption(a)
  {
    assert IsOption(a) ==> a[0] == a[..1][0] == '-';
  }

  /** The case analysis of the code reports exactly the warranted findings. */
  lemma {:induction false} WarrantedExactly(inv: Invocation)
    ensures forall f :: f in DestructiveOf(inv) <==> Warrants(inv, f)
  {
    forall a ensures IsRootTarget(a) || IsOpenPermission(a) ==> !IsOption(a) { TargetsAreNoOptions(a); }
    RootAmongTargets(IsOption, IsRootTarget, inv.args);
    FirstTwoTargets(IsOption, IsOpenPermission, IsRootTarget, inv.args);
    CasesAreWarranted(inv);
  }

  /** The same, once the targets are understood. */
  lemma {:induction false} CasesAreWarranted(inv: Invocation)
    requires var targets := Targets(inv.args);
             && ((exists t :: t in targets && IsRootTarget(t)) <==> NamesRoot(inv.args))
             && (|targets| >= 2 && IsOpenPermission(targets[0]) && IsRootTarget(targets[1]) <==> OpensRoot(inv.args))
    ensures forall f :: f in DestructiveOf(inv) <==> Warrants(inv, f)
  {}

  /** The accumulated verdict: the risk is the worst severity added so far. */
  ghost predicate Consistent(v: Verdict) { Rank(v.risk) == MaxRank(v.findings) }

  method Add(v: Verdict, signal: string, severity: Severity) returns (r: Verdict)
    requires Consistent(v)
    ensures Consistent(r) && r.findings == v.findings + [Finding(signal, severity)]
  {
    r := v.(findings := v.findings + [Finding(signal, severity)]);
    if Rank(severity) > Rank(v.risk) { r := r.(risk := severity); }
    MaxRankConcat(v.findings, [Finding(signal, severity)]);
  }

  method AddPrograms(v: Verdict, rules: seq<Rule>, invs: seq<Invocation>) returns (r: Verdict)
    requires Consistent(v)
    ensures Consistent(r) && r.findings == v.findings + ProgramFindings(rules, invs)
  {
    r := v;
    for k := 0 to |rules|
      invariant Consistent(r) && v.findings + ProgramFindings(rules, invs) == r.findings + ProgramFindings(rules[k..], invs)
    {
      assert rules[k..][1..] == rules[k + 1..];
      if HasProgram(invs, rules[k].pattern) {
        r := Add(r, rules[k].pattern, rules[k].severity);
      }
    }
  }

  method AddPhrases(v: Verdict, rules: seq<Rule>, norm: string) returns (r: Verdict)
    requires Consistent(v)
    ensures Consistent(r) && r.findings == v.findings + PhraseFindings(rules, norm)
  {
    r := v;
    for k := 0 to |rules|
      invariant Consistent(r) && v.findings + PhraseFindings(rules, norm) == r.findings + PhraseFindings(rules[k..], norm)
    {
      assert rules[k..][1..] == rules[k + 1..];
      if Contains(norm, rules[k].pattern) {
        r := Add(r, TrimSpace(rules[k].pattern), rules[k].severity);
      }
    }
  }

  /** The shell metacharacter checks, first in the list of findings. */
  method AddMetacharacters(c: string, tokens: seq<string>, norm: string, invs: seq<Invocation>) returns (v: Verdict)
    ensures Consistent(v)
    ensures v.findings == MetacharacterFindings(c, tokens, norm, invs)
  {
    v := Verdict(Low, []);
    if PipesIntoShell(invs) && Fetches(invs) {
      v := Add(v, "pipe_to_shell", Critical);
    } else if "|" in tokens {
      v := Add(v, "pipe", Medium);
    }
    assert v.findings == PipeFindings(tokens, invs);
    if Contains(c, "$(") || Contains(c, "`") {
      v := Add(v, "subshell", Medium);
    }
    if "&&" in tokens || "||" in tokens || ";" in tokens {
      v := Add(v, "chaining", Medium);
    }
    ghost var before := v.findings;
    var target := FirstSystemPath(norm);
    if HasRedirect(tokens) && target < |SYSTEM_PATHS| {
      v := Add(v, "redirect_system", High);
    }
    assert v.findings == before + RedirectFindings(tokens, norm);
  }

  method FirstSystemPath(norm: string) returns (k: nat)
    ensures k < |SYSTEM_PATHS| <==> RedirectsToSystem(norm)
  {
    k := 0;
    while k < |SYSTEM_PATHS|
      invariant 0 <= k <= |SYSTEM_PATHS|
      invariant forall j :: 0 <= j < k ==> !Contains(norm, "> " + SYSTEM_PATHS[j])
    {
      if Contains(norm, "> " + SYSTEM_PATHS[k]) { return; }
      k := k + 1;
    }
  }

  method AddTables(v: Verdict, t: Tables, norm: string, invs: seq<Invocation>) returns (r: Verdict)
    requires Consistent(v)
    ensures Consistent(r) && r.findings == v.findings + TableFindings(t, norm, invs)
  {
    r := AddPrograms(v, t.criticalPrograms, invs);
    r := AddPhrases(r, t.criticalPhrases, norm);
    r := AddPhrases(r, t.highPhrases, norm);
    r := AddPrograms(r, t.mediumPrograms, invs);
    FourAdded(v.findings, ProgramFindings(t.criticalPrograms, invs), PhraseFindings(t.criticalPhrases, norm),
      PhraseFindings(t.highPhrases, norm), ProgramFindings(t.mediumPrograms, invs));
  }

  lemma {:induction false} FourAdded(v: seq<Finding>, a: seq<Finding>, b: seq<Finding>, c: seq<Finding>, d: seq<Finding>)
    ensures v + a + b + c + d == v + (a + b + c + d)
  {}

  method AddAll(v: Verdict, fs: seq<Finding>) returns (r: Verdict)
    requires Consistent(v)
    ensures Consistent(r) && r.findings == v.findings + fs
  {
    r := v;
    for k := 0 to |fs|
      invariant Consistent(r) && r.findings == v.findings + fs[..k]
    {
      r := Add(r, fs[k].signal, fs[k].severity);
    }
  }

  /** `ParseCommandRisk`: the findings in order, and the worst severity among them. */
  method ParseCommandRisk(t: Tables, command: string) returns (v: Verdict)
    ensures v.findings == Findings(t, command)
    ensures Rank(v.risk) == RiskRank(t, command)
  {
    var c := Normalized(command);
    if c == "" {
      v := Add(Verdict(Low, []), "empty", High);
      return;
    }
    var tokens := CommandTokens(c);
    var norm := Join(tokens, " ");
    var invs := CommandInvocations(tokens);
    v := AddMetacharacters(c, tokens, norm, invs);
    var destructive := DestructiveInvocationFindings(invs);
    v := AddAll(v, destructive);
    v := AddTables(v, t, norm, invs);
  }
}
