/** What the invocation parser finds, by positions in the token list, and what that means for the
    verdict on a recursive delete of the root. */
module InvocationProofs {
  import opened Text
  import opened CommandRisk

  // ---------------------------------------------------------------- arguments

  /** A token that ends a program's arguments. */
  predicate Ends(t: string) { IsOperator(t) || StartsCommand(t) }

  /** `n` is the first position that ends the arguments, or the end of the list. */
  predicate FirstEnd(ts: seq<string>, n: nat) {
    n <= |ts| && (forall i :: 0 <= i < n ==> !Ends(ts[i])) && (n < |ts| ==> Ends(ts[n]))
  }

  lemma {:induction false} EndIsLater(ts: seq<string>, m: nat)
    requires ts != [] && !Ends(ts[0]) && FirstEnd(ts[1..], m)
    ensures FirstEnd(ts, m + 1) && ts[..m + 1] == [ts[0]] + ts[1..][..m] && ts[1..][m..] == ts[m + 1..]
    ensures m < |ts| - 1 ==> ts[1..][m] == ts[m + 1] && ts[1..][m + 1..] == ts[m + 2..]
  {
    assert forall i :: 1 <= i < |ts| ==> ts[i] == ts[1..][i - 1];
  }

  lemma {:induction false} ArgumentsAreUpToEnd(ts: seq<string>) returns (n: nat)
    ensures FirstEnd(ts, n) && ArgsOf(ts) == ts[..n]
    ensures AfterArgs(ts) == if n < |ts| && StartsCommand(ts[n]) then ts[n + 1..] else ts[n..]
  {
    if ts == [] || Ends(ts[0]) {
      n := 0;
      assert ts == [] || ts[0..] == ts;
    } else {
      var m := ArgumentsAreUpToEnd(ts[1..]);
      EndIsLater(ts, m);
      n := m + 1;
    }
  }

  // ---------------------------------------------------------------- program names

  /** A directory in front of a program does not change its name. */
  lemma {:induction false} PathsDoNotMatter(dir: string, name: string)
    requires '/' !in name
    ensures Base(name) == name && Base(dir + "/" + name) == name
    decreases |dir|
  {
    var s := dir + "/" + name;
    assert s[|dir|] == '/';
    if dir == "" {
      assert s[1..] == name;
    } else {
      assert s[1..] == dir[1..] + "/" + name;
      PathsDoNotMatter(dir[1..], name);
    }
  }

  predicate IsLetter(c: char) { c == '_' || 'a' <= c <= 'z' || 'A' <= c <= 'Z' }

  predicate Identifier(s: string) {
    s != "" && IsLetter(s[0]) && forall i :: 0 <= i < |s| ==> IsLetter(s[i]) || '0' <= s[i] <= '9'
  }

  predicate WrapperName(w: string) { w in ["sudo", "env", "nohup", "exec", "time", "busybox", "xargs"] }

  lemma {:induction false} BaseEnds(t: string)
    ensures '/' !in Base(t) && (t == Base(t) || HasSuffix(t, "/" + Base(t)))
    decreases |t|
  {
    if '/' in t {
      BaseEnds(t[1..]);
      var b := Base(t);
      if t[1..] == b {
        assert t == [t[0]] + t[1..];
        assert t[|t| - |"/" + b|..] == "/" + b;
      } else {
        assert t[|t| - |"/" + b|..] == t[1..][|t[1..]| - |"/" + b|..];
      }
    }
  }

  lemma {:induction false} WrapperByPath(t: string, w: string)
    requires '/' !in w
    ensures Base(t) == w <==> t == w || HasSuffix(t, "/" + w)
  {
    BaseEnds(t);
    PathsDoNotMatter("", w);
    if HasSuffix(t, "/" + w) {
      var dir := t[..|t| - |"/" + w|];
      assert t == dir + ("/" + w);
      ConcatAssociative(dir, "/", w);
      PathsDoNotMatter(dir, w);
    }
  }

  lemma {:induction false} AssignmentForm(t: string)
    ensures IsAssignment(t) <==> exists n :: 0 <= n < |t| && t[n] == '=' && Identifier(t[..n])
  {
    if n :| 1 <= n < |t| && t[n] == '=' && forall i :: 0 <= i < n ==>
      (t[i] == '_' || 'a' <= t[i] <= 'z' || 'A' <= t[i] <= 'Z' || (i > 0 && '0' <= t[i] <= '9'))
    {
      assert Identifier(t[..n]);
    }
    if n :| 0 <= n < |t| && t[n] == '=' && Identifier(t[..n]) {
      assert forall i :: 0 <= i < n ==> t[..n][i] == t[i];
    }
  }

  /** What is stepped over in command position: operators, assignments to an identifier, and the
      programs that run another one, with or without a directory in front. */
  lemma {:induction false} SkippedExactly(t: string)
    ensures Skipped(t) <==>
            || t in ["&&", "||", ">>", "|", ";", ">", "<"]
            || (exists n :: 0 <= n < |t| && t[n] == '=' && Identifier(t[..n]))
            || (exists w :: WrapperName(w) && (t == w || HasSuffix(t, "/" + w)))
  {
    AssignmentForm(t);
    forall w | WrapperName(w) ensures Base(t) == w <==> t == w || HasSuffix(t, "/" + w) {
      NoSlashInWrapper(w);
      WrapperByPath(t, w);
    }
    assert Base(t) in WRAPPERS <==> WrapperName(Base(t));
  }

  lemma {:induction false} NoSlashInWrapper(w: string)
    requires WrapperName(w)
    ensures '/' !in w
  {}

  // ---------------------------------------------------------------- positions

  /** A token in command position: the first one, one after an operator, one after a token skipped
      in command position, or one after a `-c` that is an argument. */
  predicate InCommand(skip: string -> bool, ts: seq<string>, i: nat)
    requires i <= |ts|
  {
    i == 0 || IsOperator(ts[i - 1]) || (if InCommand(skip, ts, i - 1) then skip(ts[i - 1]) else StartsCommand(ts[i - 1]))
  }

  /** A program: in command position and not skipped there. */
  predicate IsProgram(skip: string -> bool, ts: seq<string>, i: nat)
    requires i < |ts|
  {
    InCommand(skip, ts, i) && !skip(ts[i])
  }

  /** Only skipped tokens other than operators stand between a pipe and position `i`. */
  predicate AfterPipe(skip: string -> bool, ts: seq<string>, i: nat)
    requires i <= |ts|
  {
    exists j :: 0 <= j < i && ts[j] == "|" && forall k :: j < k < i ==> skip(ts[k]) && !IsOperator(ts[k])
  }

  /** The invocation whose program is at position `i`. */
  ghost predicate InvokedAt(skip: string -> bool, name: string -> string, ts: seq<string>, i: nat, inv: Invocation) {
    && i < |ts| && IsProgram(skip, ts, i)
    && inv.program == name(ts[i]) && inv.pipedInto == AfterPipe(skip, ts, i)
    && var n := |inv.args|; FirstEnd(ts[i + 1..], n) && inv.args == ts[i + 1..][..n]
  }

  /** The positions of the programs from `i` on, in order. */
  function Programs(skip: string -> bool, ts: seq<string>, i: nat): (r: seq<nat>)
    requires i <= |ts|
    ensures forall k :: k in r <==> i <= k < |ts| && IsProgram(skip, ts, k)
    ensures forall a, b :: 0 <= a < b < |r| ==> r[a] < r[b]
    decreases |ts| - i
  {
    if i == |ts| then [] else
    var rest := Programs(skip, ts, i + 1);
    assert forall b :: 0 <= b < |rest| ==> rest[b] in rest;
    if IsProgram(skip, ts, i) then [i] + rest else rest
  }

  /** `invs` are the invocations of the programs at the positions `ps`. */
  ghost predicate Invoked(skip: string -> bool, name: string -> string, ts: seq<string>, ps: seq<nat>, invs: seq<Invocation>) {
    |invs| == |ps| && forall k :: 0 <= k < |ps| ==> InvokedAt(skip, name, ts, ps[k], invs[k])
  }

  /** Operators are skipped in command position, `-c` is not. */
  ghost predicate Lawful(skip: string -> bool) {
    forall t :: (IsOperator(t) ==> skip(t)) && (StartsCommand(t) ==> !skip(t))
  }

  lemma {:induction false} PipeStep(skip: string -> bool, ts: seq<string>, i: nat)
    requires i < |ts|
    ensures AfterPipe(skip, ts, i + 1) <==> ts[i] == "|" || (skip(ts[i]) && !IsOperator(ts[i]) && AfterPipe(skip, ts, i))
  {
    if ts[i] != "|" {
      if j :| 0 <= j < i + 1 && ts[j] == "|" && forall k :: j < k < i + 1 ==> skip(ts[k]) && !IsOperator(ts[k]) {
        assert j < i;
      }
    }
  }

  /** The arguments of a program, and what ends them, are not in command position. */
  lemma {:induction false} ArgumentsAreNoCommands(skip: string -> bool, ts: seq<string>, i: nat, n: nat, j: nat)
    requires Lawful(skip) && i < |ts| && IsProgram(skip, ts, i) && FirstEnd(ts[i + 1..], n) && i + 1 <= j <= i + 1 + n
    ensures !InCommand(skip, ts, j)
    decreases j
  {
    if j > i + 1 {
      ArgumentsAreNoCommands(skip, ts, i, n, j - 1);
      assert ts[j - 1] == ts[i + 1..][j - i - 2];
    }
  }

  lemma {:induction false} InvokedCons(skip: string -> bool, name: string -> string, ts: seq<string>, i: nat, inv: Invocation, ps: seq<nat>, invs: seq<Invocation>)
    requires InvokedAt(skip, name, ts, i, inv) && Invoked(skip, name, ts, ps, invs)
    ensures Invoked(skip, name, ts, [i] + ps, [inv] + invs)
  {}

  /** Where the next command position is, after the `n` arguments of a program at `i`. */
  function NextCommand(ts: seq<string>, i: nat, n: nat): nat { if i + 1 + n < |ts| then i + 2 + n else |ts| }

  lemma {:induction false} ArgumentsHoldNoProgram(skip: string -> bool, ts: seq<string>, i: nat, n: nat, k: nat)
    requires Lawful(skip) && i < |ts| && IsProgram(skip, ts, i) && FirstEnd(ts[i + 1..], n) && i + 1 <= k < NextCommand(ts, i, n)
    ensures !IsProgram(skip, ts, k)
  {
    ArgumentsAreNoCommands(skip, ts, i, n, k);
  }

  lemma {:induction false} NextIsCommand(skip: string -> bool, ts: seq<string>, i: nat, n: nat)
    requires Lawful(skip) && i < |ts| && IsProgram(skip, ts, i) && FirstEnd(ts[i + 1..], n) && NextCommand(ts, i, n) < |ts|
    ensures InCommand(skip, ts, NextCommand(ts, i, n))
  {
    var q := i + 1 + n;
    ArgumentsAreNoCommands(skip, ts, i, n, q);
    assert ts[q] == ts[i + 1..][n];
  }

  lemma {:induction false} ProgramFirst(skip: string -> bool, ts: seq<string>, i: nat)
    requires i < |ts| && IsProgram(skip, ts, i)
    ensures Programs(skip, ts, i) == [i] + Programs(skip, ts, i + 1)
  {}

  lemma {:induction false} ProgramsAfterArguments(skip: string -> bool, ts: seq<string>, i: nat, n: nat, k: nat)
    requires Lawful(skip) && i < |ts| && IsProgram(skip, ts, i) && FirstEnd(ts[i + 1..], n) && i + 1 <= k <= NextCommand(ts, i, n)
    ensures Programs(skip, ts, k) == Programs(skip, ts, NextCommand(ts, i, n))
    decreases |ts| - k
  {
    if k < NextCommand(ts, i, n) {
      ArgumentsHoldNoProgram(skip, ts, i, n, k);
      ProgramsAfterArguments(skip, ts, i, n, k + 1);
    }
  }

  lemma {:induction false} NoProgramsInArguments(skip: string -> bool, ts: seq<string>, i: nat, n: nat)
    requires Lawful(skip) && i < |ts| && IsProgram(skip, ts, i) && FirstEnd(ts[i + 1..], n)
    ensures Programs(skip, ts, i) == [i] + Programs(skip, ts, NextCommand(ts, i, n))
  {
    ProgramFirst(skip, ts, i);
    ProgramsAfterArguments(skip, ts, i, n, i + 1);
  }

  lemma {:induction false} ParseGoesOn(skip: string -> bool, name: string -> string, ts: seq<string>, i: nat, n: nat)
    requires Lawful(skip) && i < |ts| && FirstEnd(ts[i + 1..], n)
    requires var rest := ts[i + 1..]; AfterArgs(rest) == if n < |rest| && StartsCommand(rest[n]) then rest[n + 1..] else rest[n..]
    ensures var next := NextCommand(ts, i, n);
            InvocationsBy(skip, name, AfterArgs(ts[i + 1..]), false) == InvocationsBy(skip, name, ts[next..], AfterPipe(skip, ts, next))
  {
    var rest, q := ts[i + 1..], i + 1 + n;
    if q < |ts| {
      assert rest[n] == ts[q] && rest[n..] == ts[q..] && rest[n + 1..] == ts[q + 1..];
      PipeStep(skip, ts, q);
      if IsOperator(ts[q]) { SkipsOperator(skip, name, ts, q); }
    } else {
      assert rest[n..] == [] && ts[q..] == [];
    }
  }

  lemma {:induction false} SkipsOperator(skip: string -> bool, name: string -> string, ts: seq<string>, q: nat)
    requires Lawful(skip) && q < |ts| && IsOperator(ts[q])
    ensures InvocationsBy(skip, name, ts[q..], false) == InvocationsBy(skip, name, ts[q + 1..], ts[q] == "|")
    ensures !StartsCommand(ts[q])
  {
    assert ts[q..][1..] == ts[q + 1..];
  }

  ghost predicate Parsed(skip: string -> bool, name: string -> string, ts: seq<string>, i: nat)
    requires i <= |ts|
  {
    Invoked(skip, name, ts, Programs(skip, ts, i), InvocationsBy(skip, name, ts[i..], AfterPipe(skip, ts, i)))
  }

  lemma {:induction false} ParsedAtSkipped(skip: string -> bool, name: string -> string, ts: seq<string>, i: nat)
    requires i < |ts| && skip(ts[i]) && Parsed(skip, name, ts, i + 1)
    ensures Parsed(skip, name, ts, i)
  {
    PipeStep(skip, ts, i);
    assert ts[i..][1..] == ts[i + 1..];
  }

  lemma {:induction false} ParsedAtProgram(skip: string -> bool, name: string -> string, ts: seq<string>, i: nat, n: nat)
    requires Lawful(skip) && i < |ts| && IsProgram(skip, ts, i) && FirstEnd(ts[i + 1..], n) && ArgsOf(ts[i + 1..]) == ts[i + 1..][..n]
    requires var rest := ts[i + 1..]; AfterArgs(rest) == if n < |rest| && StartsCommand(rest[n]) then rest[n + 1..] else rest[n..]
    requires Parsed(skip, name, ts, NextCommand(ts, i, n))
    ensures Parsed(skip, name, ts, i)
  {
    var next, piped := NextCommand(ts, i, n), AfterPipe(skip, ts, i);
    NoProgramsInArguments(skip, ts, i, n);
    ParseGoesOn(skip, name, ts, i, n);
    InvocationStep(skip, name, ts, i, piped);
    var inv := Invocation(name(ts[i]), ArgsOf(ts[i + 1..]), piped);
    InvokedCons(skip, name, ts, i, inv, Programs(skip, ts, next), InvocationsBy(skip, name, ts[next..], AfterPipe(skip, ts, next)));
  }

  lemma {:induction false} FromCommand(skip: string -> bool, name: string -> string, ts: seq<string>, i: nat)
    requires Lawful(skip) && i <= |ts| && (i < |ts| ==> InCommand(skip, ts, i))
    ensures Parsed(skip, name, ts, i)
    decreases |ts| - i
  {
    if i < |ts| {
      if skip(ts[i]) {
        FromCommand(skip, name, ts, i + 1);
        ParsedAtSkipped(skip, name, ts, i);
      } else {
        var n := ArgumentsAreUpToEnd(ts[i + 1..]);
        if NextCommand(ts, i, n) < |ts| { NextIsCommand(skip, ts, i, n); }
        FromCommand(skip, name, ts, NextCommand(ts, i, n));
        ParsedAtProgram(skip, name, ts, i, n);
      }
    }
  }

  lemma {:induction false} SkippedIsLawful()
    ensures Lawful(Skipped)
  {
    forall t | StartsCommand(t) ensures !Skipped(t) {
      assert t[0] == '-';
      assert Base(t) == t;
    }
  }

  /** The parser finds, in order, exactly the programs by position: each with its name, the tokens up
      to the next operator, `-c` or `-lc` as arguments, and whether a pipe leads into it. */
  lemma {:induction false} InvocationsByPosition(ts: seq<string>)
    ensures Invoked(Skipped, ProgramName, ts, Programs(Skipped, ts, 0), Invocations(ts))
  {
    SkippedIsLawful();
    FromCommand(Skipped, ProgramName, ts, 0);
    assert ts[0..] == ts;
    assert !AfterPipe(Skipped, ts, 0);
  }
}
