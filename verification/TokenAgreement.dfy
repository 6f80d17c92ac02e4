/** When the risk parser's tokens are exactly the argv the executor runs. */
module TokenAgreement {
  import opened Text
  import opened Shell
  import opened CommandRisk
  import RiskOfSequence

  /** Pieces whose only white space is the unquoted blanks between words. */
  predicate SeparatedByBlanks(ps: seq<Piece>) {
    Valid(ps) && forall i :: 0 <= i < |ps| ==> ps[i].Blank? || NoSpace(PrintPiece(ps[i]))
  }

  ghost predicate OnlySeparatingSpace(c: string) {
    exists ps :: SeparatedByBlanks(ps) && Print(ps) == c
  }

  predicate NoOperator(c: string) {
    forall i :: 0 <= i < |c| ==> OperatorLength(c[i..]) == 0
  }

  function NonEmpty(ws: seq<string>): seq<string> {
    if ws == [] then [] else FlushField(ws[0]) + NonEmpty(ws[1..])
  }

  lemma {:induction false} NonEmptyConcat(a: seq<string>, b: seq<string>)
    ensures NonEmpty(a + b) == NonEmpty(a) + NonEmpty(b)
  {
    if a == [] {
      assert a + b == b;
    } else {
      assert (a + b)[1..] == a[1..] + b;
      NonEmptyConcat(a[1..], b);
    }
  }

  lemma {:induction false} SpacedWithoutOperators(c: string)
    requires NoOperator(c)
    ensures Spaced(c) == c
  {
    if c != [] {
      assert c[0..] == c;
      assert NoOperator(c[1..]) by {
        forall i | 0 <= i < |c[1..]| ensures OperatorLength(c[1..][i..]) == 0 {
          assert c[1..][i..] == c[i + 1..];
        }
      }
      SpacedWithoutOperators(c[1..]);
      assert c == [c[0]] + c[1..];
    }
  }

  // ---------------------------------------------------------------- one word

  /** A run of pieces without blanks: the spelling of one word. */
  predicate Run(ps: seq<Piece>) {
    forall i :: 0 <= i < |ps| ==> !ps[i].Blank?
  }

  function RunText(ps: seq<Piece>): string
    requires Run(ps)
  {
    if ps == [] then "" else PieceText(ps[0]) + RunText(ps[1..])
  }

  function RunWord(ps: seq<Piece>): Option<string>
    requires Run(ps)
  {
    if ps == [] then None else Some(RunText(ps))
  }

  lemma {:induction false} WordsOfRun(cur: Option<string>, ps: seq<Piece>)
    requires Run(ps) && ps != []
    ensures WordsFrom(cur, ps) == Flush(Extend(cur, RunText(ps)))
    decreases |ps|
  {
    var next := Extend(cur, PieceText(ps[0]));
    if |ps| == 1 {
      assert ps[1..] == [];
      assert PieceText(ps[0]) + "" == PieceText(ps[0]);
    } else {
      WordsOfRun(next, ps[1..]);
      ConcatAssociative(if cur.Some? then cur.value else "", PieceText(ps[0]), RunText(ps[1..]));
    }
  }

  lemma {:induction false} DequoteRun(ps: seq<Piece>)
    requires Run(ps) && ps != [] && Valid(ps)
    ensures Dequote(Print(ps)) == RunText(ps)
  {
    ScanInvertsPrint(ps);
    WordsOfRun(None, ps);
    assert "" + RunText(ps) == RunText(ps);
    assert WordsOf(ps) == [RunText(ps)];
    assert Concat([RunText(ps)]) == RunText(ps) + Concat([]);
  }

  lemma {:induction false} PrintConcat(a: seq<Piece>, b: seq<Piece>)
    ensures Print(a + b) == Print(a) + Print(b)
  {
    if a == [] {
      assert a + b == b;
    } else {
      assert (a + b)[1..] == a[1..] + b;
      PrintConcat(a[1..], b);
      ConcatAssociative(PrintPiece(a[0]), Print(a[1..]), Print(b));
    }
  }

  lemma {:induction false} RunTextConcat(a: seq<Piece>, p: Piece)
    requires Run(a) && !p.Blank?
    ensures RunText(a + [p]) == RunText(a) + PieceText(p)
  {
    if a == [] {
      assert a + [p] == [p] && [p][1..] == [];
      assert PieceText(p) + "" == PieceText(p) == "" + PieceText(p);
    } else {
      assert (a + [p])[1..] == a[1..] + [p];
      RunTextConcat(a[1..], p);
      ConcatAssociative(PieceText(a[0]), RunText(a[1..]), PieceText(p));
    }
  }

  // ---------------------------------------------------------------- all words

  /** A piece inside a word extends the current field and the current word. */
  lemma {:induction false} PieceStep(run: seq<Piece>, ps: seq<Piece>)
    requires Run(run) && ps != [] && !ps[0].Blank? && NoSpace(PrintPiece(ps[0]))
    ensures FieldsFrom(Print(run), Print(ps)) == FieldsFrom(Print(run + [ps[0]]), Print(ps[1..]))
    ensures WordsFrom(RunWord(run), ps) == WordsFrom(RunWord(run + [ps[0]]), ps[1..])
  {
    var p := ps[0];
    RiskOfSequence.FieldsOfText(Print(run), PrintPiece(p), Print(ps[1..]));
    PrintConcat(run, [p]);
    assert Print([p]) == PrintPiece(p) + Print([]) == PrintPiece(p);
    RunTextConcat(run, p);
    assert RunWord(run + [p]) == Extend(RunWord(run), PieceText(p));
  }

  /** A blank ends the current field and the current word. */
  lemma {:induction false} BlankStep(run: seq<Piece>, ps: seq<Piece>)
    requires Run(run) && Valid(run) && ps != [] && ps[0].Blank? && ValidPiece(ps[0])
    ensures FieldsFrom(Print(run), Print(ps)) == FlushField(Print(run)) + Fields(Print(ps[1..]))
    ensures WordsFrom(RunWord(run), ps) == Flush(RunWord(run)) + WordsFrom(None, ps[1..])
  {
    assert Print(ps)[1..] == Print(ps[1..]);
  }

  lemma {:induction false} RunIsValid(run: seq<Piece>, ps: seq<Piece>)
    requires SeparatedByBlanks(run + ps)
    ensures Valid(run) && (ps != [] ==> ValidPiece(ps[0]) && (ps[0].Blank? || NoSpace(PrintPiece(ps[0]))))
  {
    assert forall i :: 0 <= i < |run| ==> (run + ps)[i] == run[i];
    if ps != [] { assert ps[0] == (run + ps)[|run|]; }
  }

  /** The fields and the words agree up to quoting and empty words; `f` is `Dequote`. */
  ghost predicate Agree(f: string -> string, fields: seq<string>, words: seq<string>) { KeepNonEmpty(f, fields) == NonEmpty(words) }

  lemma {:induction false} AgreeConcat(f: string -> string, a: seq<string>, x: seq<string>, b: seq<string>, y: seq<string>)
    requires Agree(f, a, x) && Agree(f, b, y)
    ensures Agree(f, a + b, x + y)
  {
    KeepNonEmptyConcat(f, a, b);
    NonEmptyConcat(x, y);
  }

  ghost predicate Follows(f: string -> string, run: seq<Piece>, ps: seq<Piece>) {
    Run(run) && Agree(f, FieldsFrom(Print(run), Print(ps)), WordsFrom(RunWord(run), ps))
  }

  /** Case by case, for the run of pieces so far and the pieces to come. */
  lemma {:induction false} FollowsAtEnd(f: string -> string, run: seq<Piece>)
    requires f == Dequote && Run(run) && Valid(run)
    ensures Follows(f, run, [])
  {
    FlushRun(run);
    assert FieldsFrom(Print(run), "") == FlushField(Print(run));
  }

  lemma {:induction false} FollowsAtBlank(f: string -> string, run: seq<Piece>, ps: seq<Piece>)
    requires f == Dequote && Run(run) && Valid(run) && ps != [] && ps[0].Blank? && ValidPiece(ps[0]) && Follows(f, [], ps[1..])
    ensures Follows(f, run, ps)
  {
    FlushRun(run);
    BlankStep(run, ps);
    AgreeConcat(f, FlushField(Print(run)), Flush(RunWord(run)), Fields(Print(ps[1..])), WordsFrom(None, ps[1..]));
  }

  lemma {:induction false} FollowsInWord(f: string -> string, run: seq<Piece>, ps: seq<Piece>)
    requires Run(run) && ps != [] && !ps[0].Blank? && NoSpace(PrintPiece(ps[0])) && Follows(f, run + [ps[0]], ps[1..])
    ensures Follows(f, run, ps)
  {
    PieceStep(run, ps);
  }

  /** The induction over the pieces, for any property closed under the three cases. */
  lemma {:induction false} OverPieces(ok: (seq<Piece>, seq<Piece>) -> bool, run: seq<Piece>, ps: seq<Piece>)
    requires Run(run) && SeparatedByBlanks(run + ps)
    requires forall r :: Run(r) && Valid(r) ==> ok(r, [])
    requires forall r: seq<Piece>, p: seq<Piece> :: Run(r) && Valid(r) && p != [] && p[0].Blank? && ValidPiece(p[0]) && ok([], p[1..]) ==> ok(r, p)
    requires forall r: seq<Piece>, p: seq<Piece> :: Run(r) && p != [] && !p[0].Blank? && NoSpace(PrintPiece(p[0])) && ok(r + [p[0]], p[1..]) ==> ok(r, p)
    ensures ok(run, ps)
    decreases |ps|
  {
    RunIsValid(run, ps);
    if ps != [] {
      if ps[0].Blank? {
        SuffixSeparated(run, ps);
        OverPieces(ok, [], ps[1..]);
      } else {
        assert (run + [ps[0]]) + ps[1..] == run + ps;
        OverPieces(ok, run + [ps[0]], ps[1..]);
      }
    }
  }

  lemma {:induction false} FieldsFollowWords(f: string -> string, ps: seq<Piece>)
    requires f == Dequote && SeparatedByBlanks(ps)
    ensures Agree(f, Fields(Print(ps)), WordsOf(ps))
  {
    forall r | Run(r) && Valid(r) ensures Follows(f, r, []) { FollowsAtEnd(f, r); }
    forall r: seq<Piece>, p: seq<Piece> | Run(r) && Valid(r) && p != [] && p[0].Blank? && ValidPiece(p[0]) && Follows(f, [], p[1..]) ensures Follows(f, r, p) {
      FollowsAtBlank(f, r, p);
    }
    forall r: seq<Piece>, p: seq<Piece> | Run(r) && p != [] && !p[0].Blank? && NoSpace(PrintPiece(p[0])) && Follows(f, r + [p[0]], p[1..]) ensures Follows(f, r, p) {
      FollowsInWord(f, r, p);
    }
    assert [] + ps == ps;
    OverPieces((r, p) => Follows(f, r, p), [], ps);
    assert Follows(f, [], ps);
  }

  lemma {:induction false} SuffixSeparated(run: seq<Piece>, ps: seq<Piece>)
    requires ps != [] && SeparatedByBlanks(run + ps)
    ensures SeparatedByBlanks([] + ps[1..])
  {
    var t := [] + ps[1..];
    assert forall i :: 0 <= i < |t| ==> t[i] == (run + ps)[|run| + 1 + i];
  }

  lemma {:induction false} FlushRun(run: seq<Piece>)
    requires Run(run) && Valid(run)
    ensures KeepNonEmpty(Dequote, FlushField(Print(run))) == NonEmpty(Flush(RunWord(run)))
  {
    if run != [] {
      DequoteRun(run);
      var w := RunText(run);
      assert |PrintPiece(run[0])| > 0;
      OneField(Dequote, Print(run));
      assert NonEmpty([w]) == FlushField(w) + NonEmpty([]);
    }
  }

  // ---------------------------------------------------------------- trimming

  lemma {:induction false} LeftCore(ps: seq<Piece>) returns (mid: seq<Piece>)
    requires SeparatedByBlanks(ps)
    ensures SeparatedByBlanks(mid) && TrimLeft(Print(ps)) == Print(mid) && WordsOf(mid) == WordsOf(ps)
  {
    if ps != [] && ps[0].Blank? {
      assert Print(ps)[1..] == Print(ps[1..]);
      mid := LeftCore(ps[1..]);
    } else {
      mid := ps;
      if ps != [] { assert Print(ps)[0] == PrintPiece(ps[0])[0]; }
    }
  }

  lemma {:induction false} PrintLast(ps: seq<Piece>)
    requires ps != []
    ensures Print(ps) == Print(ps[..|ps| - 1]) + PrintPiece(ps[|ps| - 1])
  {
    var init, last := ps[..|ps| - 1], ps[|ps| - 1];
    assert ps == init + [last];
    PrintConcat(init, [last]);
    assert Print([last]) == PrintPiece(last) + Print([]);
  }

  lemma {:induction false} SolidEnd(ps: seq<Piece>)
    requires SeparatedByBlanks(ps) && ps != [] && !ps[|ps| - 1].Blank?
    ensures TrimRight(Print(ps)) == Print(ps)
  {
    var end := PrintPiece(ps[|ps| - 1]);
    PrintLast(ps);
    assert end != [] && !IsSpace(end[|end| - 1]);
    assert Print(ps)[|Print(ps)| - 1] == end[|end| - 1];
  }

  lemma {:induction false} BlankEnd(ps: seq<Piece>)
    requires SeparatedByBlanks(ps) && ps != [] && ps[|ps| - 1].Blank?
    ensures var init := ps[..|ps| - 1]; SeparatedByBlanks(init) && TrimRight(Print(ps)) == TrimRight(Print(init))
  {
    PrefixSeparated(ps);
    PrintLast(ps);
    TrimRightAfter(Print(ps[..|ps| - 1]), ps[|ps| - 1].c);
  }

  lemma {:induction false} BlankEndWords(ps: seq<Piece>)
    requires ps != [] && ps[|ps| - 1].Blank?
    ensures WordsOf(ps) == WordsOf(ps[..|ps| - 1])
  {
    var init, last := ps[..|ps| - 1], ps[|ps| - 1];
    DropTrailingBlank(None, init, last);
    assert ps == init + [last];
  }

  lemma {:induction false} PrefixSeparated(ps: seq<Piece>)
    requires SeparatedByBlanks(ps) && ps != []
    ensures SeparatedByBlanks(ps[..|ps| - 1])
  {
    assert forall i :: 0 <= i < |ps| - 1 ==> ps[..|ps| - 1][i] == ps[i];
  }

  lemma {:induction false} RightCore(ps: seq<Piece>) returns (mid: seq<Piece>)
    requires SeparatedByBlanks(ps)
    ensures SeparatedByBlanks(mid) && TrimRight(Print(ps)) == Print(mid) && WordsOf(mid) == WordsOf(ps)
  {
    if ps == [] {
      mid := ps;
    } else if ps[|ps| - 1].Blank? {
      BlankEnd(ps);
      BlankEndWords(ps);
      mid := RightCore(ps[..|ps| - 1]);
    } else {
      SolidEnd(ps);
      mid := ps;
    }
  }

  lemma {:induction false} TrimRightAfter(s: string, c: char)
    requires IsSpace(c)
    ensures TrimRight(s + [c]) == TrimRight(s)
  {
    assert (s + [c])[..|s + [c]| - 1] == s;
  }

  lemma {:induction false} DropTrailingBlank(cur: Option<string>, ps: seq<Piece>, blank: Piece)
    requires blank.Blank?
    ensures WordsFrom(cur, ps + [blank]) == WordsFrom(cur, ps)
    decreases |ps|
  {
    var all := ps + [blank];
    if ps == [] {
      assert all == [blank] && all[1..] == [];
      assert WordsFrom(cur, all) == Flush(cur) + WordsFrom(None, []);
    } else {
      assert all[1..] == ps[1..] + [blank];
      if ps[0].Blank? {
        DropTrailingBlank(None, ps[1..], blank);
      } else {
        DropTrailingBlank(Extend(cur, PieceText(ps[0])), ps[1..], blank);
      }
    }
  }

  // ---------------------------------------------------------------- the agreement

  /** Without operators and with white space only between words, the gate's tokens are the
      executor's argv without its empty words, and the executor accepts the line. */
  lemma {:induction false} TokensAreArgv(c: string)
    requires OnlySeparatingSpace(c) && NoOperator(c)
    ensures !ScanLine(TrimSpace(c)).open
    ensures Tokens(c) == NonEmpty(ScanLine(TrimSpace(c)).words)
  {
    var ps :| SeparatedByBlanks(ps) && Print(ps) == c;
    var left := LeftCore(ps);
    var mid := RightCore(left);
    ScanInvertsPrint(mid);
    SpacedWithoutOperators(c);
    FieldsFollowWords(Dequote, ps);
  }
}
