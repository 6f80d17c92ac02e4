/** What the tokenizer does with shell operators and with plain words. */
module OperatorProofs {
  import opened Text
  import opened Shell
  import opened CommandRisk
  import RiskOfSequence
  import TokenAgreement

  // ---------------------------------------------------------------- plain words

  /** No white space, no quoting. */
  predicate Unquotable(w: string) { forall c :: c in w ==> !IsSpace(c) && c != '\'' && c != '"' && c != '\\' }

  lemma {:induction false} ScanPlain(w: string, cur: string)
    requires Unquotable(w)
    ensures Scan(w, Unquoted, Some(cur)) == Scanned([cur + w], false)
    decreases |w|
  {
    if w == "" {
      assert cur + w == cur;
    } else {
      assert w[0] in w && forall c :: c in w[1..] ==> c in w;
      ScanPlain(w[1..], cur + [w[0]]);
      assert cur + [w[0]] + w[1..] == cur + w;
    }
  }

  /** A word without quoting stands for itself. */
  lemma {:induction false} DequotePlain(w: string)
    requires Unquotable(w) && w != ""
    ensures Dequote(w) == w
  {
    assert w[0] in w && forall c :: c in w[1..] ==> c in w;
    ScanPlain(w[1..], "" + [w[0]]);
    assert "" + [w[0]] + w[1..] == w;
    assert Concat([w]) == w + Concat([]) by { assert [w][1..] == []; }
  }

  /** A word without operator characters either. */
  predicate PlainWord(w: string) { w != "" && Unquotable(w) && forall c :: c in w ==> c !in "&|;<>" }

  lemma {:induction false} PlainCharacter(s: string)
    requires forall c :: c in s ==> c !in "&|;<>"
    ensures TokenAgreement.NoOperator(s)
  {
    forall i | 0 <= i < |s| ensures OperatorLength(s[i..]) == 0 {
      assert s[i] in s && s[i..][0] == s[i];
      assert "&|;<>"[0] == '&' && "&|;<>"[1] == '|' && "&|;<>"[2] == ';' && "&|;<>"[3] == '<' && "&|;<>"[4] == '>';
    }
  }

  predicate PlainWords(ws: seq<string>) { forall i :: 0 <= i < |ws| ==> PlainWord(ws[i]) }

  lemma {:induction false} JoinCharacters(ws: seq<string>)
    requires PlainWords(ws)
    ensures forall c :: c in Join(ws, " ") ==> c !in "&|;<>"
  {
    if |ws| > 1 { JoinCharacters(ws[1..]); }
  }

  lemma {:induction false} FieldsOfJoin(ws: seq<string>)
    requires PlainWords(ws)
    ensures Fields(Join(ws, " ")) == ws
  {
    if ws != [] {
      var w := ws[0];
      assert NoSpace(w) by { assert forall i :: 0 <= i < |w| ==> w[i] in w; }
      assert "" + w == w;
      if |ws| == 1 {
        RiskOfSequence.FieldsOfText("", w, "");
        assert w + "" == w && ws == [w];
      } else {
        var rest := " " + Join(ws[1..], " ");
        RiskOfSequence.FieldsOfText("", w, rest);
        ConcatAssociative(w, " ", Join(ws[1..], " "));
        assert rest[1..] == Join(ws[1..], " ");
        FieldsOfJoin(ws[1..]);
        assert ws == [w] + ws[1..];
      }
    }
  }

  lemma {:induction false} KeepPlain(f: string -> string, ws: seq<string>)
    requires forall i :: 0 <= i < |ws| ==> ws[i] != "" && f(ws[i]) == ws[i]
    ensures KeepNonEmpty(f, ws) == ws
  {
    if ws != [] {
      KeepPlain(f, ws[1..]);
      assert ws == [ws[0]] + ws[1..];
    }
  }

  /** Plain words separated by spaces are the tokens. */
  lemma {:induction false} PlainWordsAreTokens(ws: seq<string>)
    requires PlainWords(ws)
    ensures Tokens(Join(ws, " ")) == ws
  {
    JoinCharacters(ws);
    PlainCharacter(Join(ws, " "));
    TokenAgreement.SpacedWithoutOperators(Join(ws, " "));
    FieldsOfJoin(ws);
    forall i | 0 <= i < |ws| ensures Dequote(ws[i]) == ws[i] { DequotePlain(ws[i]); }
    KeepPlain(Dequote, ws);
  }

  // ---------------------------------------------------------------- operators

  /** The operator can be told from its neighbours: no character beside it would double its own. */
  predicate Clear(a: string, op: string, b: string)
    requires op != ""
  {
    Doubles(op[0]) ==> (a != "" ==> a[|a| - 1] != op[0]) && (|op| == 1 && b != "" ==> b[0] != op[0])
  }

  lemma {:induction false} OperatorShape(op: string)
    requires IsOperator(op)
    ensures 1 <= |op| <= 2 && OperatorLength(op) == |op| && (|op| == 2 ==> op[0] == op[1]) && Unquotable(op)
    ensures op[0] != '&' ==> StandsAlone(op[0])
    ensures op[0] == '&' ==> |op| == 2
    ensures |op| == 2 ==> Doubles(op[0])
  {}

  lemma {:induction false} OperatorFirst(op: string, b: string)
    requires IsOperator(op) && Clear("", op, b)
    ensures OperatorLength(op + b) == |op|
  {
    OperatorShape(op);
    var s := op + b;
    assert s[0] == op[0];
    if |op| == 2 { assert s[1] == op[1]; } else if b != "" { assert s[1] == b[0]; }
  }

  lemma {:induction false} SpacedOperator(op: string, b: string)
    requires IsOperator(op) && Clear("", op, b)
    ensures Spaced(op + b) == " " + op + " " + Spaced(b)
  {
    OperatorFirst(op, b);
    OperatorShape(op);
    var s := op + b;
    assert s[..|op|] == op && s[|op|..] == b;
  }

  lemma {:induction false} StepBeforeOperator(a: string, op: string, b: string)
    requires a != "" && IsOperator(op) && Clear(a, op, b)
    ensures Emitted(a + op + b) == Emitted(a) && Consumed(a + op + b) == Consumed(a)
  {
    OperatorShape(op);
    var s := a + op + b;
    assert s[0] == a[0];
    if |a| >= 2 { assert s[1] == a[1]; } else { assert s[1] == op[0]; }
    assert OperatorLength(s) == OperatorLength(a);
    assert s[..OperatorLength(a)] == a[..OperatorLength(a)];
  }

  lemma {:induction false} ClearLater(a: string, op: string, b: string, n: nat)
    requires op != "" && Clear(a, op, b) && n <= |a|
    ensures Clear(a[n..], op, b)
  {}

  lemma {:induction false} SpacedBeforeOperator(f: string -> string, a: string, op: string, b: string)
    requires f == Spaced && a != "" && IsOperator(op) && Clear(a, op, b)
    ensures f(a + op + b) == Emitted(a) + f(a[Consumed(a)..] + op + b) && f(a) == Emitted(a) + f(a[Consumed(a)..])
  {
    StepBeforeOperator(a, op, b);
    DropBefore(a, op, b, Consumed(a));
  }

  lemma {:induction false} SpacedAtOperator(f: string -> string, op: string, b: string)
    requires f == Spaced && IsOperator(op) && Clear("", op, b)
    ensures f("" + op + b) == f("") + (" " + op + " ") + f(b)
  {
    SpacedOperator(op, b);
    NothingBefore(op);
    NothingBefore(" " + op + " ");
    assert f("") == "";
  }

  lemma {:induction false} NothingBefore(s: string)
    ensures "" + s == s
  {}

  lemma {:induction false} SpacedAround(f: string -> string, a: string, op: string, b: string)
    requires f == Spaced && IsOperator(op) && Clear(a, op, b)
    ensures f(a + op + b) == f(a) + (" " + op + " ") + f(b)
    decreases |a|
  {
    if a == "" {
      SpacedAtOperator(f, op, b);
    } else {
      var n := Consumed(a);
      ClearLater(a, op, b, n);
      SpacedAround(f, a[n..], op, b);
      SpacedBeforeOperator(f, a, op, b);
      Regroup(f(a + op + b), f(a), Emitted(a), f(a[n..]), " " + op + " ", f(b));
    }
  }

  lemma {:induction false} FieldsAround(cur: string, x: string, op: string, y: string)
    requires NoSpace(op) && op != ""
    ensures FieldsFrom(cur, x + (" " + op + " ") + y) == FieldsFrom(cur, x) + [op] + Fields(y)
    decreases |x|
  {
    var mid := " " + op + " ";
    if x == "" {
      var s := x + mid + y;
      assert s[1..] == op + (" " + y);
      RiskOfSequence.FieldsOfText("", op, " " + y);
      assert "" + op == op && (" " + y)[1..] == y;
      assert FieldsFrom(op, " " + y) == [op] + Fields(y);
      ConcatAssociative(FlushField(cur), [op], Fields(y));
    } else {
      assert (x + mid + y)[1..] == x[1..] + mid + y;
      if IsSpace(x[0]) {
        FieldsAround("", x[1..], op, y);
        ConcatAssociative(FlushField(cur), FieldsFrom("", x[1..]) + [op], Fields(y));
        ConcatAssociative(FlushField(cur), FieldsFrom("", x[1..]), [op]);
      } else {
        FieldsAround(cur + [x[0]], x[1..], op, y);
      }
    }
  }

  /** Every operator is a token of its own, spaces around it or not, and the text on either side is
      read as if the other were not there. */
  lemma {:induction false} TokensAround(a: string, op: string, b: string)
    requires IsOperator(op) && Clear(a, op, b)
    ensures Tokens(a + op + b) == Tokens(a) + [op] + Tokens(b)
  {
    OperatorShape(op);
    SpacedAround(Spaced, a, op, b);
    assert NoSpace(op) by { assert forall i :: 0 <= i < |op| ==> op[i] in op; }
    FieldsAround("", Spaced(a), op, Spaced(b));
    DequotePlain(op);
    KeepNonEmptyAround(Dequote, Fields(Spaced(a)), op, Fields(Spaced(b)));
  }
}
