/** Where the splitters leave section 2.2 of the POSIX.1-2017 Shell Command Language: there a
    backslash before a newline is a line continuation, and both characters are removed, outside
    quotes (2.2.1) and inside double quotes (2.2.3). The splitters keep the newline. */
module PosixQuoting {
  import opened Text
  import opened Shell
  import OperatorProofs

  predicate ItemsContinue(items: seq<QuotedItem>, j: int) {
    0 <= j < |items| - 1 && items[j] == Bare('\\') && items[j + 1] == Bare('\n')
  }

  predicate PieceContinues(p: Piece) {
    p == Escaped('\n') || (p.Double? && exists j :: 0 <= j < |p.items| && ItemsContinue(p.items, j))
  }

  /** A line continuation occurs in the spelling. */
  predicate HasContinuation(ps: seq<Piece>) { exists i :: 0 <= i < |ps| && PieceContinues(ps[i]) }

  /** The items without their continuations. */
  function PosixItems(items: seq<QuotedItem>): seq<QuotedItem>
    decreases |items|
  {
    if items == [] then [] else
    if ItemsContinue(items, 0) then PosixItems(items[2..]) else [items[0]] + PosixItems(items[1..])
  }

  function PosixPiece(p: Piece): seq<Piece> {
    if p == Escaped('\n') then [] else if p.Double? then [Double(PosixItems(p.items))] else [p]
  }

  function PosixPieces(ps: seq<Piece>): seq<Piece> {
    if ps == [] then [] else PosixPiece(ps[0]) + PosixPieces(ps[1..])
  }

  /** The words the standard reads: continuations go before the line is split. */
  function PosixWords(ps: seq<Piece>): seq<string> { WordsOf(PosixPieces(ps)) }

  // ---------------------------------------------------------------- counting characters

  function TextLength(ps: seq<Piece>): nat {
    if ps == [] then 0 else (if ps[0].Blank? then 0 else |PieceText(ps[0])|) + TextLength(ps[1..])
  }

  lemma {:induction false} TextLengthConcat(a: seq<Piece>, b: seq<Piece>)
    ensures TextLength(a + b) == TextLength(a) + TextLength(b)
  {
    if a == [] {
      assert a + b == b;
    } else {
      assert (a + b)[1..] == a[1..] + b;
      TextLengthConcat(a[1..], b);
    }
  }

  lemma {:induction false} ConcatOfTwo(a: seq<string>, b: seq<string>)
    ensures |Concat(a + b)| == |Concat(a)| + |Concat(b)|
  {
    if a == [] {
      assert a + b == b;
    } else {
      assert (a + b)[1..] == a[1..] + b;
      ConcatOfTwo(a[1..], b);
    }
  }

  lemma {:induction false} FlushLength(cur: Option<string>)
    ensures |Concat(Flush(cur))| == if cur.Some? then |cur.value| else 0
  {
    if cur.Some? { assert [cur.value][1..] == []; }
  }

  /** Splitting into words neither adds nor drops a character of the pieces' texts. */
  lemma {:induction false} WordsLength(cur: Option<string>, ps: seq<Piece>)
    ensures |Concat(WordsFrom(cur, ps))| == (if cur.Some? then |cur.value| else 0) + TextLength(ps)
    decreases |ps|
  {
    FlushLength(cur);
    if ps != [] {
      if ps[0].Blank? {
        WordsLength(None, ps[1..]);
        ConcatOfTwo(Flush(cur), WordsFrom(None, ps[1..]));
      } else {
        WordsLength(Extend(cur, PieceText(ps[0])), ps[1..]);
      }
    }
  }

  lemma {:induction false} ItemsLength(items: seq<QuotedItem>)
    ensures |ItemsText(items)| == |items|
  {
    if items != [] { ItemsLength(items[1..]); }
  }

  lemma {:induction false} PosixItemsShrink(items: seq<QuotedItem>)
    ensures |PosixItems(items)| <= |items|
    ensures if exists j :: 0 <= j < |items| && ItemsContinue(items, j) then |PosixItems(items)| < |items| else PosixItems(items) == items
    decreases |items|
  {
    if items != [] {
      if ItemsContinue(items, 0) {
        PosixItemsShrink(items[2..]);
      } else {
        var rest := items[1..];
        PosixItemsShrink(rest);
        forall j | 0 <= j < |items| && ItemsContinue(items, j) ensures ItemsContinue(rest, j - 1) {}
        forall j | 0 <= j < |rest| && ItemsContinue(rest, j) ensures ItemsContinue(items, j + 1) {}
        assert items == [items[0]] + rest;
      }
    }
  }

  lemma {:induction false} PosixPieceShrinks(p: Piece)
    ensures TextLength(PosixPiece(p)) <= TextLength([p])
    ensures if PieceContinues(p) then TextLength(PosixPiece(p)) < TextLength([p]) else PosixPiece(p) == [p]
  {
    assert [p][1..] == [];
    if p.Double? {
      PosixItemsShrink(p.items);
      ItemsLength(p.items);
      ItemsLength(PosixItems(p.items));
      assert [Double(PosixItems(p.items))][1..] == [];
    }
  }

  lemma {:induction false} PosixPiecesShrink(ps: seq<Piece>)
    ensures TextLength(PosixPieces(ps)) <= TextLength(ps)
    ensures if HasContinuation(ps) then TextLength(PosixPieces(ps)) < TextLength(ps) else PosixPieces(ps) == ps
  {
    if ps != [] {
      var rest := ps[1..];
      PosixPieceShrinks(ps[0]);
      PosixPiecesShrink(rest);
      TextLengthConcat(PosixPiece(ps[0]), PosixPieces(rest));
      assert ps == [ps[0]] + rest;
      TextLengthConcat([ps[0]], rest);
      assert HasContinuation(ps) <==> PieceContinues(ps[0]) || HasContinuation(rest) by {
        assert forall i :: 0 <= i < |rest| ==> rest[i] == ps[i + 1];
        assert forall i :: 1 <= i < |ps| ==> ps[i] == rest[i - 1];
      }
    }
  }

  /** The splitters read a line as the standard does if and only if no line continuation occurs. */
  lemma {:induction false} PosixExactlyWhen(ps: seq<Piece>)
    requires Valid(ps)
    ensures ScanLine(Print(ps)).words == PosixWords(ps) <==> !HasContinuation(ps)
  {
    ScanInvertsPrint(ps);
    PosixPiecesShrink(ps);
    WordsLength(None, ps);
    WordsLength(None, PosixPieces(ps));
  }

  const CONTINUED := [Plain('a'), Escaped('\n'), Plain('b')]

  lemma {:induction false} ContinuedSpelling()
    ensures Print(CONTINUED) == "a\\\nb" && Valid(CONTINUED)
  {
    var ps := CONTINUED;
    assert ps[1..] == [Escaped('\n'), Plain('b')] && ps[1..][1..] == [Plain('b')] && [Plain('b')][1..] == [];
    assert Print([Plain('b')]) == "b" && Print(ps[1..]) == "\\\nb";
  }

  lemma {:induction false} TwoLetters(x: string, c: char)
    requires !IsBlank(c)
    ensures WordsFrom(Some(x), [Plain(c)]) == [x + [c]]
  {
    assert [Plain(c)][1..] == [];
    assert WordsFrom(Some(x + [c]), []) == [x + [c]];
  }

  lemma {:induction false} ContinuedWords()
    ensures WordsOf(CONTINUED) == ["a\nb"] && PosixWords(CONTINUED) == ["ab"]
  {
    var ps := CONTINUED;
    assert ps[1..] == [Escaped('\n'), Plain('b')] && ps[1..][1..] == [Plain('b')];
    assert "" + "a" == "a" && "a" + "\n" == "a\n" && "a\n" + "b" == "a\nb" && "a" + "b" == "ab";
    TwoLetters("a\n", 'b');
    TwoLetters("a", 'b');
    ContinuedPieces();
    assert [Plain('a'), Plain('b')][1..] == [Plain('b')];
  }

  lemma {:induction false} ContinuedPieces()
    ensures PosixPieces(CONTINUED) == [Plain('a'), Plain('b')]
  {
    var ps := CONTINUED;
    assert ps[1..] == [Escaped('\n'), Plain('b')] && ps[1..][1..] == [Plain('b')] && [Plain('b')][1..] == [];
    assert PosixPieces([Plain('b')]) == [Plain('b')] && PosixPieces(ps[1..]) == [Plain('b')];
  }

  /** A line on which they differ: the splitters find one word with a newline in it, the standard
      the word `ab`. */
  lemma {:induction false} ContinuationIsKept()
    ensures Print(CONTINUED) == "a\\\nb" && ScanLine("a\\\nb") == Scanned(["a\nb"], false) && PosixWords(CONTINUED) == ["ab"]
  {
    ContinuedSpelling();
    ContinuedWords();
    ScanInvertsPrint(CONTINUED);
  }

  // ---------------------------------------------------------------- single characters

  /** Between two unquoted words, space, tab, newline and carriage return separate; any other
      character without a quoting meaning makes one word of them. */
  lemma {:induction false} SeparatorsExactly(a: string, c: char, b: string)
    requires OperatorProofs.Unquotable(a) && OperatorProofs.Unquotable(b) && a != "" && b != "" && c != '\'' && c != '"' && c != '\\'
    ensures ScanLine(a + [c] + b) == Scanned(if c == ' ' || c == '\t' || c == '\n' || c == '\r' then [a, b] else [a + [c] + b], false)
  {
    ConcatAssociative(a, [c], b);
    WordThen(a, [c] + b);
    assert ([c] + b)[1..] == b;
    if IsBlank(c) {
      WordThen(b, "");
      assert b + "" == b;
    } else {
      OperatorProofs.ScanPlain(b, a + [c]);
    }
  }

  lemma {:induction false} WordThen(w: string, rest: string)
    requires OperatorProofs.Unquotable(w) && w != ""
    ensures Scan(w + rest, Unquoted, None) == Scan(rest, Unquoted, Some(w))
  {
    assert w[0] in w && forall c :: c in w[1..] ==> c in w;
    assert (w + rest)[1..] == w[1..] + rest && "" + [w[0]] == [w[0]];
    WordOn(w[1..], rest, [w[0]]);
    assert [w[0]] + w[1..] == w;
  }

  lemma {:induction false} WordOn(w: string, rest: string, cur: string)
    requires OperatorProofs.Unquotable(w)
    ensures Scan(w + rest, Unquoted, Some(cur)) == Scan(rest, Unquoted, Some(cur + w))
    decreases |w|
  {
    if w == "" {
      assert w + rest == rest && cur + w == cur;
    } else {
      assert w[0] in w && forall c :: c in w[1..] ==> c in w;
      assert (w + rest)[1..] == w[1..] + rest;
      WordOn(w[1..], rest, cur + [w[0]]);
      assert cur + [w[0]] + w[1..] == cur + w;
    }
  }

  /** Inside double quotes a backslash escapes a dollar sign, a backquote, a double quote and a
      backslash, and stands for itself before anything else. */
  lemma {:induction false} EscapesExactly(c: char)
    ensures ScanLine(['"', '\\', c, '"']) == Scanned([if c == '$' || c == '`' || c == '"' || c == '\\' then [c] else ['\\', c]], false)
  {
    var items := if EscapableInDouble(c) then [Slashed(c)] else [Bare('\\'), Bare(c)];
    assert items[1..] == if EscapableInDouble(c) then [] else [Bare(c)];
    assert [Bare(c)][1..] == [];
    assert PrintItems([Bare(c)]) == [c] && ItemsText([Bare(c)]) == [c];
    ScanDoublePiece(items, [], None);
    assert ['"'] + PrintItems(items) + ['"'] + [] == ['"', '\\', c, '"'];
    var text := if EscapableInDouble(c) then [c] else ['\\', c];
    assert ItemsText([]) == "" && ItemsText(items) == text;
    assert Extend(None, text) == Some(text) by { assert "" + text == text; }
    assert Scan([], Unquoted, Some(text)) == Scanned([text], false);
  }
}
