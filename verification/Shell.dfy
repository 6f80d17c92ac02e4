/** Command line splitting: the gate's `ShellWords` and the executor's `splitCommandLine`.

    The reference is a quoting grammar after section 2.2 of the POSIX.1-2017 Shell Command
    Language, without line continuations (`PosixQuoting` says what that leaves out): a
    command line is a sequence of pieces, each piece has a spelling and a text,
    and words are the maximal runs of pieces between unquoted blanks. Both splitters are
    loops over a quote state; they are proved to invert that grammar. */
module Shell {
  import opened Text

  datatype Option<T> = None | Some(value: T)

  // ---------------------------------------------------------------- grammar

  datatype QuotedItem =
    | Bare(c: char)       // a character that stands for itself inside "..."
    | Slashed(c: char)    // one of \$ \` \" \\ inside "..."

  datatype Piece =
    | Blank(c: char)                  // an unquoted separator
    | Plain(c: char)                  // an unquoted character without a special meaning
    | Escaped(c: char)                // backslash and any character
    | LoneSlash                       // a backslash that ends the command line
    | Single(body: string)            // '...'
    | Double(items: seq<QuotedItem>)  // "..."

  predicate IsBlank(c: char) { c == ' ' || c == '\t' || c == '\n' || c == '\r' }

  predicate EscapableInDouble(c: char) { c == '$' || c == '`' || c == '"' || c == '\\' }

  /** The items of a double-quoted piece: a bare backslash must not be followed by a character
      it would escape, and the closing quote is such a character. */
  predicate ValidItems(items: seq<QuotedItem>) {
    items != [] ==>
      && ValidItems(items[1..])
      && match items[0]
         case Slashed(c) => EscapableInDouble(c)
         case Bare(c) => c != '"' && (c == '\\' ==>
            |items| > 1 && items[1].Bare? && !EscapableInDouble(items[1].c))
  }

  predicate ValidPiece(p: Piece) {
    match p
    case Blank(c) => IsBlank(c)
    case Plain(c) => !IsBlank(c) && c != '\'' && c != '"' && c != '\\'
    case Escaped(_) => true
    case LoneSlash => true
    case Single(body) => '\'' !in body
    case Double(items) => ValidItems(items)
  }

  predicate Valid(ps: seq<Piece>) {
    forall i :: 0 <= i < |ps| ==> ValidPiece(ps[i]) && (ps[i].LoneSlash? ==> i == |ps| - 1)
  }

  function PrintItems(items: seq<QuotedItem>): string {
    if items == [] then "" else
    (match items[0] case Bare(c) => [c] case Slashed(c) => ['\\', c]) + PrintItems(items[1..])
  }

  function ItemsText(items: seq<QuotedItem>): string {
    if items == [] then "" else [items[0].c] + ItemsText(items[1..])
  }

  function PrintPiece(p: Piece): string {
    match p
    case Blank(c) => [c]
    case Plain(c) => [c]
    case Escaped(c) => ['\\', c]
    case LoneSlash => ['\\']
    case Single(body) => ['\''] + body + ['\'']
    case Double(items) => ['"'] + PrintItems(items) + ['"']
  }

  /** How a sequence of pieces is written. */
  function Print(ps: seq<Piece>): string {
    if ps == [] then "" else PrintPiece(ps[0]) + Print(ps[1..])
  }

  /** What a piece contributes to its word. */
  function PieceText(p: Piece): string
    requires !p.Blank?
  {
    match p
    case Plain(c) => [c]
    case Escaped(c) => [c]
    case LoneSlash => ['\\']
    case Single(body) => body
    case Double(items) => ItemsText(items)
  }

  function Flush(cur: Option<string>): seq<string> {
    if cur.Some? then [cur.value] else []
  }

  function Extend(cur: Option<string>, text: string): Option<string> {
    Some((if cur.Some? then cur.value else "") + text)
  }

  function WordsFrom(cur: Option<string>, ps: seq<Piece>): seq<string>
    decreases |ps|
  {
    if ps == [] then Flush(cur) else
    if ps[0].Blank? then Flush(cur) + WordsFrom(None, ps[1..]) else
    WordsFrom(Extend(cur, PieceText(ps[0])), ps[1..])
  }

  /** The words a sequence of pieces denotes; a run of pieces with empty text is an empty word. */
  function WordsOf(ps: seq<Piece>): seq<string> { WordsFrom(None, ps) }

  // ---------------------------------------------------------------- scanner

  datatype Quote = Unquoted | InSingle | InDouble

  /** The words found and whether a quote was still open at the end. */
  datatype Scanned = Scanned(words: seq<string>, open: bool)

  function Prepend(ws: seq<string>, r: Scanned): Scanned { r.(words := ws + r.words) }

  /** What the shared splitting loop computes from position state (quote, word so far). */
  function Scan(s: string, q: Quote, cur: Option<string>): Scanned
    decreases |s|
  {
    if s == [] then Scanned(Flush(cur), q != Unquoted) else
    match q
    case InSingle =>
      if s[0] == '\'' then Scan(s[1..], Unquoted, cur) else Scan(s[1..], InSingle, Extend(cur, [s[0]]))
    case InDouble =>
      if s[0] == '"' then Scan(s[1..], Unquoted, cur) else
      if s[0] == '\\' && |s| > 1 && EscapableInDouble(s[1]) then Scan(s[2..], InDouble, Extend(cur, [s[1]])) else
      Scan(s[1..], InDouble, Extend(cur, [s[0]]))
    case Unquoted =>
      if s[0] == '\\' then
        if |s| > 1 then Scan(s[2..], Unquoted, Extend(cur, [s[1]])) else Scan([], Unquoted, Extend(cur, [s[0]]))
      else if s[0] == '\'' then Scan(s[1..], InSingle, Extend(cur, ""))
      else if s[0] == '"' then Scan(s[1..], InDouble, Extend(cur, ""))
      else if IsBlank(s[0]) then Prepend(Flush(cur), Scan(s[1..], Unquoted, None))
      else Scan(s[1..], Unquoted, Extend(cur, [s[0]]))
  }

  function ScanLine(s: string): Scanned { Scan(s, Unquoted, None) }

  lemma {:induction false} PrependTwice(out: seq<string>, ws: seq<string>, r: Scanned)
    ensures Prepend(out, Prepend(ws, r)) == Prepend(out + ws, r)
  {
    assert out + (ws + r.words) == out + ws + r.words;
  }

  // ---------------------------------------------------------------- the two loops

  /** `analyzer.ShellWords`: the words, with the words so far even when a quote stays open. */
  method ShellWords(command: string) returns (out: seq<string>, unterminated: bool)
    ensures Scanned(out, unterminated) == ScanLine(command)
  {
    out := [];
    var b: string := "";
    var word := false;
    var quote := Unquoted;
    var i := 0;
    while i < |command|
      invariant 0 <= i <= |command|
      invariant !word ==> b == "" && quote == Unquoted
      invariant ScanLine(command) == Prepend(out, Scan(command[i..], quote, if word then Some(b) else None))
    {
      ghost var rest := command[i..];
      assert rest[1..] == command[i + 1..];
      assert i + 1 < |command| ==> rest[2..] == command[i + 2..] && rest[1] == command[i + 1];
      var r := command[i];
      if quote == InSingle {
        if r == '\'' { quote := Unquoted; } else { b := b + [r]; }
      } else if quote == InDouble {
        if r == '"' {
          quote := Unquoted;
        } else if r == '\\' && i + 1 < |command| && EscapableInDouble(command[i + 1]) {
          i := i + 1;
          b := b + [command[i]];
        } else {
          b := b + [r];
        }
      } else if r == '\\' {
        if i + 1 < |command| {
          i := i + 1;
          b := b + [command[i]];
        } else {
          b := b + [r];
        }
        word := true;
      } else if r == '\'' || r == '"' {
        quote := if r == '"' then InDouble else InSingle;
        word := true;
        assert b + "" == b;
      } else if IsBlank(r) {
        PrependTwice(out, if word then [b] else [], Scan(command[i + 1..], Unquoted, None));
        if word {
          out := out + [b];
          b := "";
          word := false;
        } else {
          assert out + [] == out;
        }
      } else {
        b := b + [r];
        word := true;
      }
      i := i + 1;
    }
    if word { out := out + [b]; }
    unterminated := quote != Unquoted;
  }

  datatype Argv = Words(words: seq<string>) | Unterminated

  /** `kube.splitCommandLine`: trims first, and refuses an open quote outright. */
  method SplitCommandLine(line: string) returns (r: Argv)
    ensures r == if ScanLine(TrimSpace(line)).open then Unterminated else Words(ScanLine(TrimSpace(line)).words)
  {
    var command := TrimSpace(line);
    if command == "" { return Words([]); }
    var out: seq<string> := [];
    var b: string := "";
    var word := false;
    var quote := Unquoted;
    var i := 0;
    while i < |command|
      invariant 0 <= i <= |command|
      invariant !word ==> b == "" && quote == Unquoted
      invariant ScanLine(command) == Prepend(out, Scan(command[i..], quote, if word then Some(b) else None))
    {
      ghost var rest := command[i..];
      assert rest[1..] == command[i + 1..];
      assert i + 1 < |command| ==> rest[2..] == command[i + 2..] && rest[1] == command[i + 1];
      var c := command[i];
      if quote == InSingle {
        if c == '\'' { quote := Unquoted; } else { b := b + [c]; }
      } else if quote == InDouble {
        if c == '"' {
          quote := Unquoted;
        } else if c == '\\' && i + 1 < |command| && EscapableInDouble(command[i + 1]) {
          i := i + 1;
          b := b + [command[i]];
        } else {
          b := b + [c];
        }
      } else if c == '\\' {
        if i + 1 < |command| {
          i := i + 1;
          b := b + [command[i]];
        } else {
          b := b + [c];
        }
        word := true;
      } else if c == '\'' || c == '"' {
        quote := if c == '"' then InDouble else InSingle;
        word := true;
        assert b + "" == b;
      } else if IsBlank(c) {
        PrependTwice(out, if word then [b] else [], Scan(command[i + 1..], Unquoted, None));
        if word {
          out := out + [b];
          b := "";
          word := false;
        } else {
          assert out + [] == out;
        }
      } else {
        b := b + [c];
        word := true;
      }
      i := i + 1;
    }
    if quote != Unquoted { return Unterminated; }
    if word { out := out + [b]; }
    r := Words(out);
  }

  /** The gate's reading of a command and the executor's argv fail together and otherwise agree. */
  method GateAndExecutorAgree(line: string) returns (gate: seq<string>, gateRefuses: bool, argv: Argv)
    ensures gateRefuses <==> argv.Unterminated?
    ensures argv.Words? ==> argv.words == gate
    ensures !gateRefuses <==> exists ps :: Valid(ps) && Print(ps) == TrimSpace(line)
    ensures forall ps :: Valid(ps) && Print(ps) == TrimSpace(line) ==> argv == Words(WordsOf(ps))
  {
    gate, gateRefuses := ShellWords(TrimSpace(line));
    argv := SplitCommandLine(line);
    forall ps | Valid(ps) && Print(ps) == TrimSpace(line)
      ensures ScanLine(TrimSpace(line)) == Scanned(WordsOf(ps), false)
    {
      ScanInvertsPrint(ps);
    }
    if !gateRefuses {
      ghost var ps := Decompose(TrimSpace(line));
    }
  }

  // ---------------------------------------------------------------- the scanner inverts the grammar

  lemma {:induction false} ScanSingle(body: string, rest: string, cur: Option<string>)
    requires '\'' !in body && cur.Some?
    ensures Scan(body + ['\''] + rest, InSingle, cur) == Scan(rest, Unquoted, Extend(cur, body))
  {
    var s := body + ['\''] + rest;
    if body == [] {
      assert s[1..] == rest;
      assert cur.value + "" == cur.value;
    } else {
      assert s[1..] == body[1..] + ['\''] + rest;
      ScanSingle(body[1..], rest, Extend(cur, [body[0]]));
      assert cur.value + [body[0]] + body[1..] == cur.value + body;
    }
  }

  /** One item inside double quotes. */
  lemma {:induction false} ScanItem(item: QuotedItem, tail: string, cur: Option<string>)
    requires cur.Some?
    requires item.Slashed? ==> EscapableInDouble(item.c)
    requires item.Bare? ==> item.c != '"' && (item.c == '\\' ==> tail != [] && !EscapableInDouble(tail[0]))
    ensures Scan((if item.Bare? then [item.c] else ['\\', item.c]) + tail, InDouble, cur) == Scan(tail, InDouble, Extend(cur, [item.c]))
  {
    if item.Slashed? {
      assert (['\\', item.c] + tail)[2..] == tail;
    } else {
      var s := [item.c] + tail;
      assert s[1..] == tail;
      assert tail != [] ==> s[1] == tail[0];
    }
  }

  lemma {:induction false} ScanDouble(items: seq<QuotedItem>, rest: string, cur: Option<string>)
    requires ValidItems(items) && cur.Some?
    ensures Scan(PrintItems(items) + ['"'] + rest, InDouble, cur) == Scan(rest, Unquoted, Extend(cur, ItemsText(items)))
  {
    if items == [] {
      var s := PrintItems(items) + ['"'] + rest;
      assert s == ['"'] + rest && s[1..] == rest;
      assert cur.value + "" == cur.value;
    } else {
      var item, tail := items[0], PrintItems(items[1..]) + ['"'] + rest;
      var head := if item.Bare? then [item.c] else ['\\', item.c];
      assert PrintItems(items) + ['"'] + rest == head + tail;
      if item.Bare? && item.c == '\\' { assert PrintItems(items[1..])[0] == items[1].c; }
      ScanItem(item, tail, cur);
      ScanDouble(items[1..], rest, Extend(cur, [item.c]));
      ConcatAssociative(cur.value, [item.c], ItemsText(items[1..]));
    }
  }

  lemma {:induction false} ScanSinglePiece(body: string, rest: string, cur: Option<string>)
    requires '\'' !in body
    ensures Scan(['\''] + body + ['\''] + rest, Unquoted, cur) == Scan(rest, Unquoted, Extend(cur, body))
  {
    var base := Extend(cur, "");
    assert (['\''] + body + ['\''] + rest)[1..] == body + ['\''] + rest;
    ScanSingle(body, rest, base);
    assert base.value + body == Extend(cur, body).value;
  }

  lemma {:induction false} ScanDoublePiece(items: seq<QuotedItem>, rest: string, cur: Option<string>)
    requires ValidItems(items)
    ensures Scan(['"'] + PrintItems(items) + ['"'] + rest, Unquoted, cur) == Scan(rest, Unquoted, Extend(cur, ItemsText(items)))
  {
    var base := Extend(cur, "");
    assert (['"'] + PrintItems(items) + ['"'] + rest)[1..] == PrintItems(items) + ['"'] + rest;
    ScanDouble(items, rest, base);
    assert base.value + ItemsText(items) == Extend(cur, ItemsText(items)).value;
  }

  lemma {:induction false} ScanUnquoted(p: Piece, rest: string, cur: Option<string>)
    requires ValidPiece(p) && (p.Plain? || p.Escaped? || p.LoneSlash?) && (p.LoneSlash? ==> rest == [])
    ensures Scan(PrintPiece(p) + rest, Unquoted, cur) == Scan(rest, Unquoted, Extend(cur, PieceText(p)))
  {
    var s := PrintPiece(p) + rest;
    match p
    case Plain(c) => assert s[1..] == rest;
    case Escaped(c) => assert s[2..] == rest;
    case LoneSlash => assert s == ['\\'];
  }

  lemma {:induction false} ScanPiece(p: Piece, rest: string, cur: Option<string>)
    requires ValidPiece(p) && !p.Blank? && (p.LoneSlash? ==> rest == [])
    ensures Scan(PrintPiece(p) + rest, Unquoted, cur) == Scan(rest, Unquoted, Extend(cur, PieceText(p)))
  {
    match p
    case Single(body) => ScanSinglePiece(body, rest, cur);
    case Double(items) => ScanDoublePiece(items, rest, cur);
    case _ => ScanUnquoted(p, rest, cur);
  }

  lemma {:induction false} ScanPieces(ps: seq<Piece>, cur: Option<string>)
    requires Valid(ps)
    ensures Scan(Print(ps), Unquoted, cur) == Scanned(WordsFrom(cur, ps), false)
    decreases |ps|
  {
    if ps != [] {
      assert Valid(ps[1..]);
      if ps[0].Blank? {
        assert Print(ps)[1..] == Print(ps[1..]);
        ScanPieces(ps[1..], None);
      } else {
        ScanPiece(ps[0], Print(ps[1..]), cur);
        ScanPieces(ps[1..], Extend(cur, PieceText(ps[0])));
      }
    }
  }

  /** Every valid spelling scans to exactly the words it denotes, with no quote left open. */
  lemma {:induction false} ScanInvertsPrint(ps: seq<Piece>)
    requires Valid(ps)
    ensures ScanLine(Print(ps)) == Scanned(WordsOf(ps), false)
  {
    ScanPieces(ps, None);
  }

  lemma {:induction false} SplitSingle(s: string, cur: Option<string>) returns (body: string, rest: string)
    requires !Scan(s, InSingle, cur).open
    ensures '\'' !in body && s == body + ['\''] + rest
  {
    if s[0] == '\'' {
      body, rest := [], s[1..];
    } else {
      var b, t := SplitSingle(s[1..], Extend(cur, [s[0]]));
      body, rest := [s[0]] + b, t;
    }
  }

  lemma {:induction false} SplitDouble(s: string, cur: Option<string>) returns (items: seq<QuotedItem>, rest: string)
    requires !Scan(s, InDouble, cur).open
    ensures ValidItems(items) && s == PrintItems(items) + ['"'] + rest
    ensures s[0] == '"' <==> items == []
    ensures items != [] ==> items[0] == if s[0] == '\\' && EscapableInDouble(s[1]) then Slashed(s[1]) else Bare(s[0])
    decreases |s|
  {
    if s[0] == '"' {
      items, rest := [], s[1..];
    } else if s[0] == '\\' && |s| > 1 && EscapableInDouble(s[1]) {
      var its, t := SplitDouble(s[2..], Extend(cur, [s[1]]));
      items, rest := [Slashed(s[1])] + its, t;
      assert items[1..] == its;
      assert s == ['\\', s[1]] + s[2..];
    } else {
      var its, t := SplitDouble(s[1..], Extend(cur, [s[0]]));
      items, rest := [Bare(s[0])] + its, t;
      assert items[1..] == its;
      assert s == [s[0]] + s[1..];
    }
  }

  lemma {:induction false} DecomposeFrom(s: string, cur: Option<string>) returns (ps: seq<Piece>)
    requires !Scan(s, Unquoted, cur).open
    ensures Valid(ps) && Print(ps) == s
    decreases |s|
  {
    if s == [] {
      ps := [];
    } else {
      var p: Piece, rest: string, next: Option<string>;
      if s[0] == '\\' {
        if |s| > 1 {
          p, rest, next := Escaped(s[1]), s[2..], Extend(cur, [s[1]]);
        } else {
          p, rest, next := LoneSlash, [], Extend(cur, [s[0]]);
        }
      } else if s[0] == '\'' {
        var body, t := SplitSingle(s[1..], Extend(cur, ""));
        p, rest, next := Single(body), t, Extend(Extend(cur, ""), body);
        ScanSingle(body, rest, Extend(cur, ""));
      } else if s[0] == '"' {
        var items, t := SplitDouble(s[1..], Extend(cur, ""));
        p, rest, next := Double(items), t, Extend(Extend(cur, ""), ItemsText(items));
        ScanDouble(items, rest, Extend(cur, ""));
      } else if IsBlank(s[0]) {
        p, rest, next := Blank(s[0]), s[1..], None;
      } else {
        p, rest, next := Plain(s[0]), s[1..], Extend(cur, [s[0]]);
      }
      assert s == PrintPiece(p) + rest;
      var tail := DecomposeFrom(rest, next);
      ps := [p] + tail;
      assert ps[1..] == tail;
    }
  }

  /** Every line the scanner accepts is a valid spelling. */
  lemma {:induction false} Decompose(s: string) returns (ps: seq<Piece>)
    requires !ScanLine(s).open
    ensures Valid(ps) && Print(ps) == s
  {
    ps := DecomposeFrom(s, None);
  }

  /** A line is refused exactly when no valid spelling produces it. */
  lemma {:induction false} AcceptsExactlyTheGrammar(s: string)
    ensures !ScanLine(s).open <==> exists ps :: Valid(ps) && Print(ps) == s
  {
    if !ScanLine(s).open {
      var ps := Decompose(s);
    }
    forall ps | Valid(ps) && Print(ps) == s ensures !ScanLine(s).open {
      ScanInvertsPrint(ps);
    }
  }

  // ---------------------------------------------------------------- rendering a word list

  /** 'w' with every inner quote written as '\''. */
  function QuoteBody(w: string): string {
    if w == [] then "" else (if w[0] == '\'' then "'\\''" else [w[0]]) + QuoteBody(w[1..])
  }

  function QuoteWord(w: string): string { "'" + QuoteBody(w) + "'" }

  function Render(ws: seq<string>): string {
    if ws == [] then "" else
    if |ws| == 1 then QuoteWord(ws[0]) else
    QuoteWord(ws[0]) + " " + Render(ws[1..])
  }

  /** The spelling '\\'' of a quote closes, escapes one quote and opens again. */
  lemma {:induction false} ReopenQuote(tail: string, cur: Option<string>)
    requires cur.Some?
    ensures Scan("'\\''" + tail, InSingle, cur) == Scan(tail, InSingle, Extend(cur, "'"))
  {
    var t1, t2 := "\\''" + tail, "'" + tail;
    assert ("'\\''" + tail)[1..] == t1;
    assert t1[2..] == t2 && t2[1..] == tail;
    assert Scan(t1, Unquoted, cur) == Scan(t2, Unquoted, Extend(cur, "'"));
    assert Extend(cur, "'").value + "" == Extend(cur, "'").value;
  }

  lemma {:induction false} ScanQuoteBody(w: string, rest: string, cur: Option<string>)
    requires cur.Some?
    ensures Scan(QuoteBody(w) + ['\''] + rest, InSingle, cur) == Scan(rest, Unquoted, Extend(cur, w))
    decreases |w|
  {
    var s := QuoteBody(w) + ['\''] + rest;
    if w == [] {
      ScanSingle("", rest, cur);
      assert s == "" + ['\''] + rest;
    } else {
      var tail := QuoteBody(w[1..]) + ['\''] + rest;
      var next := Extend(cur, [w[0]]);
      ScanQuoteBody(w[1..], rest, next);
      assert cur.value + [w[0]] + w[1..] == cur.value + w;
      if w[0] == '\'' {
        ReopenQuote(tail, cur);
        assert s == "'\\''" + tail;
      } else {
        assert s == [w[0]] + tail;
        assert s[1..] == tail;
      }
    }
  }

  lemma {:induction false} ScanQuoteWord(w: string, rest: string)
    ensures Scan(QuoteWord(w) + rest, Unquoted, None) == Scan(rest, Unquoted, Some(w))
  {
    assert (QuoteWord(w) + rest)[1..] == QuoteBody(w) + ['\''] + rest;
    assert "" + "" == "";
    ScanQuoteBody(w, rest, Some(""));
    assert "" + w == w;
  }

  lemma {:induction false} ScanRender(ws: seq<string>)
    ensures ScanLine(Render(ws)) == Scanned(ws, false)
  {
    if |ws| == 1 {
      ScanQuoteWord(ws[0], "");
      assert QuoteWord(ws[0]) + "" == Render(ws);
    } else if |ws| > 1 {
      var rest := " " + Render(ws[1..]);
      ScanQuoteWord(ws[0], rest);
      assert QuoteWord(ws[0]) + rest == Render(ws);
      assert rest[1..] == Render(ws[1..]);
      ScanRender(ws[1..]);
      assert ws == [ws[0]] + ws[1..];
    }
  }

  lemma {:induction false} RenderEndsInQuotes(ws: seq<string>)
    requires ws != []
    ensures Render(ws) != [] && Render(ws)[0] == '\'' && Render(ws)[|Render(ws)| - 1] == '\''
  {
    if |ws| > 1 { RenderEndsInQuotes(ws[1..]); }
  }

  /** Rendering any word list with single quotes and splitting it again gives the list back,
      for the gate and for the executor. */
  lemma {:induction false} RenderRoundTrip(ws: seq<string>)
    ensures ScanLine(Render(ws)) == Scanned(ws, false)
    ensures TrimSpace(Render(ws)) == Render(ws)
  {
    ScanRender(ws);
    if ws != [] { RenderEndsInQuotes(ws); }
    TrimSpaceOf("", Render(ws), "");
    assert "" + Render(ws) + "" == Render(ws);
  }
}
