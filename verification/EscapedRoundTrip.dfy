/**
 Tokenizing an escaped list undoes printing it. The printer is the reference: a cell
 is written between quotes, with quotes and escapes escaped, or bare when it holds no
 character with a role; cells are joined by a separator.
 */
module EscapedRoundTrip {
  import opened TokenSpec

  datatype Cell = Cell(text: string, quoted: bool)

  /** The characters the printer writes: an escape, a separator and a quote that are not confused. */
  datatype Pen = Pen(esc: char, sep: char, quote: char)

  predicate CanWrite(l: EscapedList, p: Pen) {
    && p.esc in l.escape
    && p.sep in l.sep && p.sep !in l.escape
    && p.quote in l.quote && p.quote !in l.escape && p.quote !in l.sep
  }

  predicate Plain(l: EscapedList, text: string) {
    forall ch :: ch in text ==> ch !in l.escape && ch !in l.sep && ch !in l.quote
  }

  predicate Printable(l: EscapedList, cells: seq<Cell>) {
    |cells| > 0 && forall i :: 0 <= i < |cells| && !cells[i].quoted ==> Plain(l, cells[i].text)
  }

  function EscapeChar(l: EscapedList, p: Pen, ch: char): string {
    if ch in l.escape || ch in l.quote then [p.esc, ch] else [ch]
  }

  function EscapeText(l: EscapedList, p: Pen, text: string): string {
    if text == "" then "" else EscapeChar(l, p, text[0]) + EscapeText(l, p, text[1..])
  }

  function PrintCell(l: EscapedList, p: Pen, cell: Cell): string {
    if cell.quoted then [p.quote] + EscapeText(l, p, cell.text) + [p.quote] else cell.text
  }

  function Print(l: EscapedList, p: Pen, cells: seq<Cell>): string
    requires |cells| > 0
  {
    if |cells| == 1 then PrintCell(l, p, cells[0])
    else PrintCell(l, p, cells[0]) + [p.sep] + Print(l, p, cells[1..])
  }

  function Texts(cells: seq<Cell>): seq<string> {
    if cells == [] then [] else [cells[0].text] + Texts(cells[1..])
  }

  /** 'n' after an escape means a newline, so it must never need escaping itself. */
  predicate NewlineSafe(l: EscapedList) {
    'n' !in l.escape && 'n' !in l.quote
  }

  /** `w` is written in `s` at position `i`. */
  predicate At(s: string, i: nat, w: string) {
    i + |w| <= |s| && forall k :: 0 <= k < |w| ==> s[i + k] == w[k]
  }

  lemma AtSplit(s: string, i: nat, v: string, w: string)
    requires At(s, i, v + w)
    ensures At(s, i, v) && At(s, i + |v|, w)
  {
    assert forall k :: 0 <= k < |v| ==> (v + w)[k] == v[k];
    forall k | 0 <= k < |w| ensures s[i + |v| + k] == w[k] {
      assert s[i + (|v| + k)] == (v + w)[|v| + k];
    }
  }

  lemma ReadEscapedChar(l: EscapedList, p: Pen, ch: char, s: string, i: nat, tok: string)
    requires CanWrite(l, p) && NewlineSafe(l)
    requires At(s, i, EscapeChar(l, p, ch))
    ensures ScanField(l, s, i, true, tok) == ScanField(l, s, i + |EscapeChar(l, p, ch)|, true, tok + [ch])
  {
    var w := EscapeChar(l, p, ch);
    assert s[i + 0] == w[0];
    assert |w| == 2 ==> s[i + 1] == w[1];
  }

  lemma {:induction false} ScanEscaped(l: EscapedList, p: Pen, text: string, s: string, i: nat, tok: string)
    requires CanWrite(l, p) && NewlineSafe(l)
    requires At(s, i, EscapeText(l, p, text))
    ensures i + |EscapeText(l, p, text)| <= |s|
    ensures ScanField(l, s, i, true, tok) == ScanField(l, s, i + |EscapeText(l, p, text)|, true, tok + text)
    decreases text
  {
    hide ScanField, CanWrite, NewlineSafe, EscapeChar;
    if text == "" {
      assert tok + text == tok;
    } else {
      var w := EscapeChar(l, p, text[0]);
      var rest := EscapeText(l, p, text[1..]);
      AtSplit(s, i, w, rest);
      ReadEscapedChar(l, p, text[0], s, i, tok);
      ScanEscaped(l, p, text[1..], s, i + |w|, tok + [text[0]]);
      assert (tok + [text[0]]) + text[1..] == tok + text;
    }
  }

  lemma {:induction false} ScanPlain(l: EscapedList, text: string, s: string, i: nat, tok: string)
    requires Plain(l, text) && At(s, i, text)
    ensures i + |text| <= |s|
    ensures ScanField(l, s, i, false, tok) == ScanField(l, s, i + |text|, false, tok + text)
    decreases text
  {
    if text == "" {
      assert tok + text == tok;
    } else {
      assert text == [text[0]] + text[1..];
      AtSplit(s, i, [text[0]], text[1..]);
      assert s[i + 0] == text[0] && text[0] in text;
      assert forall ch :: ch in text[1..] ==> ch in text;
      ScanPlain(l, text[1..], s, i + 1, tok + [text[0]]);
      assert (tok + [text[0]]) + text[1..] == tok + text;
    }
  }

  lemma ToggleQuote(l: EscapedList, p: Pen, s: string, i: nat, inQuote: bool, tok: string)
    requires CanWrite(l, p) && At(s, i, [p.quote])
    ensures i < |s|
    ensures ScanField(l, s, i, inQuote, tok) == ScanField(l, s, i + 1, !inQuote, tok)
  {
    assert s[i + 0] == [p.quote][0];
  }

  lemma AtQuoted(s: string, i: nat, quote: char, body: string)
    requires At(s, i, [quote] + body + [quote])
    ensures At(s, i, [quote]) && At(s, i + 1, body) && At(s, i + 1 + |body|, [quote])
    ensures i + 1 + |body| < |s|
  {
    AtSplit(s, i, [quote] + body, [quote]);
    AtSplit(s, i, [quote], body);
  }

  /** Scanning over a printed cell reads its text and ends outside quotes. */
  lemma ScanCell(l: EscapedList, p: Pen, cell: Cell, s: string, i: nat)
    requires CanWrite(l, p) && NewlineSafe(l)
    requires !cell.quoted ==> Plain(l, cell.text)
    requires At(s, i, PrintCell(l, p, cell))
    ensures i + |PrintCell(l, p, cell)| <= |s|
    ensures ScanField(l, s, i, false, "") == ScanField(l, s, i + |PrintCell(l, p, cell)|, false, cell.text)
  {
    hide ScanField, CanWrite, NewlineSafe, Plain, EscapeText, At;
    assert "" + cell.text == cell.text;
    if cell.quoted {
      var body := EscapeText(l, p, cell.text);
      AtQuoted(s, i, p.quote, body);
      ToggleQuote(l, p, s, i, false, "");
      ScanEscaped(l, p, cell.text, s, i + 1, "");
      ToggleQuote(l, p, s, i + 1 + |body|, true, cell.text);
    } else {
      ScanPlain(l, cell.text, s, i, "");
    }
  }

  lemma FieldThenTokens(l: EscapedList, last: bool, s: string, i: nat, next: nat, tok: string, closed: bool)
    requires i < |s| && ScanField(l, s, i, false, "") == Field(next, tok, closed)
    ensures next <= |s|
    ensures
      var rest := Tokens(Escaped(l, closed), s, next);
      Tokens(Escaped(l, last), s, i) == Tokenized([tok] + rest.toks, rest.failure)
  {
  }

  /** A separator at the very end announces one more, blank, field. */
  lemma TokensAtEnd(l: EscapedList, s: string)
    ensures Tokens(Escaped(l, false), s, |s|) == Tokenized([], NoFailure)
    ensures Tokens(Escaped(l, true), s, |s|) == Tokenized([""], NoFailure)
  {
  }

  /** The scan stops right behind a cell, or behind the separator that follows it. */
  lemma ReadCell(l: EscapedList, p: Pen, cell: Cell, s: string, i: nat)
    requires CanWrite(l, p) && NewlineSafe(l)
    requires !cell.quoted ==> Plain(l, cell.text)
    requires At(s, i, PrintCell(l, p, cell))
    ensures
      var j := i + |PrintCell(l, p, cell)|;
      (j == |s| ==> ScanField(l, s, i, false, "") == Field(j, cell.text, false))
      && (At(s, j, [p.sep]) ==> ScanField(l, s, i, false, "") == Field(j + 1, cell.text, true))
  {
    hide PrintCell, NewlineSafe, Plain;
    ScanCell(l, p, cell, s, i);
    var j := i + |PrintCell(l, p, cell)|;
    assert At(s, j, [p.sep]) ==> s[j + 0] == [p.sep][0];
  }

  lemma {:induction false} TokensOfPrinted(l: EscapedList, p: Pen, cells: seq<Cell>, s: string, i: nat, last: bool)
    requires CanWrite(l, p) && NewlineSafe(l) && Printable(l, cells)
    requires At(s, i, Print(l, p, cells)) && i + |Print(l, p, cells)| == |s|
    requires i == |s| ==> last
    ensures Tokens(Escaped(l, last), s, i) == Tokenized(Texts(cells), NoFailure)
    decreases |cells|
  {
    hide ScanField, Tokens, CanWrite, NewlineSafe, Plain, PrintCell;
    var printed, text := PrintCell(l, p, cells[0]), cells[0].text;
    TokensAtEnd(l, s);
    EmptyCell(l, p, cells[0]);
    if |cells| == 1 {
      assert Texts(cells[1..]) == [];
      if i < |s| {
        ReadCell(l, p, cells[0], s, i);
        FieldThenTokens(l, last, s, i, |s|, text, false);
      }
    } else {
      var j := i + |printed|;
      AtSplit(s, i, printed + [p.sep], Print(l, p, cells[1..]));
      AtSplit(s, i, printed, [p.sep]);
      ReadCell(l, p, cells[0], s, i);
      FieldThenTokens(l, last, s, i, j + 1, text, true);
      assert forall k :: 0 <= k < |cells[1..]| ==> cells[1..][k] == cells[k + 1];
      TokensOfPrinted(l, p, cells[1..], s, j + 1, true);
    }
  }

  lemma EmptyCell(l: EscapedList, p: Pen, cell: Cell)
    ensures PrintCell(l, p, cell) == "" ==> cell.text == ""
  {
  }

  /** Printing and tokenizing gives back the texts, empty and trailing ones included. */
  lemma RoundTrip(l: EscapedList, p: Pen, cells: seq<Cell>, last: bool)
    requires CanWrite(l, p) && NewlineSafe(l) && Printable(l, cells)
    ensures Tokenize(Escaped(l, last), Print(l, p, cells))
         == Tokenized(if Print(l, p, cells) == "" then [] else Texts(cells), NoFailure)
  {
    var s := Print(l, p, cells);
    if s != "" {
      TokensOfPrinted(l, p, cells, s, 0, false);
    }
  }

  ghost predicate UndoesPrinting(l: EscapedList, p: Pen) {
    forall cells, last :: Printable(l, cells) && Print(l, p, cells) != "" ==>
      Tokenize(Escaped(l, last), Print(l, p, cells)) == Tokenized(Texts(cells), NoFailure)
  }

  /** The round trip holds for every list exactly when 'n' is neither an escape nor a quote. */
  lemma RoundTripExactly(l: EscapedList, p: Pen)
    requires CanWrite(l, p)
    ensures UndoesPrinting(l, p) <==> NewlineSafe(l)
  {
    if NewlineSafe(l) {
      forall cells, last | Printable(l, cells) && Print(l, p, cells) != ""
        ensures Tokenize(Escaped(l, last), Print(l, p, cells)) == Tokenized(Texts(cells), NoFailure)
      {
        RoundTrip(l, p, cells, last);
      }
    } else {
      LetterNBecomesNewline(l, p);
    }
  }

  /** The failing input: the one-letter field "n" comes back as a newline. */
  lemma LetterNBecomesNewline(l: EscapedList, p: Pen)
    requires CanWrite(l, p) && !NewlineSafe(l)
    ensures var cells := [Cell("n", true)];
      Printable(l, cells) && Print(l, p, cells) == [p.quote, p.esc, 'n', p.quote]
      && Tokenize(Escaped(l, false), Print(l, p, cells)) == Tokenized(["\n"], NoFailure)
      && Texts(cells) == ["n"]
  {
    var cells := [Cell("n", true)];
    var s := [p.quote, p.esc, 'n', p.quote];
    assert EscapeText(l, p, "n") == [p.esc, 'n'] + EscapeText(l, p, "");
    assert Print(l, p, cells) == s;
    assert ScanField(l, s, 3, true, "\n") == ScanField(l, s, 4, false, "\n") == Field(4, "\n", false);
    assert ScanField(l, s, 1, true, "") == ScanField(l, s, 3, true, "" + ['\n']);
    assert "" + ['\n'] == "\n";
    assert ScanField(l, s, 0, false, "") == Field(4, "\n", false);
    FieldThenTokens(l, false, s, 0, 4, "\n", false);
    TokensAtEnd(l, s);
    assert Texts(cells[1..]) == [];
  }

  function QuoteAll(toks: seq<string>): (cells: seq<Cell>)
    ensures |cells| == |toks|
    ensures forall i :: 0 <= i < |cells| ==> cells[i] == Cell(toks[i], true)
  {
    seq(|toks|, i requires 0 <= i < |toks| => Cell(toks[i], true))
  }

  lemma {:induction false} TextsOfQuoted(toks: seq<string>)
    ensures Texts(QuoteAll(toks)) == toks
    decreases |toks|
  {
    if toks != [] {
      assert QuoteAll(toks)[1..] == QuoteAll(toks[1..]);
      TextsOfQuoted(toks[1..]);
    }
  }

  /** Rewriting any accepted input in fully quoted form keeps its tokens. */
  lemma CanonicalFormKeepsTokens(l: EscapedList, p: Pen, s: string)
    requires CanWrite(l, p) && NewlineSafe(l)
    requires s != "" && Tokenize(Escaped(l, false), s).failure.NoFailure?
    ensures
      var toks := Tokenize(Escaped(l, false), s).toks;
      |toks| > 0 && Tokenize(Escaped(l, false), Print(l, p, QuoteAll(toks))) == Tokenized(toks, NoFailure)
  {
    var toks := Tokenize(Escaped(l, false), s).toks;
    assert |toks| > 0;
    RoundTrip(l, p, QuoteAll(toks), false);
    TextsOfQuoted(toks);
  }
}
