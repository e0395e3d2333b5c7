/**
 What an escaped list means, without a scanner: the text is a row of units, the units
 fall into fields at the separators outside quotes, and each field has a text. And which
 texts are no such row, and why they are refused.
 */
module EscapedMeaning {
  import opened TokenSpec

  datatype Unit = Plain(c: char) | Escaping(e: char, c: char)

  predicate Escapable(l: EscapedList, c: char) {
    c == 'n' || c in l.quote || c in l.sep || c in l.escape
  }

  predicate ValidUnit(l: EscapedList, u: Unit) {
    match u
    case Plain(c) => c !in l.escape
    case Escaping(e, c) => e in l.escape && Escapable(l, c)
  }

  predicate ValidUnits(l: EscapedList, units: seq<Unit>) {
    forall i :: 0 <= i < |units| ==> ValidUnit(l, units[i])
  }

  function Spell(u: Unit): string {
    match u
    case Plain(c) => [c]
    case Escaping(e, c) => [e, c]
  }

  function SpellAll(units: seq<Unit>): string {
    if units == [] then "" else Spell(units[0]) + SpellAll(units[1..])
  }

  // ---------------------------------------------------------------------------
  // The meaning of a row of units

  /** What a unit adds to its field: a quote only opens or closes. */
  function Value(l: EscapedList, u: Unit): string {
    match u
    case Plain(c) => if c in l.quote && c !in l.sep then "" else [c]
    case Escaping(_, c) => if c == 'n' then "\n" else [c]
  }

  predicate IsSep(l: EscapedList, u: Unit) {
    u.Plain? && u.c in l.sep
  }

  predicate IsQuote(l: EscapedList, u: Unit) {
    u.Plain? && u.c in l.quote && u.c !in l.sep
  }

  /** The texts of the fields: a separator ends one, unless a quote is open. */
  function Fields(l: EscapedList, units: seq<Unit>, inQuote: bool): (fields: seq<string>)
    ensures |fields| > 0
    decreases |units|
  {
    if units == [] then [""]
    else if IsSep(l, units[0]) && !inQuote then [""] + Fields(l, units[1..], false)
    else
      var rest := Fields(l, units[1..], if IsQuote(l, units[0]) then !inQuote else inQuote);
      [Value(l, units[0]) + rest[0]] + rest[1..]
  }

  // ---------------------------------------------------------------------------
  // Falling into units

  datatype Lexed = Lexed(units: seq<Unit>, failure: Failure)

  /** The longest row of units the text starts with, and what is wrong with the next character, if there is one. */
  function Lex(l: EscapedList, s: string): Lexed
    decreases |s|
  {
    if s == "" then Lexed([], NoFailure)
    else if s[0] !in l.escape then
      var rest := Lex(l, s[1..]);
      Lexed([Plain(s[0])] + rest.units, rest.failure)
    else if |s| == 1 then Lexed([], CannotEndWithEscape)
    else if !Escapable(l, s[1]) then Lexed([], UnknownEscapeSequence)
    else
      var rest := Lex(l, s[2..]);
      Lexed([Escaping(s[0], s[1])] + rest.units, rest.failure)
  }

  /** What is left when a text stops being a row of units. */
  predicate Stuck(l: EscapedList, rest: string, failure: Failure) {
    match failure
    case NoFailure => rest == ""
    case CannotEndWithEscape => |rest| == 1 && rest[0] in l.escape
    case UnknownEscapeSequence => |rest| >= 2 && rest[0] in l.escape && !Escapable(l, rest[1])
  }

  lemma SpellFirst(u: Unit, units: seq<Unit>)
    ensures SpellAll([u] + units) == Spell(u) + SpellAll(units)
  {
    assert ([u] + units)[1..] == units;
  }

  lemma {:induction false} LexSpells(l: EscapedList, s: string)
    ensures
      var x := Lex(l, s);
      ValidUnits(l, x.units) && SpellAll(x.units) <= s && Stuck(l, s[|SpellAll(x.units)|..], x.failure)
    decreases |s|
  {
    if s != "" && Lex(l, s).units != [] {
      var u := Lex(l, s).units[0];
      var rest := s[|Spell(u)|..];
      LexSpells(l, rest);
      SpelledBefore(l, u, Lex(l, rest).units, s, Lex(l, rest).failure);
    }
  }

  lemma SpelledBefore(l: EscapedList, u: Unit, units: seq<Unit>, s: string, failure: Failure)
    requires ValidUnit(l, u) && ValidUnits(l, units) && Spell(u) <= s && SpellAll(units) <= s[|Spell(u)|..]
    requires Stuck(l, s[|Spell(u)|..][|SpellAll(units)|..], failure)
    ensures
      ValidUnits(l, [u] + units) && SpellAll([u] + units) <= s
      && Stuck(l, s[|SpellAll([u] + units)|..], failure)
  {
    hide Stuck, Spell, ValidUnit, SpellAll;
    SpellFirst(u, units);
    assert s == Spell(u) + s[|Spell(u)|..];
    assert s[|Spell(u) + SpellAll(units)|..] == s[|Spell(u)|..][|SpellAll(units)|..];
  }

  lemma LexUnit(l: EscapedList, u: Unit, rest: string)
    requires ValidUnit(l, u)
    ensures Lex(l, Spell(u) + rest) == Lexed([u] + Lex(l, rest).units, Lex(l, rest).failure)
  {
    assert (Spell(u) + rest)[|Spell(u)|..] == rest;
  }

  lemma LexStuck(l: EscapedList, rest: string, failure: Failure)
    requires Stuck(l, rest, failure)
    ensures Lex(l, rest) == Lexed([], failure)
  {
  }

  /** There is only one way to fall into units. */
  lemma {:induction false} LexFinds(l: EscapedList, units: seq<Unit>, rest: string, failure: Failure)
    requires ValidUnits(l, units) && Stuck(l, rest, failure)
    ensures Lex(l, SpellAll(units) + rest) == Lexed(units, failure)
    decreases |units|
  {
    hide Lex, Stuck, ValidUnit, Spell;
    if units == [] {
      assert SpellAll(units) + rest == rest;
      LexStuck(l, rest, failure);
    } else {
      var u := units[0];
      assert ValidUnit(l, u);
      LexFinds(l, units[1..], rest, failure);
      LexUnit(l, u, SpellAll(units[1..]) + rest);
      assert SpellAll(units) + rest == Spell(u) + (SpellAll(units[1..]) + rest);
      assert [u] + units[1..] == units;
    }
  }

  // ---------------------------------------------------------------------------
  // The scanner computes it

  /** What is left to read at position `i`. */
  function From(l: EscapedList, s: string, i: nat): Lexed
    requires i <= |s|
  {
    Lex(l, s[i..])
  }

  lemma FromStep(l: EscapedList, s: string, i: nat)
    requires i < |s|
    ensures
      if s[i] !in l.escape then
        From(l, s, i) == Lexed([Plain(s[i])] + From(l, s, i + 1).units, From(l, s, i + 1).failure)
      else if i + 1 == |s| then From(l, s, i) == Lexed([], CannotEndWithEscape)
      else if !Escapable(l, s[i + 1]) then From(l, s, i) == Lexed([], UnknownEscapeSequence)
      else
        From(l, s, i) == Lexed([Escaping(s[i], s[i + 1])] + From(l, s, i + 2).units, From(l, s, i + 2).failure)
  {
    assert s[i..][1..] == s[i + 1..];
    if i + 1 < |s| {
      assert s[i..][2..] == s[i + 2..];
    }
  }

  lemma FromEnd(l: EscapedList, s: string)
    ensures From(l, s, |s|) == Lexed([], NoFailure)
  {
  }

  lemma FieldsFirst(l: EscapedList, u: Unit, units: seq<Unit>, inQuote: bool)
    ensures
      Fields(l, [u] + units, inQuote) ==
        if IsSep(l, u) && !inQuote then [""] + Fields(l, units, false)
        else
          var rest := Fields(l, units, if IsQuote(l, u) then !inQuote else inQuote);
          [Value(l, u) + rest[0]] + rest[1..]
  {
    assert ([u] + units)[1..] == units;
  }

  /** What the scan of one field says, in terms of the units and fields that lie ahead. */
  predicate ScanMeans(l: EscapedList, s: string, i: nat, inQuote: bool, tok: string, r: Field)
    requires i <= |s| && i <= r.next <= |s|
  {
    var x := From(l, s, i);
    var fields := Fields(l, x.units, inQuote);
    r.tok == tok + fields[0]
    && match r
       case Field(next, _, true) =>
         |fields| > 1 && fields[1..] == Fields(l, From(l, s, next).units, false)
         && From(l, s, next).failure == x.failure
       case Field(_, _, false) => |fields| == 1 && x.failure.NoFailure?
       case BadField(next, _, failure) =>
         |fields| == 1 && failure == x.failure && next == i + |SpellAll(x.units)| + 1
  }

  lemma {:induction false} ScanIsMeaning(l: EscapedList, s: string, i: nat, inQuote: bool, tok: string)
    requires i <= |s|
    ensures ScanMeans(l, s, i, inQuote, tok, ScanField(l, s, i, inQuote, tok))
    decreases |s| - i
  {
    hide From, Fields, SpellAll;
    if i == |s| {
      FromEnd(l, s);
      NothingLeft(l, inQuote);
    } else {
      FromStep(l, s, i);
      NothingLeft(l, inQuote);
      if s[i] !in l.escape {
        UnitStep(l, s, i, inQuote, tok, Plain(s[i]));
      } else if i + 1 < |s| && Escapable(l, s[i + 1]) {
        UnitStep(l, s, i, inQuote, tok, Escaping(s[i], s[i + 1]));
      }
    }
  }

  lemma NothingLeft(l: EscapedList, inQuote: bool)
    ensures Fields(l, [], inQuote) == [""] && SpellAll([]) == ""
    ensures forall t: string {:trigger t + ""} :: t + "" == t
  {
  }

  predicate UnitAt(l: EscapedList, s: string, i: nat, u: Unit) {
    i + |Spell(u)| <= |s| && ValidUnit(l, u) && s[i] == Spell(u)[0] && (u.Escaping? ==> s[i + 1] == u.c)
  }

  /** One unit of the scan. */
  lemma {:induction false} UnitStep(l: EscapedList, s: string, i: nat, inQuote: bool, tok: string, u: Unit)
    requires UnitAt(l, s, i, u)
    requires
      var later := From(l, s, i + |Spell(u)|);
      From(l, s, i) == Lexed([u] + later.units, later.failure)
    ensures ScanMeans(l, s, i, inQuote, tok, ScanField(l, s, i, inQuote, tok))
    decreases |s| - i, 0
  {
    hide From, Fields, SpellAll, ScanField, ScanMeans;
    ScanUnit(l, s, i, inQuote, tok, u);
    if IsSep(l, u) && !inQuote {
      SepMeans(l, s, i, tok, u);
    } else {
      var j, q := i + |Spell(u)|, if IsQuote(l, u) then !inQuote else inQuote;
      ScanIsMeaning(l, s, j, q, tok + Value(l, u));
      MeansBefore(l, s, i, inQuote, tok, u, ScanField(l, s, j, q, tok + Value(l, u)));
    }
  }

  lemma ScanUnit(l: EscapedList, s: string, i: nat, inQuote: bool, tok: string, u: Unit)
    requires UnitAt(l, s, i, u)
    ensures
      var j := i + |Spell(u)|;
      ScanField(l, s, i, inQuote, tok) ==
        if IsSep(l, u) && !inQuote then Field(j, tok, true)
        else ScanField(l, s, j, if IsQuote(l, u) then !inQuote else inQuote, tok + Value(l, u))
  {
    NothingLeft(l, inQuote);
  }

  lemma SepMeans(l: EscapedList, s: string, i: nat, tok: string, u: Unit)
    requires UnitAt(l, s, i, u) && IsSep(l, u)
    requires
      var later := From(l, s, i + |Spell(u)|);
      From(l, s, i) == Lexed([u] + later.units, later.failure)
    ensures ScanMeans(l, s, i, false, tok, Field(i + |Spell(u)|, tok, true))
  {
    hide From, Fields, SpellAll;
    FieldsFirst(l, u, From(l, s, i + |Spell(u)|).units, false);
    NothingLeft(l, false);
  }

  lemma MeansBefore(l: EscapedList, s: string, i: nat, inQuote: bool, tok: string, u: Unit, r: Field)
    requires UnitAt(l, s, i, u) && !(IsSep(l, u) && !inQuote) && i + |Spell(u)| <= r.next <= |s|
    requires
      var later := From(l, s, i + |Spell(u)|);
      From(l, s, i) == Lexed([u] + later.units, later.failure)
    requires ScanMeans(l, s, i + |Spell(u)|, if IsQuote(l, u) then !inQuote else inQuote, tok + Value(l, u), r)
    ensures ScanMeans(l, s, i, inQuote, tok, r)
  {
    hide From, Fields, SpellAll, Spell, Value, IsSep, IsQuote;
    var later := From(l, s, i + |Spell(u)|);
    var q := if IsQuote(l, u) then !inQuote else inQuote;
    var rest := Fields(l, later.units, q);
    FieldsFirst(l, u, later.units, inQuote);
    SpellFirst(u, later.units);
    assert tok + Value(l, u) + rest[0] == tok + (Value(l, u) + rest[0]);
  }

  // ---------------------------------------------------------------------------
  // Whole inputs

  /** Field by field, from where a call starts. */
  lemma {:induction false} TokensAreFields(l: EscapedList, last: bool, s: string, i: nat)
    requires i < |s|
    ensures
      var x, t := From(l, s, i), Tokens(Escaped(l, last), s, i);
      var fields := Fields(l, x.units, false);
      t.failure == x.failure && t.toks == if x.failure.NoFailure? then fields else fields[..|fields| - 1]
    decreases |s| - i
  {
    hide From, Fields, ScanField, Tokens;
    ScanIsMeaning(l, s, i, false, "");
    FirstToken(l, last, s, i);
    var r := ScanField(l, s, i, false, "");
    var fields := Fields(l, From(l, s, i).units, false);
    assert "" + fields[0] == fields[0];
    match r
    case Field(next, tok, true) =>
      var later := Fields(l, From(l, s, next).units, false);
      if next == |s| {
        FromEnd(l, s);
        NothingLeft(l, false);
        LastToken(l, s);
      } else {
        TokensAreFields(l, true, s, next);
      }
      assert [tok] + later == fields;
      assert fields[..|fields| - 1] == [tok] + later[..|later| - 1];
    case Field(_, tok, false) =>
      LastToken(l, s);
      assert fields == [tok] + [];
    case BadField(_, _, _) =>
      assert fields[..0] == [];
  }

  lemma FirstToken(l: EscapedList, last: bool, s: string, i: nat)
    requires i < |s|
    ensures
      var t := Tokens(Escaped(l, last), s, i);
      match ScanField(l, s, i, false, "")
      case Field(next, tok, closed) =>
        next <= |s| && var rest := Tokens(Escaped(l, closed), s, next); t == Tokenized([tok] + rest.toks, rest.failure)
      case BadField(_, _, failure) => t == Tokenized([], failure)
  {
  }

  /** One call: it takes the first field that lies ahead, or stops right behind the offending escape with the text so far. */
  lemma CallMeaning(l: EscapedList, last: bool, s: string, next: nat)
    requires next < |s|
    ensures
      var x := From(l, s, next);
      var fields := Fields(l, x.units, false);
      var (r, f) := Call(Escaped(l, last), s, next);
      f.Escaped? && r.tok == fields[0] && f.list == l && f.last == (|fields| > 1)
      && (r.Thrown? <==> |fields| == 1 && !x.failure.NoFailure?)
      && (r.Thrown? ==> r.failure == x.failure && r.next == next + |SpellAll(x.units)| + 1)
      && (!r.Thrown? && |fields| == 1 ==> r.next == |s|)
      && (|fields| > 1 ==> fields[1..] == Fields(l, From(l, s, r.next).units, false))
  {
    hide From, Fields, SpellAll, ScanField;
    ScanIsMeaning(l, s, next, false, "");
    assert "" + Fields(l, From(l, s, next).units, false)[0] == Fields(l, From(l, s, next).units, false)[0];
  }

  lemma LastToken(l: EscapedList, s: string)
    ensures Tokens(Escaped(l, false), s, |s|) == Tokenized([], NoFailure)
    ensures Tokens(Escaped(l, true), s, |s|) == Tokenized([""], NoFailure)
  {
  }

  /**
   What tokenizing any text yields: the fields of the units it falls into, and when it
   gets stuck, the complete ones and the reason.
   */
  lemma TokenizeIsMeaning(l: EscapedList, last: bool, s: string)
    requires s != ""
    ensures
      var x, t := Lex(l, s), Tokenize(Escaped(l, last), s);
      var fields := Fields(l, x.units, false);
      t == if x.failure.NoFailure? then Tokenized(fields, NoFailure)
           else Tokenized(fields[..|fields| - 1], x.failure)
  {
    hide Lex, Fields, Tokens;
    assert s[0..] == s;
    TokensAreFields(l, false, s, 0);
  }

  /** A text is refused for a reason exactly when it is a row of units followed by what that reason says. */
  lemma FailsExactly(l: EscapedList, last: bool, s: string, failure: Failure)
    ensures Tokenize(Escaped(l, last), s).failure == failure <==>
      exists units, rest :: ValidUnits(l, units) && Stuck(l, rest, failure) && s == SpellAll(units) + rest
  {
    hide Lex, Tokens, ValidUnits, Stuck, SpellAll;
    LexSpells(l, s);
    var x := Lex(l, s);
    assert s == SpellAll(x.units) + s[|SpellAll(x.units)|..];
    FailureIsLex(l, last, s);
    forall units, rest | ValidUnits(l, units) && Stuck(l, rest, failure) && s == SpellAll(units) + rest
      ensures x.failure == failure
    {
      LexFinds(l, units, rest, failure);
    }
  }

  lemma FailureIsLex(l: EscapedList, last: bool, s: string)
    ensures Tokenize(Escaped(l, last), s).failure == Lex(l, s).failure
  {
    if s != "" {
      TokenizeIsMeaning(l, last, s);
    }
  }

  /** A text is accepted exactly when it is a row of units. */
  lemma AcceptedExactly(l: EscapedList, last: bool, s: string)
    ensures Tokenize(Escaped(l, last), s).failure.NoFailure? <==> exists units :: ValidUnits(l, units) && s == SpellAll(units)
  {
    hide Tokens, ValidUnits, SpellAll;
    FailsExactly(l, last, s, NoFailure);
    if units, rest :| ValidUnits(l, units) && Stuck(l, rest, NoFailure) && s == SpellAll(units) + rest {
      assert SpellAll(units) + rest == SpellAll(units);
    }
    if units :| ValidUnits(l, units) && s == SpellAll(units) {
      assert s == SpellAll(units) + "" && Stuck(l, "", NoFailure);
    }
  }
}
