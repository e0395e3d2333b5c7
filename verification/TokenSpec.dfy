/**
 What one call of each tokenizer function does, as a function of its carried state,
 and the token sequence that repeated calls produce.
 */
module TokenSpec {

  /** The exceptions a call can throw; an input may also go wrong nowhere. */
  datatype Failure = NoFailure | CannotEndWithEscape | UnknownEscapeSequence

  datatype CallResult =
    | Token(next: nat, tok: string)
    | End(next: nat)
    | Thrown(next: nat, tok: string, failure: Failure)

  /** The characters with a role in an escaped list. */
  datatype EscapedList = EscapedList(escape: string, sep: string, quote: string)

  datatype OffsetList = OffsetList(offsets: seq<int>, wrap: bool, returnPartialLast: bool)

  /** `punct` and `space` stand for the locale's ispunct and isspace. */
  datatype CharSplit = CharSplit(
    keptDelims: string, droppedDelims: string,
    useIspunct: bool, useIsspace: bool, punct: set<char>, space: set<char>,
    keepEmpty: bool)
  {
    predicate IsKept(e: char) {
      if |keptDelims| > 0 then e in keptDelims else useIspunct && e in punct
    }

    predicate IsDropped(e: char) {
      if |droppedDelims| > 0 then e in droppedDelims else useIsspace && e in space
    }

    predicate IsDelim(e: char) {
      IsKept(e) || IsDropped(e)
    }
  }

  /** Delimiters by name; none of a kind means that there is none, whatever the locale says. */
  function GivenDelims(dropped: string, kept: string, keepEmpty: bool, punct: set<char>, space: set<char>): CharSplit {
    CharSplit(kept, dropped, false, false, punct, space, keepEmpty)
  }

  /** The locale's punctuation is kept, its space dropped, and empty tokens too. */
  function LocaleDelims(punct: set<char>, space: set<char>): CharSplit {
    CharSplit("", "", true, true, punct, space, false)
  }

  lemma DelimsExactly(dropped: string, kept: string, keepEmpty: bool, punct: set<char>, space: set<char>, e: char)
    ensures
      var given, locale := GivenDelims(dropped, kept, keepEmpty, punct, space), LocaleDelims(punct, space);
      && (given.IsKept(e) <==> e in kept) && (given.IsDropped(e) <==> e in dropped) && given.keepEmpty == keepEmpty
      && (locale.IsKept(e) <==> e in punct) && (locale.IsDropped(e) <==> e in space) && !locale.keepEmpty
  {
  }

  /** A tokenizer function together with what it carries from call to call. */
  datatype Func =
    | Escaped(list: EscapedList, last: bool)
    | Offsets(at: OffsetList, current: nat)
    | Chars(split: CharSplit, outputDone: bool)

  // ---------------------------------------------------------------------------
  // escaped_list_separator

  /** A bad field says where reading stopped and what had been read by then. */
  datatype Field =
    | Field(next: nat, tok: string, closed: bool)
    | BadField(next: nat, tok: string, failure: Failure)

  /** Reads one field from position `i`, `tok` having been read so far. */
  function ScanField(l: EscapedList, s: string, i: nat, inQuote: bool, tok: string): (r: Field)
    requires i <= |s|
    ensures i <= r.next <= |s|
    ensures r.Field? ==> (r.closed ==> i < r.next) && (!r.closed ==> r.next == |s|)
    ensures r.BadField? ==> i < r.next && !r.failure.NoFailure?
    decreases |s| - i
  {
    if i == |s| then Field(i, tok, false)
    else if s[i] in l.escape then
      if i + 1 == |s| then BadField(i + 1, tok, CannotEndWithEscape)
      else if s[i + 1] == 'n' then ScanField(l, s, i + 2, inQuote, tok + ['\n'])
      else if s[i + 1] in l.quote || s[i + 1] in l.sep || s[i + 1] in l.escape then
        ScanField(l, s, i + 2, inQuote, tok + [s[i + 1]])
      else BadField(i + 1, tok, UnknownEscapeSequence)
    else if s[i] in l.sep then
      if !inQuote then Field(i + 1, tok, true)
      else ScanField(l, s, i + 1, inQuote, tok + [s[i]])
    else if s[i] in l.quote then ScanField(l, s, i + 1, !inQuote, tok)
    else ScanField(l, s, i + 1, inQuote, tok + [s[i]])
  }

  function CallEscaped(l: EscapedList, last: bool, s: string, next: nat): (CallResult, bool)
    requires next <= |s|
  {
    if next == |s| then
      if last then (Token(next, ""), false) else (End(next), false)
    else
      match ScanField(l, s, next, false, "")
      case Field(n, tok, closed) => (Token(n, tok), closed)
      case BadField(n, tok, failure) => (Thrown(n, tok, failure), false)
  }

  // ---------------------------------------------------------------------------
  // offset_separator

  /** How many characters a token of width `c` takes when `avail` are left. */
  function Width(c: int, avail: nat): nat {
    if c <= 0 then 0 else if c <= avail then c else avail
  }

  function CallOffset(o: OffsetList, current: nat, s: string, next: nat): (CallResult, nat)
    requires next <= |s| && |o.offsets| > 0 && current <= |o.offsets|
  {
    if next == |s| || (current == |o.offsets| && !o.wrap) then (End(next), current)
    else
      var cur := if current == |o.offsets| then 0 else current;
      var c := o.offsets[cur];
      var n := Width(c, |s| - next);
      if !o.returnPartialLast && n < c - 1 then (End(next + n), cur)
      else (Token(next + n, s[next..next + n]), cur + 1)
  }

  // ---------------------------------------------------------------------------
  // char_separator

  /** The first position from `i` on that holds a delimiter, or the end. */
  function RunEnd(c: CharSplit, s: string, i: nat): (j: nat)
    requires i <= |s|
    ensures i <= j <= |s|
    ensures forall k :: i <= k < j ==> !c.IsDelim(s[k])
    ensures j < |s| ==> c.IsDelim(s[j])
    decreases |s| - i
  {
    if i == |s| || c.IsDelim(s[i]) then i else RunEnd(c, s, i + 1)
  }

  /** The first position from `i` on that does not hold a dropped delimiter, or the end. */
  function SkipDropped(c: CharSplit, s: string, i: nat): (j: nat)
    requires i <= |s|
    ensures i <= j <= |s|
    ensures forall k :: i <= k < j ==> c.IsDropped(s[k])
    ensures j < |s| ==> !c.IsDropped(s[j])
    decreases |s| - i
  {
    if i == |s| || !c.IsDropped(s[i]) then i else SkipDropped(c, s, i + 1)
  }

  function CallDropping(c: CharSplit, s: string, next: nat): CallResult
    requires next <= |s|
  {
    var start := SkipDropped(c, s, next);
    if start == |s| then End(start)
    else if c.IsKept(s[start]) then Token(start + 1, [s[start]])
    else var j := RunEnd(c, s, start); Token(j, s[start..j])
  }

  function CallKeeping(c: CharSplit, done: bool, s: string, next: nat): (CallResult, bool)
    requires next <= |s|
  {
    if next == |s| then
      if !done then (Token(next, ""), true) else (End(next), done)
    else if c.IsKept(s[next]) then
      if !done then (Token(next, ""), true) else (Token(next + 1, [s[next]]), false)
    else if !done && c.IsDropped(s[next]) then (Token(next, ""), true)
    else
      var start := if c.IsDropped(s[next]) then next + 1 else next;
      var j := RunEnd(c, s, start);
      (Token(j, s[start..j]), true)
  }

  // ---------------------------------------------------------------------------
  // The token sequence

  predicate WellFormed(f: Func) {
    f.Offsets? ==> |f.at.offsets| > 0 && f.current <= |f.at.offsets|
  }

  function Call(f: Func, s: string, next: nat): (CallResult, Func)
    requires next <= |s| && WellFormed(f)
  {
    match f
    case Escaped(l, last) => var (r, last') := CallEscaped(l, last, s, next); (r, Escaped(l, last'))
    case Offsets(o, current) => var (r, current') := CallOffset(o, current, s, next); (r, Offsets(o, current'))
    case Chars(c, done) =>
      if !c.keepEmpty then (CallDropping(c, s, next), f)
      else var (r, done') := CallKeeping(c, done, s, next); (r, Chars(c, done'))
  }

  function Reset(f: Func): Func {
    match f
    case Escaped(l, _) => Escaped(l, false)
    case Offsets(o, _) => Offsets(o, 0)
    case Chars(_, _) => f
  }

  /** What the caller's token, `tok` before the call, holds after it: a refused or failed one is written all the same. */
  function TextAfter(f: Func, s: string, next: nat, tok: string): string
    requires next <= |s| && WellFormed(f)
  {
    match Call(f, s, next).0
    case Token(_, t) => t
    case Thrown(_, t, _) => t
    case End(n) =>
      match f
      case Escaped(_, _) => ""
      case Offsets(_, _) => if next <= n <= |s| && next != n then s[next..n] else tok
      case Chars(_, _) => tok
  }

  /** What a call that ends has written, and the offset it leaves for the next: only a refused partial token leaves a trace. */
  lemma EndingCall(f: Func, s: string, next: nat, tok: string)
    requires next <= |s| && WellFormed(f) && Call(f, s, next).0.End?
    ensures
      match f
      case Escaped(_, last) => next == |s| && !last && Call(f, s, next) == (End(|s|), f) && TextAfter(f, s, next, tok) == ""
      case Chars(_, _) => Call(f, s, next) == (End(|s|), f) && TextAfter(f, s, next, tok) == tok
      case Offsets(o, current) =>
        var cur := if current == |o.offsets| then 0 else current;
        if next == |s| || (current == |o.offsets| && !o.wrap) then
          Call(f, s, next) == (End(next), f) && TextAfter(f, s, next, tok) == tok
        else
          !o.returnPartialLast && |s| - next < o.offsets[cur] - 1
          && Call(f, s, next) == (End(|s|), Offsets(o, cur)) && TextAfter(f, s, next, tok) == s[next..]
  {
  }

  /** How many offsets in a row, from the i-th on, are zero or less. */
  function Stalls(offsets: seq<int>, i: nat): nat
    requires i <= |offsets|
    decreases |offsets| - i
  {
    if i == |offsets| || offsets[i] > 0 then 0 else 1 + Stalls(offsets, i + 1)
  }

  /** Every call that yields a token either moves on or lowers this rank. */
  function Rank(f: Func): nat
    requires WellFormed(f)
  {
    match f
    case Escaped(_, last) => if last then 1 else 0
    case Offsets(o, current) =>
      if !o.wrap then |o.offsets| - current
      else
        var k := Stalls(o.offsets, current);
        k + if current + k >= |o.offsets| then Stalls(o.offsets, 0) else 0
    case Chars(_, done) => if done then 0 else 1
  }

  /**
   Only offsets can stall: a width of zero or less yields tokens without reading, and
   wrapping round when all are of this kind goes on forever.
   */
  predicate Progressive(f: Func) {
    WellFormed(f)
    && (f.Offsets? && f.at.wrap ==> exists i :: 0 <= i < |f.at.offsets| && f.at.offsets[i] > 0)
  }

  lemma {:induction false} StallsStop(offsets: seq<int>, i: nat, j: nat)
    requires i <= j < |offsets| && offsets[j] > 0
    ensures i + Stalls(offsets, i) <= j
    decreases j - i
  {
    if offsets[i] <= 0 {
      StallsStop(offsets, i + 1, j);
    }
  }

  lemma {:induction false} StallsWithin(offsets: seq<int>, i: nat)
    requires i <= |offsets|
    ensures i + Stalls(offsets, i) <= |offsets|
    decreases |offsets| - i
  {
    if i < |offsets| && offsets[i] <= 0 {
      StallsWithin(offsets, i + 1);
    }
  }

  lemma OffsetProgresses(o: OffsetList, current: nat, s: string, next: nat)
    requires next < |s| && Progressive(Offsets(o, current)) && (o.wrap || current < |o.offsets|)
    ensures
      var cur := if current == |o.offsets| then 0 else current;
      o.offsets[cur] <= 0 || !o.wrap ==> Rank(Offsets(o, cur + 1)) < Rank(Offsets(o, current))
  {
    if o.wrap {
      var j :| 0 <= j < |o.offsets| && o.offsets[j] > 0;
      StallsStop(o.offsets, 0, j);
      if current < |o.offsets| {
        StallsWithin(o.offsets, current + 1);
      }
    }
  }

  /** Termination of token iteration, although some calls read nothing. */
  lemma CallProgresses(f: Func, s: string, next: nat)
    requires next <= |s| && Progressive(f)
    ensures
      var (r, f') := Call(f, s, next);
      Progressive(f')
      && (r.Thrown? ==> !r.failure.NoFailure?)
      && next <= r.next <= |s|
      && (r.Token? ==> (r.next == next ==> Rank(f') < Rank(f)))
  {
    if f.Offsets? && next < |s| && (f.at.wrap || f.current < |f.at.offsets|) {
      OffsetProgresses(f.at, f.current, s, next);
    }
  }

  datatype Tokenized = Tokenized(toks: seq<string>, failure: Failure)

  function Tokens(f: Func, s: string, next: nat): Tokenized
    requires next <= |s| && Progressive(f)
    decreases |s| - next, Rank(f)
  {
    CallProgresses(f, s, next);
    var (r, f') := Call(f, s, next);
    match r
    case Token(n, tok) => var rest := Tokens(f', s, n); Tokenized([tok] + rest.toks, rest.failure)
    case End(_) => Tokenized([], NoFailure)
    case Thrown(_, _, failure) => Tokenized([], failure)
  }

  // ---------------------------------------------------------------------------
  // When iteration ends

  /** Repeated calls stop, at the end or by throwing, after at most `k` tokens. */
  predicate EndsWithin(f: Func, s: string, next: nat, k: nat)
    requires next <= |s| && WellFormed(f)
    decreases k
  {
    var (r, f') := Call(f, s, next);
    r.Token? ==> k > 0 && r.next <= |s| && WellFormed(f') && EndsWithin(f', s, r.next, k - 1)
  }

  lemma {:induction false} ProgressEnds(f: Func, s: string, next: nat)
    requires next <= |s| && Progressive(f)
    ensures EndsWithin(f, s, next, |Tokens(f, s, next).toks|)
    decreases |s| - next, Rank(f)
  {
    CallProgresses(f, s, next);
    var (r, f') := Call(f, s, next);
    if r.Token? {
      ProgressEnds(f', s, r.next);
    }
  }

  lemma {:induction false} StalledNeverEnds(f: Func, s: string, next: nat, k: nat)
    requires next < |s| && WellFormed(f) && !Progressive(f)
    ensures !EndsWithin(f, s, next, k)
    decreases k
  {
    var (r, f') := Call(f, s, next);
    assert r.Token? && r.next == next && WellFormed(f') && !Progressive(f');
    if k > 0 {
      StalledNeverEnds(f', s, next, k - 1);
    }
  }

  /** With input left, iterating ends exactly when the function is progressive. */
  lemma EndsExactly(f: Func, s: string, next: nat)
    requires next < |s| && WellFormed(f)
    ensures (exists k: nat :: EndsWithin(f, s, next, k)) <==> Progressive(f)
  {
    hide Progressive;
    if Progressive(f) {
      ProgressEnds(f, s, next);
      assert exists k: nat :: EndsWithin(f, s, next, k);
    } else {
      forall k: nat ensures !EndsWithin(f, s, next, k) {
        StalledNeverEnds(f, s, next, k);
      }
    }
  }

  function Flatten(toks: seq<string>): string {
    if toks == [] then "" else toks[0] + Flatten(toks[1..])
  }

  /** What iterating over the whole of `s` yields: nothing at all for an empty input. */
  function Tokenize(f: Func, s: string): Tokenized
    requires WellFormed(f) && (s == "" || Progressive(f))
  {
    if s == "" then Tokenized([], NoFailure) else Tokens(Reset(f), s, 0)
  }
}
